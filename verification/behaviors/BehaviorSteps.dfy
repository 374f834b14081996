/**
 The behavior layer as a step machine.

 Engine code runs to its next callback (or its end) in one step; user code (a plugin's main
 code, an implementation, a revert, a callable) may take any step it likes and then returns
 or raises.  An event a state does not admit changes nothing, so that every sequence of
 events is a run.
 */
module BehaviorSteps {
  import opened Options
  import opened RefLedger

  // The C closures around a C++ implementation and a C++ revert.
  const IMPL_TRAMPOLINE := Obj(-1)
  const REVERT_TRAMPOLINE := Obj(-2)

  datatype Callee = LuaFunction | CFunction

  // How a callback is entered: what kind of function it is, and the id the allocator
  // offers for the transient handle of a C function.
  datatype Entering = Entering(callee: Callee, hint: int)

  datatype Event =
    | Build(v: Value, hint: int)                          // a builder, or a table child read
    | ConsumeChild(h: nat)                                // SetIndex / SetField
    | Get(n: string)
    | Declare(n: string, tier: Tier, h: nat, hasRevert: bool, defaultHint: int, implHint: int, revertHint: int)
    | Set(n: string, h: nat, author: string, plugin: string, earlyStop: bool, hint: int, entering: Entering)
    | Invoke(h: nat, args: seq<nat>, entering: Entering)  // a result is pinned by a Build after the Return
    | Return(raised: bool, entering: Entering)
    | Stage(v: Value)                                     // an off-thread builder
    | QueueSet(n: string, h: nat, author: string, plugin: string)
    | RunQueued(built: bool, hint: int, entering: Entering)  // whether the payload could be materialized
    | StartBoundary
    | Snapshot(pass: seq<string>)
    | DrainNext(entering: Entering)
    | SweepOne(n: string)
    | FinishBoundary

  // ---- Small state updates ---------------------------------------------------

  function Top(s: State): Frame
    requires s.frames != []
  {
    s.frames[|s.frames| - 1]
  }

  function Pop(s: State): State
    requires s.frames != []
  {
    s.(frames := s.frames[..|s.frames| - 1])
  }

  function Push(s: State, f: Frame): State {
    s.(frames := s.frames + [f])
  }

  function SetTop(s: State, f: Frame): State
    requires s.frames != []
  {
    s.(frames := s.frames[|s.frames| - 1 := f])
  }

  function Log(s: State, e: Entry): State {
    s.(log := s.log + [e])
  }

  function WithBehavior(s: State, n: string, b: Behavior): State {
    s.(store := s.store[n := b])
  }

  predicate UserOnTop(s: State) {
    s.frames != [] && (Top(s).Main? || Top(s).User?)
  }

  // A value handle the C++ verbs accept as a value.
  predicate BuiltValue(s: State, h: nat) {
    h in s.handles && s.handles[h].BuiltHandle? && !s.handles[h].consumed && RefAt(s, HandleOf(h)) != NO_REF
  }

  function Consume(s: State, h: nat): State
    requires h in s.handles && !s.handles[h].BehaviorHandle?
  {
    s.(handles := s.handles[h := s.handles[h].(consumed := true)])
  }

  // ---- get() and the value handles -------------------------------------------

  // The cell CurrentValueRef answers from.
  function CurrentCell(s: State, n: string): Cell {
    if RefAt(s, RecordOf(n)) != NO_REF then RecordOf(n) else DefaultOf(n)
  }

  function CurrentValue(s: State, n: string): Value {
    ValueAt(s, CurrentCell(s, n))
  }

  datatype Access = BadHandle | Stale | Ok(value: Value)

  // PushHandleValue.
  function Read(s: State, h: nat): Access {
    if h !in s.handles then BadHandle else
    match s.handles[h]
    case BuiltHandle(consumed) =>
      if consumed || RefAt(s, HandleOf(h)) == NO_REF then BadHandle else Ok(ValueAt(s, HandleOf(h)))
    case BehaviorHandle(n, generation, _) =>
      if n !in s.store then BadHandle
      else if s.store[n].valueGeneration != generation then Stale
      else Ok(CurrentValue(s, n))
    case StagedHandle(_, _) => BadHandle
  }

  function MintBuilt(s: State, hint: int, v: Value): State {
    var h := s.nextHandle;
    Ref(s.(handles := s.handles[h := BuiltHandle(false)], nextHandle := h + 1), hint, v, HandleOf(h))
  }

  function DoGet(s: State, n: string): State {
    if n !in s.store then s else
    s.(handles := s.handles[s.nextHandle :=
         BehaviorHandle(n, s.store[n].valueGeneration, CurrentValue(s, n))],
       nextHandle := s.nextHandle + 1)
  }

  function DoConsumeChild(s: State, h: nat): State {
    if BuiltValue(s, h) then Consume(Unref(s, HandleOf(h)), h) else s
  }

  // ---- Declare ---------------------------------------------------------------

  // Re-pin the built value into a fresh reference held in a local, and consume the handle.
  function Pin(s: State, h: nat, hint: int): State
    requires BuiltValue(s, h)
  {
    Consume(Unref(Ref(s, hint, ValueAt(s, HandleOf(h)), Local(0)), HandleOf(h)), h)
  }

  // The implementation and revert trampolines, held in locals until the registry takes them.
  function Trampolines(s: State, hasRevert: bool, implHint: int, revertHint: int): State {
    var s1 := Ref(s, implHint, IMPL_TRAMPOLINE, Local(1));
    if hasRevert then Ref(s1, revertHint, REVERT_TRAMPOLINE, Local(2)) else s1
  }

  function Adopt(s: State, n: string, tier: Tier): State {
    var b := Behavior(tier, false, "", "", s.nextSeq + 1, 1);
    var s1 := WithBehavior(s, n, b).(nextSeq := s.nextSeq + 1);
    Move(Move(Move(s1, Local(0), DefaultOf(n)), Local(1), ImplOf(n)), Local(2), RevertOf(n))
  }

  function DoDeclare(s: State, n: string, tier: Tier, h: nat, hasRevert: bool,
                     defaultHint: int, implHint: int, revertHint: int): State {
    if s.boundaryDone || !BuiltValue(s, h) then s else
    var s1 := Trampolines(Pin(s, h, defaultHint), hasRevert, implHint, revertHint);
    if n in s.store then Unref(Unref(Unref(s1, Local(0)), Local(1)), Local(2))
    else Adopt(s1, n, tier)
  }

  // ---- Callbacks -------------------------------------------------------------

  // The first thing a function finds on its stack.
  function FirstOf(args: seq<Value>): Value {
    if args == [] then Nil else args[0]
  }

  // lua_pcall of the function in `fn`.  A C function is reached through CImplClosure, which
  // wraps the first argument in a transient handle.
  function Enter(s: State, fn: Cell, args: seq<Value>, entering: Entering): State {
    var s1 := Touch(s, RefAt(s, fn));
    match entering.callee
    case LuaFunction => Push(s1, User(None, fn, args))
    case CFunction => Push(MintBuilt(s1, entering.hint, FirstOf(args)), User(Some(s1.nextHandle), fn, args))
  }

  // What CImplClosure does after the C function has returned.
  function ReleaseTransient(s: State, h: nat): State {
    var s1 := Unref(s, HandleOf(h));
    s1.(handles := s1.handles - {h})
  }

  // User code leaves: a raise skips the clean-up of CImplClosure.
  function Leave(s: State, raised: bool): State
    requires s.frames != [] && Top(s).User?
  {
    var s1 := Pop(s);
    match Top(s).transient
    case Some(h) => if raised then s1 else ReleaseTransient(s1, h)
    case None => s1
  }

  // ---- The record ------------------------------------------------------------

  // The old record, if there is one, is released.
  function ReleaseRecord(s: State, n: string): (t: State)
    ensures t.store == s.store && t.frames == s.frames && t.log == s.log && t.boundaryDone == s.boundaryDone
    ensures t.nextSeq == s.nextSeq && t.edges == s.edges && t.queue == s.queue
    ensures t.handles == s.handles && t.nextHandle == s.nextHandle
  {
    if RefAt(s, RecordOf(n)) != NO_REF then Unref(s, RecordOf(n)) else s
  }

  function RecordLoadSet(s: State, n: string, author: string, plugin: string): State
    requires n in s.store
  {
    var s1 := Move(ReleaseRecord(s, n), Local(0), RecordOf(n));
    var b := s.store[n];
    WithBehavior(s1, n, b.(setterAuthor := author, setterPlugin := plugin,
                           valueGeneration := b.valueGeneration + 1))
  }

  function RecordEdge(s: State, e: Edge): State {
    if e.consumerPlugin == "" || e in s.edges then s else s.(edges := s.edges + [e])
  }

  // A raising implementation clears the record and the applied flag.
  function ClearRecord(s: State, n: string): State
    requires n in s.store
  {
    var s1 := Unref(s, RecordOf(n));
    var b := s.store[n];
    WithBehavior(s1, n, b.(applied := false, setterAuthor := "", setterPlugin := "",
                           valueGeneration := b.valueGeneration + 1))
  }

  // ---- The post-load toggle --------------------------------------------------

  function CallRevert(s: State, n: string, entering: Entering): State
    requires n in s.store
  {
    var v := ValueAt(s, RecordOf(n));
    Enter(Log(Touch(s, RefAt(s, RecordOf(n))), RevertCalled(n, v)), RevertOf(n), [v], entering)
  }

  function CallImplementation(s: State, entering: Entering): State
    requires s.frames != [] && Top(s).Toggle?
  {
    var Toggle(n, _, queuedBy) := Top(s);
    var v := ValueAt(s, FrameOf(|s.frames| - 1));
    var s1 := SetTop(s, Toggle(n, Implementing(v), queuedBy));
    Enter(Log(s1, ImplCalled(n, v)), ImplOf(n), [v], entering)
  }

  // The new value is in Local(0).
  function BeginToggle(s: State, n: string, queuedBy: Option<Edge>, entering: Entering): State
    requires n in s.store
  {
    if RefAt(s, RevertOf(n)) == NO_REF then Unref(s, Local(0)) else
    var s1 := Move(Push(s, Toggle(n, Reverting(ValueAt(s, Local(0))), queuedBy)), Local(0), FrameOf(|s.frames|));
    if s.store[n].applied then CallRevert(s1, n, entering) else CallImplementation(s1, entering)
  }

  function DropToggle(s: State): State
    requires s.frames != [] && Top(s).Toggle?
  {
    Pop(Unref(s, FrameOf(|s.frames| - 1)))
  }

  function CommitToggle(s: State): State
    requires s.frames != [] && Top(s).Toggle? && Top(s).name in s.store
  {
    var Toggle(n, _, queuedBy) := Top(s);
    var s1 := Move(ReleaseRecord(s, n), FrameOf(|s.frames| - 1), RecordOf(n));
    var b := s.store[n];
    var s2 := Pop(WithBehavior(s1, n, b.(applied := true, valueGeneration := b.valueGeneration + 1)));
    match queuedBy
    case Some(e) => RecordEdge(s2, e)
    case None => s2
  }

  // A callback of the toggle on top has returned or raised.
  function ResumeToggle(s: State, raised: bool, entering: Entering): State
    requires s.frames != [] && Top(s).Toggle? && Top(s).name in s.store
  {
    var n := Top(s).name;
    match Top(s).stage
    case Reverting(_) => if raised then DropToggle(s) else CallImplementation(s, entering)
    case Implementing(v) =>
      if raised then ClearRecord(DropToggle(s), n) else CommitToggle(Log(s, ImplReturned(n, v)))
  }

  // ---- Set -------------------------------------------------------------------

  function DoSet(s: State, n: string, h: nat, author: string, plugin: string, earlyStop: bool,
                 hint: int, entering: Entering): State {
    if !BuiltValue(s, h) || n !in s.store then s
    else if s.store[n].tier.Plugin? && earlyStop then s
    else
      var s1 := Pin(s, h, hint);
      if s1.boundaryDone || s1.store[n].applied then BeginToggle(s1, n, None, entering)
      else RecordEdge(RecordLoadSet(s1, n, author, plugin), Edge(author, plugin, n))
  }

  // The cell a readable handle is read from.
  function ReadCell(s: State, h: nat): Cell {
    if h in s.handles && s.handles[h].BehaviorHandle? then CurrentCell(s, s.handles[h].fullName) else HandleOf(h)
  }

  // What Invoke demands: a handle that reads a function, and argument handles that read.
  predicate Callable(s: State, h: nat, args: seq<nat>) {
    Read(s, h).Ok? && IsFunction(Read(s, h).value) && forall k :: 0 <= k < |args| ==> Read(s, args[k]).Ok?
  }

  // What the argument handles read, in order.
  function Arguments(s: State, args: seq<nat>): (r: seq<Value>)
    ensures |r| == |args|
  {
    seq(|args|, k requires 0 <= k < |args| => if Read(s, args[k]).Ok? then Read(s, args[k]).value else Nil)
  }

  function DoInvoke(s: State, h: nat, args: seq<nat>, entering: Entering): State {
    if Callable(s, h, args) then Enter(Push(s, Calling), ReadCell(s, h), Arguments(s, args), entering) else s
  }

  // ---- The off-thread path ---------------------------------------------------

  function DoStage(s: State, v: Value): State {
    if !s.boundaryDone || v.Nil? then s else
    s.(handles := s.handles[s.nextHandle := StagedHandle(v, false)], nextHandle := s.nextHandle + 1)
  }

  function DoQueueSet(s: State, n: string, h: nat, author: string, plugin: string): State {
    if !s.boundaryDone || h !in s.handles || !s.handles[h].StagedHandle? || s.handles[h].consumed then s
    else Consume(s, h).(queue := s.queue + [QueuedSet(n, author, plugin, s.handles[h].payload)])
  }

  // QueuedSetCommand::Run: materialize the payload into a local, then toggle.  A name that is not
  // known and a payload that cannot be built cost the command, and nothing else.
  function DoRunQueued(s: State, built: bool, hint: int, entering: Entering): State {
    if s.queue == [] || s.frames != [Main] then s else
    var q := s.queue[0];
    var s1 := s.(queue := s.queue[1..]);
    if q.name !in s.store || !built then s1
    else BeginToggle(Ref(s1, hint, q.payload, Local(0)), q.name,
                     Some(Edge(q.author, q.plugin, q.name)), entering)
  }

  // ---- The apply boundary ----------------------------------------------------

  // Set but not applied.
  predicate Pending(s: State, n: string) {
    n in s.store && RefAt(s, RecordOf(n)) != NO_REF && !s.store[n].applied
  }

  // What one pass of the drain works through: the pending behaviors it has not invoked yet,
  // each once, in declare order.
  ghost predicate IsPass(s: State, invoked: set<string>, pass: seq<string>) {
    && (forall n :: n in pass <==> Pending(s, n) && n !in invoked)
    && (forall i, j :: 0 <= i < j < |pass| ==>
          pass[i] in s.store && pass[j] in s.store &&
          s.store[pass[i]].declareSeq < s.store[pass[j]].declareSeq)
  }

  function DoStartBoundary(s: State): State {
    if s.boundaryDone || s.frames != [Main] then s else Push(s, Drain({}, [], None, Nil, 0))
  }

  predicate DrainIdle(s: State) {
    s.frames != [] && Top(s).Drain? && Top(s).pass == []
  }

  ghost function DoSnapshot(s: State, pass: seq<string>): State {
    if DrainIdle(s) && pass != [] && IsPass(s, Top(s).invoked, pass)
    then SetTop(s, Top(s).(pass := pass, passNo := Top(s).passNo + 1)) else s
  }

  function DoDrainNext(s: State, entering: Entering): State {
    if s.frames == [] || !Top(s).Drain? || Top(s).pass == [] then s else
    var d := Top(s);
    var n := d.pass[0];
    if !Pending(s, n) then SetTop(s, d.(pass := d.pass[1..])) else
    var v := ValueAt(s, RecordOf(n));
    var s1 := Touch(WithBehavior(s, n, s.store[n].(applied := true)), RefAt(s, RecordOf(n)));
    var s2 := SetTop(s1, Drain(d.invoked + {n}, d.pass[1..], Some(n), v, d.passNo));
    Enter(Log(Log(s2, DrainCalled(n, v, d.passNo)), ImplCalled(n, v)), ImplOf(n), [v], entering)
  }

  // The implementation the drain invoked has returned or raised.
  function ResumeDrain(s: State, raised: bool): State
    requires s.frames != [] && Top(s).Drain?
  {
    match Top(s).calling
    case None => s
    case Some(n) =>
      if n !in s.store then s else
      var s1 := if raised then ClearRecord(s, n) else Log(s, ImplReturned(n, Top(s).callingValue));
      s1.(frames := s.frames[|s.frames| - 1 := Top(s).(calling := None)])
  }

  // Nothing is left that the drain has not invoked.
  ghost predicate Drained(s: State) {
    DrainIdle(s) && forall n :: Pending(s, n) ==> n in Top(s).invoked
  }

  // A record pended onto a raise-cleared behavior is dropped at the end of the drain.
  ghost function DoSweepOne(s: State, n: string): State {
    if Drained(s) && Pending(s, n) then ClearRecord(s, n) else s
  }

  ghost function DoFinishBoundary(s: State): State {
    if Drained(s) && forall n :: !Pending(s, n) then Pop(s).(boundaryDone := true) else s
  }

  // ---- One step --------------------------------------------------------------

  function DoReturn(s: State, raised: bool, entering: Entering): State {
    if s.frames == [] || !Top(s).User? then s else
    var s1 := Leave(s, raised);
    if s1.frames == [] then s1 else
    match Top(s1)
    case Drain(_, _, _, _, _) => ResumeDrain(s1, raised)
    case Toggle(n, _, _) => if n in s1.store then ResumeToggle(s1, raised, entering) else s1
    case Calling => Pop(s1)
    case Main => s1
    case User(_, _, _) => s1
  }

  ghost function Step(s: State, e: Event): State {
    match e
    case Build(v, hint) => if UserOnTop(s) then MintBuilt(s, hint, v) else s
    case ConsumeChild(h) => if UserOnTop(s) then DoConsumeChild(s, h) else s
    case Get(n) => if UserOnTop(s) then DoGet(s, n) else s
    case Declare(n, tier, h, hasRevert, d, i, r) =>
      if UserOnTop(s) then DoDeclare(s, n, tier, h, hasRevert, d, i, r) else s
    case Set(n, h, author, plugin, earlyStop, hint, entering) =>
      if UserOnTop(s) then DoSet(s, n, h, author, plugin, earlyStop, hint, entering) else s
    case Invoke(h, args, entering) => if UserOnTop(s) then DoInvoke(s, h, args, entering) else s
    case Return(raised, entering) => DoReturn(s, raised, entering)
    case Stage(v) => DoStage(s, v)
    case QueueSet(n, h, author, plugin) => DoQueueSet(s, n, h, author, plugin)
    case RunQueued(built, hint, entering) => DoRunQueued(s, built, hint, entering)
    case StartBoundary => DoStartBoundary(s)
    case Snapshot(pass) => DoSnapshot(s, pass)
    case DrainNext(entering) => DoDrainNext(s, entering)
    case SweepOne(n) => DoSweepOne(s, n)
    case FinishBoundary => DoFinishBoundary(s)
  }

  // A run from any state.
  ghost function Run(s: State, events: seq<Event>): State
    decreases |events|
  {
    if events == [] then s else Run(Step(s, events[0]), events[1..])
  }
}
