/**
 What callbacks do: a script is any finite series of calls into the registry followed by a
 return or a raise.  Then the facts about single steps that the registry's methods need.
 */
module BehaviorScripts {
  import opened Options
  import opened RefLedger
  import opened BehaviorSteps
  import opened BehaviorEffects
  import opened BehaviorInvariant
  import opened BehaviorPreservation
  import opened BehaviorRuns
  import opened BehaviorTheorems

  datatype Call =
    | CallBuild(v: Value, hint: int)
    | CallConsumeChild(h: nat)
    | CallGet(n: string)
    | CallDeclare(n: string, tier: Tier, h: nat, hasRevert: bool, defaultHint: int, implHint: int, revertHint: int)
    | CallSet(n: string, h: nat, author: string, plugin: string, earlyStop: bool, hint: int,
              onRevert: Script, onImplementation: Script)
    | CallInvoke(h: nat, args: seq<nat>, hint: int, body: Script)

  // What a callback does: its calls in order, then how it ends.
  datatype Script = Script(calls: seq<Call>, raises: bool, result: Value, callee: Callee, hint: int) {
    function Entering(): Entering { BehaviorSteps.Entering(callee, hint) }

    // CImplClosure answers no value, whatever the C function does.
    function Result(): Value { if callee.CFunction? then Nil else result }
  }

  // What Invoke answers; a call without a result has the handle 0, here `None`.
  datatype Answer = Unreadable(access: Access) | NotAFunction | Raised | Returned(handle: Option<nat>)

  // The first argument handle that does not read decides.
  function FirstUnreadable(s: State, args: seq<nat>): Access {
    if args == [] then Ok(Nil) else
    var n := |args| - 1;
    var r := FirstUnreadable(s, args[..n]);
    if r.Ok? then (if Read(s, args[n]).Ok? then Ok(Nil) else Read(s, args[n])) else r
  }

  lemma {:induction false} FirstUnreadableIs(s: State, args: seq<nat>)
    ensures var r := FirstUnreadable(s, args);
            (r.Ok? <==> forall k :: 0 <= k < |args| ==> Read(s, args[k]).Ok?) &&
            (!r.Ok? ==>
               exists k :: 0 <= k < |args| && r == Read(s, args[k]) && forall j :: 0 <= j < k ==> Read(s, args[j]).Ok?)
    decreases |args|
  {
    hide Read;
    if args != [] {
      var n := |args| - 1;
      FirstUnreadableIs(s, args[..n]);
      assert forall k :: 0 <= k < n ==> args[..n][k] == args[k];
      if !FirstUnreadable(s, args[..n]).Ok? {
        var k :| 0 <= k < n && FirstUnreadable(s, args[..n]) == Read(s, args[..n][k]) &&
                 forall j :: 0 <= j < k ==> Read(s, args[..n][j]).Ok?;
        assert FirstUnreadable(s, args) == Read(s, args[k]) && forall j :: 0 <= j < k ==> Read(s, args[j]).Ok?;
      } else if !Read(s, args[n]).Ok? {
        assert FirstUnreadable(s, args) == Read(s, args[n]);
      }
    }
  }

  // Why Invoke does not call.
  function Refusal(s: State, h: nat, args: seq<nat>): Answer
    requires !Callable(s, h, args)
  {
    if !Read(s, h).Ok? then Unreadable(Read(s, h))
    else if !IsFunction(Read(s, h).value) then NotAFunction
    else Unreadable(FirstUnreadable(s, args))
  }

  // How many declares a script can make.
  function Declares(script: Script): nat
    decreases script
  {
    DeclaresIn(script.calls)
  }

  function DeclaresIn(calls: seq<Call>): nat
    decreases calls
  {
    if calls == [] then 0 else DeclaresOf(calls[0]) + DeclaresIn(calls[1..])
  }

  function DeclaresOf(call: Call): nat
    decreases call
  {
    match call
    case CallDeclare(_, _, _, _, _, _, _) => 1
    case CallSet(_, _, _, _, _, _, onRevert, onImplementation) => Declares(onRevert) + Declares(onImplementation)
    case CallInvoke(_, _, _, body) => Declares(body)
    case CallBuild(_, _) => 0
    case CallConsumeChild(_) => 0
    case CallGet(_) => 0
  }

  // How deep and how long a script is.
  function Size(script: Script): nat
    decreases script
  {
    1 + SizeIn(script.calls)
  }

  function SizeIn(calls: seq<Call>): nat
    decreases calls
  {
    if calls == [] then 0 else SizeOf(calls[0]) + SizeIn(calls[1..])
  }

  function SizeOf(call: Call): nat
    decreases call
  {
    match call
    case CallSet(_, _, _, _, _, _, onRevert, onImplementation) => 1 + Size(onRevert) + Size(onImplementation)
    case CallInvoke(_, _, _, body) => 1 + Size(body)
    case CallDeclare(_, _, _, _, _, _, _) => 1
    case CallBuild(_, _) => 1
    case CallConsumeChild(_) => 1
    case CallGet(_) => 1
  }

  // The four ways a toggle ends.
  datatype Outcome = NoRevert | RevertRaised | ImplementationRaised | Toggled

  // Which of them it is, is up to the behavior and to its callbacks.
  function OutcomeOf(hasRevert: bool, applied: bool, onRevert: Script, onImplementation: Script): Outcome {
    if !hasRevert then NoRevert
    else if applied && onRevert.raises then RevertRaised
    else if onImplementation.raises then ImplementationRaised
    else Toggled
  }

  // The second state is reached from the first by a run of the machine.
  ghost predicate Reaches(s: State, t: State) {
    exists events :: Run(s, events) == t
  }

  lemma ReachesRefl(s: State)
    ensures Reaches(s, s)
  {
    assert Run(s, []) == s;
  }

  lemma ReachesStep(s: State, t: State, e: Event)
    requires Reaches(s, t)
    ensures Reaches(s, Step(t, e))
  {
    hide Step;
    var events :| Run(s, events) == t;
    RunAppend(s, events, [e]);
    assert Run(t, [e]) == Run(Step(t, e), [e][1..]);
  }

  lemma ReachesTransitive(s: State, t: State, u: State)
    requires Reaches(s, t) && Reaches(t, u)
    ensures Reaches(s, u)
  {
    hide Step;
    var es :| Run(s, es) == t;
    var fs :| Run(t, fs) == u;
    RunAppend(s, es, fs);
  }

  // The store has grown, by no more than k behaviors.
  predicate Grew(s: State, t: State, k: nat) {
    s.store.Keys <= t.store.Keys && |t.store.Keys| <= |s.store.Keys| + k
  }

  // The end of a callback is a step.
  lemma ReturnStep(s: State, u: State, raised: bool, e: Entering)
    requires Inv(u) && Reaches(s, u)
    ensures Inv(DoReturn(u, raised, e)) && Reaches(s, DoReturn(u, raised, e))
  {
    hide Inv, Reaches, DoReturn;
    StepKeeps(u, Return(raised, e));
    ReachesStep(s, u, Return(raised, e));
  }

  // A callback of a toggle hands the stack back to the toggle.
  lemma ReturnToToggle(u: State, raised: bool, e: Entering)
    requires Inv(u) && |u.frames| > 1 && Top(u).User? && u.frames[|u.frames| - 2].Toggle?
    ensures var t := Leave(u, raised);
            Core(t) && t.frames == u.frames[..|u.frames| - 1] && |t.frames| % 2 == 0 && t.store == u.store &&
            t.log == u.log &&
            (forall k :: RefAt(t, Local(k)) == NO_REF) &&
            Top(t) == u.frames[|u.frames| - 2] && Top(t).name in t.store &&
            DoReturn(u, raised, e) == ResumeToggle(t, raised, e)
  {
    hide Core, Advances, ResumeToggle, Leave, RefAt;
    LeaveKeeps(u, raised);
    LeaveStore(u, raised);
    EngineOnTop(Leave(u, raised));
  }

  lemma LeaveStore(u: State, raised: bool)
    requires u.frames != [] && Top(u).User?
    ensures Leave(u, raised).store == u.store && Leave(u, raised).log == u.log
  {
    hide Unref;
  }

  // A declare adds its behavior to the store, or nothing.
  lemma DeclareStore(s: State, n: string, tier: Tier, h: nat, hasRevert: bool, d: int, i: int, r: int)
    ensures var t := DoDeclare(s, n, tier, h, hasRevert, d, i, r); t.frames == s.frames && Grew(s, t, 1)
  {
    hide Ref, Unref, Move, RefAt, ValueAt;
    if BuiltValue(s, h) {
      var v := ValueAt(s, HandleOf(h));
      var s1 := Pin(s, h, d);
      var s2 := Ref(s1, i, IMPL_TRAMPOLINE, Local(1));
      DeclareEndStore(Trampolines(s1, hasRevert, i, r), n, tier);
    }
  }

  lemma DeclareEndStore(s: State, n: string, tier: Tier)
    ensures var t := Unref(Unref(Unref(s, Local(0)), Local(1)), Local(2)); t.frames == s.frames && t.store == s.store
    ensures var t := Adopt(s, n, tier); t.frames == s.frames && t.store.Keys == s.store.Keys + {n}
  {
    hide Unref, Move;
    var s1 := WithBehavior(s, n, Behavior(tier, false, "", "", s.nextSeq + 1, 1)).(nextSeq := s.nextSeq + 1);
    var s2 := Move(s1, Local(0), DefaultOf(n));
  }

  lemma EnterFrames(s: State, fn: Cell, args: seq<Value>, e: Entering)
    ensures var t := Enter(s, fn, args, e);
            t.store == s.store && |t.frames| == |s.frames| + 1 && t.frames[..|s.frames|] == s.frames &&
            RanWith(t, fn, args)
  {}

  // The user code on top was called with these arguments.
  predicate RanWith(u: State, fn: Cell, args: seq<Value>) {
    u.frames != [] && Top(u).User? && Top(u).fn == fn && Top(u).args == args
  }

  // While its callbacks run, a toggle holds on to its new value.
  lemma StageValue(u: State, i: nat)
    requires Inv(u) && i < |u.frames| && u.frames[i].Toggle?
    ensures ValueAt(u, FrameOf(i)) == u.frames[i].stage.value && RefAt(u, FrameOf(i)) != NO_REF
  {
    hide Ledger, Placed, Truth, Fresh, History;
    assert FrameOk(u, i);
  }

  lemma CallImplementationFrames(s: State, e: Entering)
    requires s.frames != [] && Top(s).Toggle?
    ensures var t := CallImplementation(s, e); var i := |s.frames| - 1;
            t.store == s.store && |t.frames| == |s.frames| + 1 && t.frames[..i] == s.frames[..i] &&
            RanWith(t, ImplOf(s.frames[i].name), [ValueAt(s, FrameOf(i))]) &&
            t.frames[i] == Toggle(s.frames[i].name, Implementing(ValueAt(s, FrameOf(i))), s.frames[i].queuedBy)
  {
    hide Enter;
    var Toggle(n, _, queuedBy) := Top(s);
    var v := ValueAt(s, FrameOf(|s.frames| - 1));
    EnterFrames(Log(SetTop(s, Toggle(n, Implementing(v), queuedBy)), ImplCalled(n, v)), ImplOf(n), [v], e);
  }

  lemma LeaveCells(u: State, raised: bool, i: nat)
    requires Inv(u) && u.frames != [] && Top(u).User?
    ensures RefAt(Leave(u, raised), FrameOf(i)) == RefAt(u, FrameOf(i)) &&
            ValueAt(Leave(u, raised), FrameOf(i)) == ValueAt(u, FrameOf(i))
  {
    hide Ledger, Placed, Stack, Truth, Fresh, History, RefAt, Deref, ReleaseTransient;
    SameCellsKeepsLedger(u, Pop(u));
    if Top(u).transient.Some? {
      ReleaseTransientCells(Pop(u), Top(u).transient.value);
    }
  }

  // After a commit get() answers the value the implementation was called with.
  lemma Committed(u: State, n: string, v: Value)
    requires Inv(u) && |u.frames| > 1 && Top(u).User?
    requires u.frames[|u.frames| - 2].Toggle? && u.frames[|u.frames| - 2].name == n &&
             u.frames[|u.frames| - 2].stage == Implementing(v)
    requires var t := Leave(u, false); Ledger(t) && t.frames == u.frames[..|u.frames| - 1] && n in t.store
    ensures var t := CommitToggle(Log(Leave(u, false), ImplReturned(n, v)));
            n in t.store && t.store[n].applied && CurrentValue(t, n) == v &&
            t.frames == u.frames[..|u.frames| - 2] && t.store.Keys == Leave(u, false).store.Keys
  {
    hide Inv, Ledger, Leave, CommitToggle, RefAt, Deref;
    var t := Leave(u, false);
    var i := |u.frames| - 2;
    StageValue(u, i);
    LeaveCells(u, false, i);
    var t1 := Log(t, ImplReturned(n, v));
    SameCellsKeepsLedger(t, t1);
    CommitToggleCells(t1);
  }

  // Which callback a toggle enters first.
  function First(s: State, n: string, onRevert: Script, onImplementation: Script): Entering
  {
    if n in s.store && s.store[n].applied then onRevert.Entering() else onImplementation.Entering()
  }

  // A toggle on top of the stack calls out for the first time.
  function FirstCall(s: State, n: string, onRevert: Script, onImplementation: Script): State
    requires n in s.store && s.frames != [] && Top(s).Toggle?
  {
    if s.store[n].applied then CallRevert(s, n, onRevert.Entering())
    else CallImplementation(s, onImplementation.Entering())
  }

  // The state a toggle of n to the pinned value calls its first callback in.
  lemma BeginToggleParts(s: State, n: string, queuedBy: Option<Edge>, onRevert: Script, onImplementation: Script)
    requires Core(s) && n in s.store && RefAt(s, RevertOf(n)) != NO_REF && UserOnTop(s) && |s.frames| % 2 == 1
    requires RefAt(s, Local(0)) != NO_REF && (s.boundaryDone || s.store[n].applied)
    ensures var t := Move(Push(s, Toggle(n, Reverting(ValueAt(s, Local(0))), queuedBy)), Local(0), FrameOf(|s.frames|));
            var start := BeginToggle(s, n, queuedBy, First(s, n, onRevert, onImplementation));
            Core(t) && t.store == s.store &&
            t.frames == s.frames + [Toggle(n, Reverting(ValueAt(s, Local(0))), queuedBy)] &&
            ValueAt(t, FrameOf(|s.frames|)) == ValueAt(s, Local(0)) &&
            start == (if s.store[n].applied then CallRevert(t, n, onRevert.Entering())
                                            else CallImplementation(t, onImplementation.Entering())) &&
            start.store == s.store && |start.frames| == |s.frames| + 2 && Top(start).User? &&
            (s.store[n].applied ==> start.frames[..|s.frames| + 1] == t.frames)
  {
    hide Core, Advances, Move, Enter, RefAt, ValueAt;
    var v := ValueAt(s, Local(0));
    var t := Move(Push(s, Toggle(n, Reverting(v), queuedBy)), Local(0), FrameOf(|s.frames|));
    PushToggleKeeps(s, n, queuedBy);
    PushToggleFacts(s, n, queuedBy);
    PushedValue(s, n, queuedBy);
    if s.store[n].applied {
      EnterFrames(Log(Touch(t, RefAt(t, RecordOf(n))), RevertCalled(n, ValueAt(t, RecordOf(n)))), RevertOf(n),
                  [ValueAt(t, RecordOf(n))], onRevert.Entering());
    } else {
      CallImplementationFrames(t, onImplementation.Entering());
    }
  }

  lemma PushedValue(s: State, n: string, queuedBy: Option<Edge>)
    requires Core(s)
    ensures var t := Move(Push(s, Toggle(n, Reverting(ValueAt(s, Local(0))), queuedBy)), Local(0), FrameOf(|s.frames|));
            ValueAt(t, FrameOf(|s.frames|)) == ValueAt(s, Local(0))
  {
    hide Move, RefAt, ValueAt, Stack, Truth, Fresh, History, Ledger;
    NoFrameCells(s);
    PushToggleCells(s, n, queuedBy);
  }

  // What Set has in hand once the value is pinned.
  lemma PinnedToggle(s: State, h: nat, hint: int)
    requires Inv(s) && UserOnTop(s) && BuiltValue(s, h)
    ensures var t := Pin(s, h, hint);
            Core(t) && UserOnTop(t) && |t.frames| % 2 == 1 && RefAt(t, Local(0)) != NO_REF &&
            (forall k :: k != 0 ==> RefAt(t, Local(k)) == NO_REF) && SameFrame(s, t) &&
            (forall n :: RefAt(t, RevertOf(n)) == RefAt(s, RevertOf(n))) && Ledger(s) && RefAt(s, Local(0)) == NO_REF &&
            Ledger(t)
  {
    hide Ledger, Placed, Stack, Truth, Fresh, History, Pin, RefAt, ValueAt, BuiltValue;
    PinKeeps(s, h, hint);
    PinFacts(s, h, hint);
    PinCells(s, h, hint);
    UserAtEvenCore(s);
  }

  // The pinned value is the handle's.
  lemma PinHolds(s: State, h: nat, hint: int)
    requires Inv(s) && BuiltValue(s, h)
    ensures ValueAt(Pin(s, h, hint), Local(0)) == ValueAt(s, HandleOf(h))
  {
    hide Placed, Stack, Truth, Fresh, History, Ledger, Pin, RefAt, ValueAt, BuiltValue;
    PinCells(s, h, hint);
  }

  lemma SetStep(s: State, n: string, h: nat, author: string, plugin: string, earlyStop: bool, hint: int, e: Entering)
    requires Inv(s) && UserOnTop(s)
    ensures var t := DoSet(s, n, h, author, plugin, earlyStop, hint, e); Inv(t) && Reaches(s, t)
  {
    hide Inv, Reaches, DoSet;
    StepKeeps(s, Event.Set(n, h, author, plugin, earlyStop, hint, e));
    ReachesRefl(s);
    ReachesStep(s, s, Event.Set(n, h, author, plugin, earlyStop, hint, e));
  }

  lemma InvokeStep(s: State, h: nat, args: seq<nat>, e: Entering)
    requires Inv(s) && UserOnTop(s)
    ensures var t := DoInvoke(s, h, args, e); Inv(t) && Reaches(s, t)
  {
    hide Inv, Reaches, DoInvoke;
    StepKeeps(s, Event.Invoke(h, args, e));
    ReachesRefl(s);
    ReachesStep(s, s, Event.Invoke(h, args, e));
  }

  lemma CallableMeans(s: State, h: nat, args: seq<nat>)
    ensures Callable(s, h, args) <==> Read(s, h).Ok? && IsFunction(Read(s, h).value) && FirstUnreadable(s, args).Ok?
    ensures !Callable(s, h, args) ==>
              Refusal(s, h, args) == if !Read(s, h).Ok? then Unreadable(Read(s, h))
                                     else if !IsFunction(Read(s, h).value) then NotAFunction
                                     else Unreadable(FirstUnreadable(s, args))
  {
    hide Read;
    FirstUnreadableIs(s, args);
  }

  lemma NotCallable(s: State, h: nat, args: seq<nat>, e: Entering)
    ensures !Callable(s, h, args) ==> DoInvoke(s, h, args, e) == s
  {
    hide Callable, Enter;
  }

  // Once an argument does not read, it is the answer whatever follows.
  lemma {:induction false} FirstStays(s: State, args: seq<nat>, i: nat)
    requires i < |args| && FirstUnreadable(s, args[..i]).Ok? && !Read(s, args[i]).Ok?
    ensures FirstUnreadable(s, args) == Read(s, args[i])
    decreases |args|
  {
    hide Read;
    var n := |args| - 1;
    if i < n {
      assert args[..n][..i] == args[..i];
      FirstStays(s, args[..n], i);
    }
  }

  // A result is pinned in a handle that was not there before.
  lemma PinnedResult(s: State, hint: int, v: Value)
    requires Inv(s) && UserOnTop(s) && v.Obj?
    ensures var t := MintBuilt(s, hint, v);
            t == Step(s, Build(v, hint)) && s.nextHandle !in s.handles && Read(t, s.nextHandle) == Ok(v) &&
            t.frames == s.frames && t.store == s.store
  {
    hide Ledger, Stack, Truth, Fresh, History, MintBuilt, RefAt, ValueAt;
    assert RefAt(s, HandleOf(s.nextHandle)) == NO_REF && s.nextHandle !in s.handles by { NoHandleYet(s); }
    MintBuiltCells(s, hint, v);
  }

  lemma ReturnToCalling(u: State, raised: bool, e: Entering)
    requires Inv(u) && |u.frames| > 1 && Top(u).User? && u.frames[|u.frames| - 2].Calling?
    ensures var t := Leave(u, raised);
            t.frames == u.frames[..|u.frames| - 1] && t.store == u.store && DoReturn(u, raised, e) == Pop(t)
  {
    hide Core, Advances, Leave, RefAt;
    LeaveKeeps(u, raised);
    LeaveStore(u, raised);
  }

  lemma InvokeEnters(s: State, h: nat, args: seq<nat>, e: Entering)
    requires Inv(s) && UserOnTop(s) && Callable(s, h, args)
    ensures var t := DoInvoke(s, h, args, e);
            t == Enter(Push(s, Calling), ReadCell(s, h), Arguments(s, args), e) && Inv(t) && Reaches(s, t) &&
            Ledger(Push(s, Calling)) && t.store == s.store && |t.frames| == |s.frames| + 2 && Top(t).User? &&
            t.frames[..|s.frames| + 1] == s.frames + [Calling] && RanWith(t, ReadCell(s, h), Arguments(s, args))
  {
    hide Ledger, Placed, Stack, Truth, Fresh, History, Reaches, Enter, Callable, ReadCell, Arguments;
    InvokeStep(s, h, args, e);
    SameCellsKeepsLedger(s, Push(s, Calling));
    EnterFrames(Push(s, Calling), ReadCell(s, h), Arguments(s, args), e);
  }

  // u is the state in which the function Invoke called is about to leave.
  lemma InvokeReturns(s: State, h: nat, args: seq<nat>, body: Script, u: State)
    requires Inv(s) && UserOnTop(s) && Callable(s, h, args)
    requires CalledBack(DoInvoke(s, h, args, body.Entering()), u, body)
    ensures var t := DoReturn(u, body.raises, body.Entering()); var start := DoInvoke(s, h, args, body.Entering());
            Leave(u, body.raises).frames == s.frames + [Calling] && t == Pop(Leave(u, body.raises)) &&
            Inv(t) && Reaches(s, t) && Reaches(start, t) && Grew(s, t, Declares(body)) && t.frames == s.frames &&
            RanWith(u, ReadCell(s, h), Arguments(s, args))
  {
    hide Inv, Reaches, Leave, Enter, DoInvoke, DoReturn, Callable, ReadCell, Arguments, Played;
    var start := DoInvoke(s, h, args, body.Entering());
    InvokeEnters(s, h, args, body.Entering());
    assert u.frames[|s.frames|] == u.frames[..|s.frames| + 1][|s.frames|];
    ReturnToCalling(u, body.raises, body.Entering());
    ReachesTransitive(s, start, u);
    ReturnStep(s, u, body.raises, body.Entering());
    ReturnStep(start, u, body.raises, body.Entering());
    assert u.frames[..|u.frames| - 1] == s.frames + [Calling];
  }

  // The state after the first engine step of a call.
  function FirstStep(s: State, call: Call): State {
    match call
    case CallBuild(v, hint) => MintBuilt(s, hint, v)
    case CallConsumeChild(h) => DoConsumeChild(s, h)
    case CallGet(n) => DoGet(s, n)
    case CallDeclare(n, tier, h, hasRevert, d, i, r) => DoDeclare(s, n, tier, h, hasRevert, d, i, r)
    case CallSet(n, h, author, plugin, earlyStop, hint, onRevert, onImplementation) =>
      DoSet(s, n, h, author, plugin, earlyStop, hint, First(s, n, onRevert, onImplementation))
    case CallInvoke(h, args, _, body) => DoInvoke(s, h, args, body.Entering())
  }

  // A call has been made and is over: a verb that calls nothing back is its one step; one that does
  // goes on from it until the stack is as it was.
  ghost predicate Made(s: State, call: Call, t: State) {
    t.frames == s.frames && Reaches(FirstStep(s, call), t) &&
    (!call.CallSet? && !call.CallInvoke? ==> t == FirstStep(s, call))
  }

  // The calls have been made, in their order.
  ghost predicate Played(s: State, calls: seq<Call>, t: State)
    decreases |calls|
  {
    if calls == [] then t == s else exists m :: Made(s, calls[0], m) && Played(m, calls[1..], t)
  }

  // A callback entered in state e has run its script, and is about to leave in state u.
  ghost predicate CalledBack(e: State, u: State, script: Script) {
    Inv(u) && Reaches(e, u) && Played(e, script.calls, u) && u.frames == e.frames && Grew(e, u, Declares(script)) &&
    u.frames != [] && Top(u).User?
  }

  lemma CallRevertFrames(s: State, n: string, e: Entering)
    requires n in s.store
    ensures var t := CallRevert(s, n, e);
            t.store == s.store && |t.frames| == |s.frames| + 1 && t.frames[..|s.frames|] == s.frames &&
            RanWith(t, RevertOf(n), [ValueAt(s, RecordOf(n))])
  {
    hide Enter;
    var v := ValueAt(s, RecordOf(n));
    EnterFrames(Log(Touch(s, RefAt(s, RecordOf(n))), RevertCalled(n, v)), RevertOf(n), [v], e);
  }

  // With no revert, a toggle only drops the new value.
  lemma NoRevertBegins(s: State, n: string, queuedBy: Option<Edge>, e: Entering)
    requires n in s.store
    ensures RefAt(s, RevertOf(n)) == NO_REF ==>
              BeginToggle(s, n, queuedBy, e) == Unref(s, Local(0)) &&
              Unref(s, Local(0)).frames == s.frames && Unref(s, Local(0)).store == s.store
  {
    hide Enter, Move;
  }

  // ---- The boundary ----------------------------------------------------------

  predicate InDeclareOrder(store: map<string, Behavior>, names: seq<string>) {
    && (forall n :: n in names ==> n in store)
    && (forall i, j :: 0 <= i < j < |names| ==> store[names[i]].declareSeq < store[names[j]].declareSeq)
  }

  lemma InsertedAmong(n: string, names: seq<string>, i: nat)
    requires i <= |names|
    ensures forall m :: m in names[..i] + [n] + names[i..] <==> m == n || m in names
  {
    assert names == names[..i] + names[i..];
  }

  lemma InsertedAt(n: string, names: seq<string>, i: nat, j: nat)
    requires i <= |names| && j < |names| + 1
    ensures (names[..i] + [n] + names[i..])[j] == if j < i then names[j] else if j == i then n else names[j - 1]
  {}

  lemma InsertedInOrder(store: map<string, Behavior>, n: string, names: seq<string>, i: nat)
    requires InDeclareOrder(store, names) && n in store && i <= |names|
    requires forall j :: 0 <= j < i ==> store[names[j]].declareSeq < store[n].declareSeq
    requires i < |names| ==> store[n].declareSeq < store[names[i]].declareSeq
    ensures var r := names[..i] + [n] + names[i..]; InDeclareOrder(store, r) && forall m :: m in r <==>
              m == n || m in names
  {
    var r := names[..i] + [n] + names[i..];
    InsertedAmong(n, names, i);
    forall j, k | 0 <= j < k < |r| ensures store[r[j]].declareSeq < store[r[k]].declareSeq {
      InsertedAt(n, names, i, j);
      InsertedAt(n, names, i, k);
    }
  }

  // What the implementations do: the k-th invocation of the drain runs the k-th script.  From `last` on
  // none of them declares.
  ghost predicate Settles(scripts: nat -> Script, last: nat) {
    forall k :: k >= last ==> Declares(scripts(k)) == 0
  }

  // The declares to come from the k-th invocation on.
  ghost function DeclaresFrom(scripts: nat -> Script, k: nat, last: nat): nat
    decreases last - k
  {
    if k >= last then 0 else Declares(scripts(k)) + DeclaresFrom(scripts, k + 1, last)
  }

  // What bounds the drain: the declares to come and the behaviors not invoked yet.
  ghost function DrainMeasure(s: State, invoked: set<string>, scripts: nat -> Script, k: nat, last: nat): nat {
    DeclaresFrom(scripts, k, last) + |s.store.Keys - invoked|
  }

  lemma MeasureFalls(s: State, t: State, invoked: set<string>, n: string, scripts: nat -> Script, k: nat, last: nat)
    requires n in s.store && n !in invoked && invoked <= s.store.Keys && Grew(s, t, Declares(scripts(k)))
    requires Settles(scripts, last)
    ensures DrainMeasure(t, invoked + {n}, scripts, k + 1, last) < DrainMeasure(s, invoked, scripts, k, last)
  {
    assert s.store.Keys == (s.store.Keys - invoked) + invoked;
    assert t.store.Keys == (t.store.Keys - (invoked + {n})) + (invoked + {n});
  }

  lemma ReturnToDrain(u: State, raised: bool, e: Entering)
    requires Inv(u) && |u.frames| == 3 && Top(u).User? && u.frames[1].Drain? && u.frames[1].calling.Some?
    ensures var t := Leave(u, raised);
            Core(t) && t.frames == u.frames[..2] && t.store == u.store && u.frames[1].calling.value in t.store &&
            DoReturn(u, raised, e) == ResumeDrain(t, raised)
  {
    hide Core, Advances, ResumeDrain, Leave, RefAt;
    LeaveKeeps(u, raised);
    LeaveStore(u, raised);
    CallingKnown(Leave(u, raised));
  }

  // Entering the next implementation of a pass.
  lemma DrainCalls1(s: State, e: Entering)
    requires Inv(s) && Top(s).Drain? && Top(s).pass != []
    ensures Top(s).pass[0] in s.store && Pending(s, Top(s).pass[0]) && s.frames == [Main, Top(s)] &&
            Top(s).pass[0] !in Top(s).invoked
    ensures var n := Top(s).pass[0]; var t := Enter(Invoked(s), ImplOf(n), [ValueAt(s, RecordOf(n))], e);
            t == DoDrainNext(s, e) && Inv(t) && Reaches(s, t) && Ledger(Invoked(s)) && t.store.Keys == s.store.Keys &&
            |t.frames| == 3 && Top(t).User? && t.frames[..2] == Invoked(s).frames &&
            t.frames[1] == Drain(Top(s).invoked + {n}, Top(s).pass[1..], Some(n), ValueAt(s, RecordOf(n)),
                                 Top(s).passNo)
  {
    hide Core, Reaches, DoDrainNext, Enter, RefAt, ValueAt, Pending;
    DrainAtBottom(s);
    HeadPending(s);
    PassFresh(s);
    StepKeeps(s, DrainNext(e));
    ReachesRefl(s);
    ReachesStep(s, s, DrainNext(e));
    DrainNextEnters(s, e);
    InvokedLedger(s);
    EnterFrames(Invoked(s), ImplOf(Top(s).pass[0]), [ValueAt(s, RecordOf(Top(s).pass[0]))], e);
  }

  lemma InvokedLedger(s: State)
    requires Core(s) && s.frames != [] && Top(s).Drain? && Top(s).pass != [] && Top(s).pass[0] in s.store
    ensures Ledger(Invoked(s)) && Invoked(s).store.Keys == s.store.Keys
  {
    hide Ledger, Placed, Stack, Truth, Fresh, History, ValueAt;
    SameCellsKeepsLedger(s, Invoked(s));
  }

  lemma PassFresh(s: State)
    requires Core(s) && s.frames != [] && Top(s).Drain? && Top(s).pass != []
    ensures Top(s).pass[0] !in Top(s).invoked
  {
    hide Ledger, Placed, Fresh, Truth, History, Pending;
    DrainAtBottom(s);
    assert Top(s).pass[0] in Top(s).pass;
  }

  lemma OneStep(s: State, t: State, e: Event)
    requires Inv(t) && Reaches(s, t)
    ensures Inv(Step(t, e)) && Reaches(s, Step(t, e))
  {
    hide Inv, Reaches, Step;
    StepKeeps(t, e);
    ReachesStep(s, t, e);
  }

  lemma DrainFrame(s: State)
    requires Inv(s) && |s.frames| == 2 && s.frames[1].Drain?
    ensures s.frames[1].invoked <= s.store.Keys && Top(s) == s.frames[1] && !s.boundaryDone && s.frames[0] == Main
    ensures forall n, m :: n in s.store && m in s.store && s.store[n].declareSeq == s.store[m].declareSeq ==> n == m
  {
    hide Ledger, Truth, Fresh, History, Pending;
    DrainAtBottom(s);
  }

  // When a snapshot comes out empty the drain is done.
  lemma EmptyPass(s: State)
    requires s.frames != [] && Top(s).Drain? && Top(s).pass == [] && IsPass(s, Top(s).invoked, [])
    ensures Drained(s)
  {
    hide Pending;
    forall n | Pending(s, n) ensures n in Top(s).invoked {
      assert n !in [];
    }
  }

  // The sweep clears one record and nothing else.
  lemma SweptOne(s: State, n: string)
    requires Inv(s) && Drained(s) && Pending(s, n)
    ensures var t := ClearRecord(s, n);
            t == Step(s, SweepOne(n)) && t.frames == s.frames && t.store.Keys == s.store.Keys && Drained(t) &&
            !Pending(t, n) &&
            Ledger(s) && forall m :: Pending(t, m) ==> Pending(s, m)
  {
    hide Placed, Stack, Truth, Fresh, History, ClearRecord, Ledger, RefAt, ValueAt;
    ClearRecordCells(s, n);
    var t := ClearRecord(s, n);
    forall m | Pending(t, m) ensures Pending(s, m) {
      assert m != n && RecordOf(m) != RecordOf(n);
    }
  }

  // Once the boundary is done, recorded and applied are the same thing.
  lemma RecordedIffApplied(s: State)
    requires Inv(s) && s.boundaryDone
    ensures forall n :: n in s.store ==> (s.store[n].applied <==> RefAt(s, RecordOf(n)) != NO_REF)
  {
    hide Ledger, Placed, Stack, Fresh, History;
    forall n | n in s.store ensures s.store[n].applied <==> RefAt(s, RecordOf(n)) != NO_REF {
      assert TruthOf(s, n);
    }
  }

  lemma BoundaryStarts(s: State)
    requires !s.boundaryDone && s.frames == [Main]
    ensures Step(s, StartBoundary) == s.(frames := [Main, Drain({}, [], None, Nil, 0)])
  {}

  lemma SnapshotTaken(s: State, pass: seq<string>)
    requires |s.frames| == 2 && s.frames[0] == Main && s.frames[1].Drain? && s.frames[1].pass == [] && pass != []
    requires IsPass(s, s.frames[1].invoked, pass)
    ensures Step(s, Snapshot(pass)) == s.(frames := [Main,
                                                     s.frames[1].(pass := pass, passNo := s.frames[1].passNo + 1)])
  {
    hide IsPass;
  }

  lemma BoundaryFinishes(s: State)
    requires Drained(s) && forall n :: !Pending(s, n)
    ensures Step(s, FinishBoundary) == s.(frames := s.frames[..|s.frames| - 1], boundaryDone := true)
  {
    hide Pending;
  }

  lemma SameMeasure(s: State, t: State, invoked: set<string>, scripts: nat -> Script, k: nat, last: nat)
    requires s.store == t.store
    ensures DrainMeasure(s, invoked, scripts, k, last) == DrainMeasure(t, invoked, scripts, k, last)
  {}

  lemma QueuedStep(s: State, built: bool, hint: int, e: Entering)
    requires Inv(s)
    ensures Inv(DoRunQueued(s, built, hint, e)) && Reaches(s, DoRunQueued(s, built, hint, e))
  {
    hide Inv, Reaches, DoRunQueued;
    ReachesRefl(s);
    OneStep(s, s, RunQueued(built, hint, e));
  }

  lemma QueuedToggle(s: State, hint: int, v: Value)
    requires Inv(s)
    ensures var t := Ref(s, hint, v, Local(0));
            Core(t) && RefAt(t, Local(0)) != NO_REF && (forall k :: k != 0 ==> RefAt(t, Local(k)) == NO_REF) &&
            t.frames == s.frames && t.store == s.store && t.boundaryDone == s.boundaryDone &&
            ValueAt(t, Local(0)) == v && forall n :: RefAt(t, RevertOf(n)) == RefAt(s, RevertOf(n))
  {
    hide Ledger, Placed, Stack, Truth, Fresh, History, Ref, RefAt, ValueAt;
    LocalRefKeeps(s, hint, v);
    RefKeepsLedger(s, hint, v, Local(0));
  }

  lemma QueuedParts(s: State, built: bool, hint: int)
    requires s.frames == [Main] && s.queue != []
    ensures forall e :: DoRunQueued(s, built, hint, e) ==
              var q := s.queue[0]; var s1 := s.(queue := s.queue[1..]);
              if q.name !in s.store || !built then s1
              else BeginToggle(Ref(s1, hint, q.payload, Local(0)), q.name, Some(Edge(q.author, q.plugin, q.name)), e)
  {
    hide BeginToggle, Ref;
  }
}
