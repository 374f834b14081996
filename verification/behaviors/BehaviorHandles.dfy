/**
 Value handles over whole runs: a handle from get() stays what it was, and reading it later
 answers either "stale" or the very value the behavior had when the handle was minted.
 */
module BehaviorHandles {
  import opened Options
  import opened RefLedger
  import opened BehaviorSteps
  import opened BehaviorInvariant
  import opened BehaviorPreservation
  import opened BehaviorRuns
  import opened BehaviorTheorems

  predicate NewTransient(s: State, t: State, h: nat) {
    s.nextHandle <= h < t.nextHandle && (h in t.handles ==> t.handles[h].BuiltHandle?)
  }

  // Behavior handles stay, no id changes its kind, and a callback entered since owns a new id.
  ghost predicate HandlesGo(s: State, t: State) {
    && s.nextHandle <= t.nextHandle
    && (forall h :: h in s.handles && s.handles[h].BehaviorHandle? ==> h in t.handles && t.handles[h] == s.handles[h])
    && (forall h :: h in t.handles && h < s.nextHandle ==>
          h in s.handles && (t.handles[h].BuiltHandle? <==> s.handles[h].BuiltHandle?))
    && (forall i :: 0 <= i < |t.frames| && t.frames[i].User? && t.frames[i].transient.Some? ==>
          (i < |s.frames| && s.frames[i] == t.frames[i]) || NewTransient(s, t, t.frames[i].transient.value))
  }

  ghost predicate Transients(s: State) {
    && (forall h :: h in s.handles ==> h < s.nextHandle)
    && forall i :: 0 <= i < |s.frames| && s.frames[i].User? && s.frames[i].transient.Some? ==>
         var h := s.frames[i].transient.value;
         h < s.nextHandle && (h in s.handles ==> s.handles[h].BuiltHandle?)
  }

  lemma HandlesGoTransitive(s: State, t: State, u: State)
    requires HandlesGo(s, t) && HandlesGo(t, u)
    ensures HandlesGo(s, u)
  {}

  lemma TransientsGo(s: State, t: State)
    requires Transients(s) && HandlesGo(s, t) && forall h :: h in t.handles ==> h < t.nextHandle
    ensures Transients(t)
  {}

  // No handle is touched, and no callback is entered.
  predicate Plain(s: State, t: State) {
    && t.handles == s.handles && t.nextHandle == s.nextHandle
    && forall i :: 0 <= i < |t.frames| && t.frames[i].User? ==> i < |s.frames| && s.frames[i] == t.frames[i]
  }

  lemma PlainGoes(s: State, t: State)
    requires Transients(s) && Plain(s, t)
    ensures HandlesGo(s, t)
  {}

  lemma MintBuiltGoes(s: State, hint: int, v: Value)
    requires Transients(s)
    ensures var t := MintBuilt(s, hint, v);
            HandlesGo(s, t) && t.frames == s.frames && t.nextHandle == s.nextHandle + 1 &&
            t.handles == s.handles[s.nextHandle := BuiltHandle(false)]
  {
    hide Ref;
    var h := s.nextHandle;
  }

  lemma PinGoes(s: State, h: nat, hint: int)
    requires Transients(s) && BuiltValue(s, h)
    ensures HandlesGo(s, Pin(s, h, hint)) && Pin(s, h, hint).frames == s.frames
  {
    hide Ref, Unref;
    var v := ValueAt(s, HandleOf(h));
  }

  // A frame more, for a callback whose transient handle is new.
  lemma PushGoes(s: State, t: State, f: Frame)
    requires HandlesGo(s, t) && t.frames == s.frames
    requires f.User? && (f.transient.Some? ==> NewTransient(s, t, f.transient.value))
    ensures HandlesGo(s, Push(t, f))
  {
    var u := Push(t, f);
    forall i | 0 <= i < |u.frames| && u.frames[i].User? && u.frames[i].transient.Some?
      ensures (i < |s.frames| && s.frames[i] == u.frames[i]) || NewTransient(s, u, u.frames[i].transient.value)
    {
      if i < |t.frames| { assert u.frames[i] == t.frames[i]; }
    }
  }

  lemma EnterGoes(s: State, fn: Cell, args: seq<Value>, entering: Entering)
    requires Transients(s)
    ensures HandlesGo(s, Enter(s, fn, args, entering))
  {
    hide MintBuilt, HandlesGo;
    var s1 := Touch(s, RefAt(s, fn));
    PlainGoes(s, s1);
    TransientsGo(s, s1);
    MintBuiltGoes(s1, entering.hint, FirstOf(args));
    if entering.callee.CFunction? {
      HandlesGoTransitive(s, s1, MintBuilt(s1, entering.hint, FirstOf(args)));
      PushGoes(s, MintBuilt(s1, entering.hint, FirstOf(args)), User(Some(s1.nextHandle), fn, args));
    } else {
      PushGoes(s, s1, User(None, fn, args));
    }
  }

  lemma LeaveGoes(s: State, raised: bool)
    requires Transients(s) && s.frames != [] && Top(s).User?
    ensures HandlesGo(s, Leave(s, raised))
  {
    hide HandlesGo, ReleaseTransient;
    PlainGoes(s, Pop(s));
    TransientsGo(s, Pop(s));
    if Top(s).transient.Some? {
      var h := Top(s).transient.value;
      TopTransient(s);
      ReleaseGoes(Pop(s), h);
      HandlesGoTransitive(s, Pop(s), ReleaseTransient(Pop(s), h));
    }
  }

  lemma TopTransient(s: State)
    requires Transients(s) && s.frames != [] && Top(s).User? && Top(s).transient.Some?
    ensures Top(s).transient.value in s.handles ==> s.handles[Top(s).transient.value].BuiltHandle?
  {}

  lemma ReleaseGoes(s: State, h: nat)
    requires Transients(s) && (h in s.handles ==> s.handles[h].BuiltHandle?)
    ensures HandlesGo(s, ReleaseTransient(s, h))
  {
    hide Unref;
  }

  lemma RecordGoes(s: State, n: string, author: string, plugin: string)
    requires n in s.store
    ensures Plain(s, RecordLoadSet(s, n, author, plugin)) && Plain(s, ClearRecord(s, n))
    ensures RecordLoadSet(s, n, author, plugin).frames == s.frames && ClearRecord(s, n).frames == s.frames
  {
    hide Unref, Move;
  }

  lemma CallGoes(s: State, entering: Entering)
    requires Transients(s) && s.frames != [] && Top(s).Toggle?
    ensures HandlesGo(s, CallImplementation(s, entering))
    ensures Top(s).name in s.store ==> HandlesGo(s, CallRevert(s, Top(s).name, entering))
  {
    hide Enter, Touch, ValueAt;
    var n := Top(s).name;
    var v := ValueAt(s, FrameOf(|s.frames| - 1));
    var s1 := Log(SetTop(s, Toggle(n, Implementing(v), Top(s).queuedBy)), ImplCalled(n, v));
    PlainGoes(s, s1);
    TransientsGo(s, s1);
    EnterGoes(s1, ImplOf(n), [v], entering);
    HandlesGoTransitive(s, s1, CallImplementation(s, entering));
    if n in s.store {
      TouchPlain(s, RefAt(s, RecordOf(n)));
      var s2 := Log(Touch(s, RefAt(s, RecordOf(n))), RevertCalled(n, ValueAt(s, RecordOf(n))));
      PlainGoes(s, s2);
      TransientsGo(s, s2);
      EnterGoes(s2, RevertOf(n), [ValueAt(s, RecordOf(n))], entering);
      HandlesGoTransitive(s, s2, CallRevert(s, n, entering));
    }
  }

  lemma TouchPlain(s: State, r: int)
    ensures Touch(s, r) == s || Touch(s, r) == s.(fault := true)
  {}

  lemma BeginToggleGoes(s: State, n: string, queuedBy: Option<Edge>, entering: Entering)
    requires Transients(s) && n in s.store
    ensures HandlesGo(s, BeginToggle(s, n, queuedBy, entering))
  {
    hide Unref, Move, CallRevert, CallImplementation, HandlesGo;
    var s0 := Push(s, Toggle(n, Reverting(ValueAt(s, Local(0))), queuedBy));
    var s1 := Move(s0, Local(0), FrameOf(|s.frames|));
    PlainGoes(s, Unref(s, Local(0)));
    PlainGoes(s, s1);
    TransientsGo(s, s1);
    CallGoes(s1, entering);
    HandlesGoTransitive(s, s1, CallImplementation(s1, entering));
    HandlesGoTransitive(s, s1, CallRevert(s1, n, entering));
  }

  lemma ResumeToggleGoes(s: State, raised: bool, entering: Entering)
    requires Transients(s) && s.frames != [] && Top(s).Toggle? && Top(s).name in s.store
    ensures HandlesGo(s, ResumeToggle(s, raised, entering))
  {
    hide DropToggle, ClearRecord, CommitToggle, CallImplementation, HandlesGo;
    var n := Top(s).name;
    CallGoes(s, entering);
    DropTogglePlain(s);
    PlainGoes(s, DropToggle(s));
    RecordGoes(DropToggle(s), n, "", "");
    PlainGoes(s, ClearRecord(DropToggle(s), n));
    if Top(s).stage.Implementing? {
      var s1 := Log(s, ImplReturned(n, Top(s).stage.value));
      CommitTogglePlain(s1);
      PlainGoes(s, CommitToggle(s1));
    }
  }

  lemma DropTogglePlain(s: State)
    requires s.frames != [] && Top(s).Toggle?
    ensures Plain(s, DropToggle(s)) && DropToggle(s).store == s.store
  {
    hide Unref;
  }

  lemma CommitTogglePlain(s: State)
    requires s.frames != [] && Top(s).Toggle? && Top(s).name in s.store
    ensures Plain(s, CommitToggle(s))
  {
    hide Unref, Move;
    var n := Top(s).name;
  }

  lemma DeclareGoes(s: State, n: string, tier: Tier, h: nat, hasRevert: bool, d: int, i: int, r: int)
    requires Transients(s)
    requires var t := DoDeclare(s, n, tier, h, hasRevert, d, i, r); forall k :: k in t.handles ==> k < t.nextHandle
    ensures HandlesGo(s, DoDeclare(s, n, tier, h, hasRevert, d, i, r))
  {
    hide Ref, Unref, Move, Pin, HandlesGo;
    if !s.boundaryDone && BuiltValue(s, h) {
      PinGoes(s, h, d);
      var s1 := Pin(s, h, d);
      var s2 := Trampolines(s1, hasRevert, i, r);
      DeclareTail(s2, n, tier);
      var t := DoDeclare(s, n, tier, h, hasRevert, d, i, r);
      assert t.handles == s1.handles && t.nextHandle == s1.nextHandle && t.frames == s1.frames;
      GoesThenSame(s, s1, t);
    } else {
      PlainGoes(s, s);
    }
  }

  lemma GoesThenSame(s: State, t: State, u: State)
    requires HandlesGo(s, t) && u.handles == t.handles && u.nextHandle == t.nextHandle && u.frames == t.frames
    ensures HandlesGo(s, u)
  {}

  lemma DeclareTail(s: State, n: string, tier: Tier)
    ensures var t := Unref(Unref(Unref(s, Local(0)), Local(1)), Local(2)); SameHandles(s, t) && t.frames == s.frames
    ensures var t := Adopt(s, n, tier); SameHandles(s, t) && t.frames == s.frames
  {
    hide Unref, Move;
    var s1 := WithBehavior(s, n, Behavior(tier, false, "", "", s.nextSeq + 1, 1)).(nextSeq := s.nextSeq + 1);
    var s2 := Move(s1, Local(0), DefaultOf(n));
  }

  lemma SetGoes(s: State, n: string, h: nat, author: string, plugin: string, earlyStop: bool, hint: int,
                entering: Entering)
    requires Transients(s) && Inv(s)
    ensures HandlesGo(s, DoSet(s, n, h, author, plugin, earlyStop, hint, entering))
  {
    hide Pin, BeginToggle, RecordLoadSet, HandlesGo, Inv, BuiltValue;
    if BuiltValue(s, h) && n in s.store && !(s.store[n].tier.Plugin? && earlyStop) {
      PinGoes(s, h, hint);
      var s1 := Pin(s, h, hint);
      PinStore(s, h, hint);
      TransientsGo(s, s1);
      BeginToggleGoes(s1, n, None, entering);
      HandlesGoTransitive(s, s1, BeginToggle(s1, n, None, entering));
      RecordGoes(s1, n, author, plugin);
      var s2 := RecordEdge(RecordLoadSet(s1, n, author, plugin), Edge(author, plugin, n));
      PlainGoes(s1, s2);
      HandlesGoTransitive(s, s1, s2);
    } else {
      PlainGoes(s, s);
    }
  }

  lemma PinStore(s: State, h: nat, hint: int)
    requires Inv(s) && BuiltValue(s, h)
    ensures Pin(s, h, hint).store == s.store && forall k :: k in Pin(s, h, hint).handles ==>
            k < Pin(s, h, hint).nextHandle
  {
    hide Stack, Truth, Fresh, History, Ref, Unref;
    var v := ValueAt(s, HandleOf(h));
  }

  lemma RunQueuedGoes(s: State, built: bool, hint: int, entering: Entering)
    requires Transients(s)
    ensures HandlesGo(s, DoRunQueued(s, built, hint, entering))
  {
    hide Ref, BeginToggle, HandlesGo;
    PlainGoes(s, s);
    if s.queue != [] && s.frames == [Main] {
      var q := s.queue[0];
      var s1 := s.(queue := s.queue[1..]);
      PlainGoes(s, s1);
      if q.name in s1.store && built {
        var s2 := Ref(s1, hint, q.payload, Local(0));
        PlainGoes(s, s2);
        var e := Some(Edge(q.author, q.plugin, q.name));
        BeginToggleGoes(s2, q.name, e, entering);
        HandlesGoTransitive(s, s2, BeginToggle(s2, q.name, e, entering));
      }
    }
  }

  lemma DrainNextGoes(s: State, entering: Entering)
    requires Transients(s) && Inv(s)
    ensures HandlesGo(s, DoDrainNext(s, entering))
  {
    hide Inv, Enter, HandlesGo, Invoked, Pending;
    PlainGoes(s, s);
    InvHasFrames(s);
    if Top(s).Drain? && Top(s).pass != [] {
      HeadPending(s);
      assert Core(s) by { hide *; InvIsCore(s); }
      DrainNextEnters(s, entering);
      InvokedPlain(s);
      var t := Invoked(s);
      PlainGoes(s, t);
      TransientsGo(s, t);
      EnterGoes(t, ImplOf(Top(s).pass[0]), [ValueAt(s, RecordOf(Top(s).pass[0]))], entering);
      HandlesGoTransitive(s, t, DoDrainNext(s, entering));
    }
  }

  lemma InvIsCore(s: State)
    requires Inv(s)
    ensures Core(s)
  {}

  lemma InvHasFrames(s: State)
    requires Inv(s)
    ensures s.frames != [] && forall h :: h in s.handles ==> h < s.nextHandle
  {}

  lemma InvokedPlain(s: State)
    requires s.frames != [] && Top(s).Drain? && Top(s).pass != [] && Top(s).pass[0] in s.store
    ensures Plain(s, Invoked(s))
  {}

  lemma ReturnGoes(s: State, raised: bool, entering: Entering)
    requires Transients(s) && Inv(s)
    ensures HandlesGo(s, DoReturn(s, raised, entering))
  {
    hide Inv, Leave, ResumeDrain, ResumeToggle, HandlesGo;
    PlainGoes(s, s);
    InvHasFrames(s);
    if Top(s).User? {
      var s1 := Leave(s, raised);
      LeaveGoes(s, raised);
      LeaveBounds(s, raised);
      TransientsGo(s, s1);
      if s1.frames != [] {
        match Top(s1) {
          case Drain(_, _, _, _, _) =>
            ResumeDrainPlain(s1, raised);
            PlainGoes(s1, ResumeDrain(s1, raised));
            HandlesGoTransitive(s, s1, ResumeDrain(s1, raised));
          case Toggle(n, _, _) =>
            if n in s1.store {
              ResumeToggleGoes(s1, raised, entering);
              HandlesGoTransitive(s, s1, ResumeToggle(s1, raised, entering));
            }
          case Calling =>
            PlainGoes(s1, Pop(s1));
            HandlesGoTransitive(s, s1, Pop(s1));
          case Main =>
          case User(_, _, _) =>
        }
      }
    }
  }

  lemma LeaveBounds(s: State, raised: bool)
    requires Inv(s) && Top(s).User?
    ensures forall h :: h in Leave(s, raised).handles ==> h < Leave(s, raised).nextHandle
  {
    hide Stack, Truth, Fresh, History, Leave, AtRest, Ledger;
    assert Inv(s);
    LeaveKeeps(s, raised);
  }

  lemma ResumeDrainPlain(s: State, raised: bool)
    requires s.frames != [] && Top(s).Drain?
    ensures Plain(s, ResumeDrain(s, raised))
  {
    hide ClearRecord;
    if Top(s).calling.Some? && Top(s).calling.value in s.store {
      RecordGoes(s, Top(s).calling.value, "", "");
    }
  }

  lemma ConsumeGoes(s: State, h: nat)
    requires Transients(s)
    ensures HandlesGo(s, DoConsumeChild(s, h))
  {
    hide Unref;
  }

  lemma GetGoes(s: State, n: string)
    requires Transients(s)
    ensures HandlesGo(s, DoGet(s, n))
  {
    hide CurrentValue;
  }

  lemma StageGoes(s: State, v: Value)
    requires Transients(s)
    ensures HandlesGo(s, DoStage(s, v))
  {}

  lemma QueueSetGoes(s: State, n: string, h: nat, author: string, plugin: string)
    requires Transients(s)
    ensures HandlesGo(s, DoQueueSet(s, n, h, author, plugin))
  {}

  lemma InvokeGoes(s: State, h: nat, args: seq<nat>, entering: Entering)
    requires Transients(s)
    ensures HandlesGo(s, DoInvoke(s, h, args, entering))
  {
    hide HandlesGo, Enter, Callable, ReadCell, Arguments;
    PlainGoes(s, s);
    var s1 := Push(s, Calling);
    PlainGoes(s, s1);
    TransientsGo(s, s1);
    EnterGoes(s1, ReadCell(s, h), Arguments(s, args), entering);
    HandlesGoTransitive(s, s1, Enter(s1, ReadCell(s, h), Arguments(s, args), entering));
  }

  lemma BoundaryPlain(s: State, n: string, pass: seq<string>)
    ensures Plain(s, DoStartBoundary(s)) && Plain(s, DoSnapshot(s, pass)) && Plain(s, DoFinishBoundary(s))
  {
    hide IsPass, Pending;
  }

  lemma SweepPlain(s: State, n: string)
    ensures Plain(s, DoSweepOne(s, n))
  {
    hide ClearRecord, Pending;
    PendingKnown(s, n);
    if n in s.store { RecordGoes(s, n, "", ""); }
  }

  lemma BoundaryGoes(s: State, n: string, pass: seq<string>)
    requires Transients(s)
    ensures HandlesGo(s, DoStartBoundary(s)) && HandlesGo(s, DoSnapshot(s, pass)) && HandlesGo(s, DoFinishBoundary(s))
    ensures HandlesGo(s, DoSweepOne(s, n))
  {
    hide *;
    BoundaryPlain(s, n, pass);
    SweepPlain(s, n);
    PlainGoes(s, DoStartBoundary(s));
    PlainGoes(s, DoSnapshot(s, pass));
    PlainGoes(s, DoFinishBoundary(s));
    PlainGoes(s, DoSweepOne(s, n));
  }

  lemma PendingKnown(s: State, n: string)
    ensures Pending(s, n) ==> n in s.store
  {}

  // One step leaves every behavior handle as it was.
  lemma StepGoes(s: State, e: Event)
    requires Transients(s) && Inv(s)
    ensures HandlesGo(s, Step(s, e)) && Transients(Step(s, e))
  {
    hide Inv, HandlesGo, Transients, MintBuilt, DoConsumeChild, DoGet, DoDeclare, DoSet, DoInvoke, DoReturn, DoStage,
      DoQueueSet, DoRunQueued, DoStartBoundary, DoSnapshot, DoDrainNext, DoSweepOne, DoFinishBoundary;
    PlainGoes(s, s);
    StepKeeps(s, e);
    InvHasFrames(Step(s, e));
    match e {
      case Build(v, hint) => MintBuiltGoes(s, hint, v);
      case ConsumeChild(h) => ConsumeGoes(s, h);
      case Get(n) => GetGoes(s, n);
      case Declare(n, tier, h, hasRevert, d, i, r) =>
        if UserOnTop(s) {
          InvHasFrames(DoDeclare(s, n, tier, h, hasRevert, d, i, r));
          DeclareGoes(s, n, tier, h, hasRevert, d, i, r);
        }
      case Set(n, h, author, plugin, earlyStop, hint, entering) =>
        SetGoes(s, n, h, author, plugin, earlyStop, hint, entering);
      case Invoke(h, args, entering) => InvokeGoes(s, h, args, entering);
      case Return(raised, entering) => ReturnGoes(s, raised, entering);
      case Stage(v) => StageGoes(s, v);
      case QueueSet(n, h, author, plugin) => QueueSetGoes(s, n, h, author, plugin);
      case RunQueued(built, hint, entering) => RunQueuedGoes(s, built, hint, entering);
      case StartBoundary => BoundaryGoes(s, "", []);
      case Snapshot(pass) => BoundaryGoes(s, "", pass);
      case DrainNext(entering) => DrainNextGoes(s, entering);
      case SweepOne(n) => BoundaryGoes(s, n, []);
      case FinishBoundary => BoundaryGoes(s, "", []);
    }
    TransientsGo(s, Step(s, e));
  }

  lemma {:induction false} RunGoes(s: State, events: seq<Event>)
    requires Transients(s) && Inv(s)
    ensures HandlesGo(s, Run(s, events)) && Transients(Run(s, events))
    decreases |events|
  {
    hide Inv, HandlesGo, Transients, Step;
    if events == [] {
      PlainGoes(s, s);
    } else {
      StepGoes(s, events[0]);
      StepKeeps(s, events[0]);
      RunGoes(Step(s, events[0]), events[1..]);
      HandlesGoTransitive(s, Step(s, events[0]), Run(s, events));
    }
  }

  lemma InitTransients()
    ensures Transients(Init())
  {}

  // A handle minted by get() on a declared behavior, read at any later point of any run, is
  // stale or reads the value the behavior had when the handle was minted; it is stale exactly
  // when the generation has moved on, and reading it never touches a freed slot.
  lemma HandleFreshness(before: seq<Event>, n: string, after: seq<Event>)
    requires UserOnTop(Reached(before)) && n in Reached(before).store
    ensures var s := Reached(before);
            var t := Reached(before + [Get(n)] + after);
            var h := s.nextHandle;
            (Read(t, h) == Stale || Read(t, h) == Ok(CurrentValue(s, n))) &&
            (Read(t, h) == Stale <==> n in t.store && t.store[n].valueGeneration != s.store[n].valueGeneration) &&
            Touch(t, RefAt(t, CurrentCell(t, n))) == t
  {
    hide Inv, HandlesGo, Transients, Run, Ledger, Placed, Stack, Truth, History, RefAt;
    var s := Reached(before);
    ReachedInv(before);
    RunAppend(Init(), before, [Get(n)]);
    assert Run(s, [Get(n)]) == Step(s, Get(n)) by { hide *; RunOne(s, Get(n)); }
    var u := Step(s, Get(n));
    var t := Run(u, after);
    RunAppend(Init(), before + [Get(n)], after);
    InitTransients();
    InitInv();
    RunGoes(Init(), before);
    StepKeeps(s, Get(n));
    StepGoes(s, Get(n));
    RunGoes(u, after);
    RunKeeps(u, after);
    Minted(s, n);
    KeptHandle(u, t, s.nextHandle);
    ReadKept(t, s.nextHandle);
    TouchCurrent(t, n);
  }

  lemma RunOne(s: State, e: Event)
    ensures Run(s, [e]) == Step(s, e)
  {
    hide Step;
    assert Run(s, [e]) == Run(Step(s, e), [e][1..]);
  }

  lemma Minted(s: State, n: string)
    requires UserOnTop(s) && n in s.store
    ensures var u := Step(s, Get(n));
            s.nextHandle in u.handles &&
            u.handles[s.nextHandle] == BehaviorHandle(n, s.store[n].valueGeneration, CurrentValue(s, n))
  {}

  lemma KeptHandle(u: State, t: State, h: nat)
    requires HandlesGo(u, t) && h in u.handles && u.handles[h].BehaviorHandle?
    ensures h in t.handles && t.handles[h] == u.handles[h]
  {}

  lemma ReadKept(t: State, h: nat)
    requires Inv(t) && h in t.handles && t.handles[h].BehaviorHandle?
    ensures Read(t, h) == Stale || Read(t, h) == Ok(t.handles[h].mintedValue)
    ensures var n := t.handles[h].fullName;
            n in t.store && (Read(t, h) == Stale <==> t.store[n].valueGeneration != t.handles[h].mintedGeneration)
  {
    hide Ledger, Placed, Stack, Truth, History, RefAt, ValueAt;
    assert HandleOk(t, h);
  }

  lemma TouchCurrent(t: State, n: string)
    requires Inv(t)
    ensures Touch(t, RefAt(t, CurrentCell(t, n))) == t
  {
    hide Placed, Stack, Truth, History, Fresh, Ledger;
    TouchHeld(t, CurrentCell(t, n));
  }
}
