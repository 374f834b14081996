/**
 What callbacks are called with.  Which call a step owes is told from the state before it, by what
 its handles, the record and the toggle on the stack read; the step makes that call and no other, the
 function gets exactly these arguments, and the history records exactly it.
 */
module BehaviorCalls {
  import opened Options
  import opened RefLedger
  import opened BehaviorSteps
  import opened BehaviorEffects
  import opened BehaviorInvariant
  import opened BehaviorPreservation
  import opened BehaviorRuns
  import opened BehaviorTheorems
  import opened BehaviorScripts
  import opened BehaviorDispositions
  import opened BehaviorNil
  import opened BehaviorEdges
  import opened BehaviorReverts

  // A call into user code.
  datatype Callback =
    | Implementation(name: string, value: Value)
    | Revert(name: string, value: Value)
    | Function(called: Value, args: seq<Value>)

  // What a toggle of n to v calls first: revert, if there is something to undo.
  ghost function Opening(s: State, n: string, v: Value): Option<Callback> {
    if n !in s.store || RefAt(s, RevertOf(n)) == NO_REF then None
    else if s.store[n].applied then Some(Revert(n, CurrentValue(s, n)))
    else Some(Implementation(n, v))
  }

  ghost predicate CanCall(e: Event) {
    e.Set? || e.RunQueued? || e.Return? || e.DrainNext? || e.Invoke?
  }

  // The call a step owes.
  ghost function Due(s: State, e: Event): (r: Option<Callback>)
    ensures r.Some? ==> CanCall(e)
  {
    match e
    case Set(n, h, _, _, earlyStop, _, _) =>
      if UserOnTop(s) && BuiltValue(s, h) && n in s.store && !(s.store[n].tier.Plugin? && earlyStop) &&
         (s.boundaryDone || s.store[n].applied) && Read(s, h).Ok?
      then Opening(s, n, Read(s, h).value) else None
    case RunQueued(built, _, _) =>
      if s.frames == [Main] && s.queue != [] && built then Opening(s, s.queue[0].name, s.queue[0].payload) else None
    case Return(raised, _) =>
      if !raised && |s.frames| > 1 && Top(s).User? then
        match s.frames[|s.frames| - 2]
        case Toggle(n, Reverting(v), _) => Some(Implementation(n, v))
        case _ => None
      else None
    case DrainNext(_) =>
      if s.frames != [] && Top(s).Drain? && Top(s).pass != []
      then Some(Implementation(Top(s).pass[0], CurrentValue(s, Top(s).pass[0]))) else None
    case Invoke(h, args, _) =>
      if UserOnTop(s) && Callable(s, h, args)
      then Some(Function(Read(s, h).value, seq(|args|, k requires 0 <= k < |args| => Read(s, args[k]).value)))
      else None
    case _ => None
  }

  // User code has just been entered with these arguments: its frame is on top, and a C function got
  // a handle of its own that reads the first of them.
  ghost predicate Entered(s: State, t: State, args: seq<Value>, e: Entering) {
    && t.frames != [] && Top(t).User? && Top(t).args == args
    && (Top(t).transient.Some? <==> e.callee.CFunction?)
    && (Top(t).transient.Some? ==>
          Top(t).transient.value !in s.handles &&
          Read(t, Top(t).transient.value) == Ok(if args == [] then Nil else args[0]))
  }

  // The call has been made.
  ghost predicate Handed(s: State, t: State, c: Callback, e: Entering) {
    match c
    case Implementation(n, v) =>
      Entered(s, t, [v], e) && Top(t).fn == ImplOf(n) && ValueAt(t, ImplOf(n)) == IMPL_TRAMPOLINE
    case Revert(n, v) =>
      Entered(s, t, [v], e) && Top(t).fn == RevertOf(n) && ValueAt(t, RevertOf(n)) == REVERT_TRAMPOLINE
    case Function(f, args) => Entered(s, t, args, e) && ValueAt(t, Top(t).fn) == f
  }

  // How the history records a call.
  function EntryFor(c: Option<Callback>): Option<Entry> {
    match c
    case Some(Implementation(n, v)) => Some(ImplCalled(n, v))
    case Some(Revert(n, v)) => Some(RevertCalled(n, v))
    case _ => None
  }

  // The history grows by x at its end, and by no other call of an implementation or a revert.
  ghost predicate Heard(l: seq<Entry>, m: seq<Entry>, x: Option<Entry>) {
    && l <= m && |l| + (if x.Some? then 1 else 0) <= |m|
    && (forall i :: |l| <= i < |m| && (m[i].ImplCalled? || m[i].RevertCalled?) ==> i == |m| - 1 && x == Some(m[i]))
    && (x.Some? ==> m[|m| - 1] == x.value)
  }

  // Below frame k, user code is where it was, under the caller it had.
  ghost predicate UsersStand(s: State, t: State, k: nat) {
    forall i :: 0 < i < k && i < |t.frames| && t.frames[i].User? ==>
      i < |s.frames| && t.frames[i] == s.frames[i] && t.frames[i - 1] == s.frames[i - 1]
  }

  // What user code was called with is what the engine frame below it says.
  predicate Fits(below: Frame, user: Frame)
    requires user.User?
  {
    match below
    case Toggle(n, Reverting(_), _) => user.fn == RevertOf(n) && |user.args| == 1
    case Toggle(n, Implementing(v), _) => user.fn == ImplOf(n) && user.args == [v]
    case Drain(_, _, Some(n), v, _) => user.fn == ImplOf(n) && user.args == [v]
    case _ => true
  }

  ghost predicate Matched(s: State) {
    forall i :: 0 < i < |s.frames| && s.frames[i].User? ==> Fits(s.frames[i - 1], s.frames[i])
  }

  // A declared behavior holds its implementation, and its revert if it has one.
  ghost predicate Wired(s: State) {
    forall n :: n in s.store ==>
      ValueAt(s, ImplOf(n)) == IMPL_TRAMPOLINE &&
      (RefAt(s, RevertOf(n)) != NO_REF ==> ValueAt(s, RevertOf(n)) == REVERT_TRAMPOLINE)
  }

  // The step makes the call it owes, and no other.
  ghost predicate Calls(s: State, t: State, c: Option<Callback>, e: Event) {
    && Heard(s.log, t.log, EntryFor(c))
    && if c.Some? then
         CanCall(e) && Handed(s, t, c.value, e.entering) && |t.frames| > 1 &&
         Fits(t.frames[|t.frames| - 2], Top(t)) && UsersStand(s, t, |t.frames| - 1)
       else UsersStand(s, t, |t.frames|)
  }

  // ---- Entering --------------------------------------------------------------

  lemma EnterHands(s0: State, s: State, fn: Cell, args: seq<Value>, e: Entering)
    requires Ledger(s) && RefAt(s, HandleOf(s.nextHandle)) == NO_REF && s.nextHandle !in s0.handles
    ensures var t := Enter(s, fn, args, e);
            Entered(s0, t, args, e) && Top(t) == User(Top(t).transient, fn, args) && t.frames == s.frames + [Top(t)] &&
            t.log == s.log
    ensures forall c :: c != HandleOf(s.nextHandle) ==> ValueAt(Enter(s, fn, args, e), c) == ValueAt(s, c)
  {
    hide Ledger, Enter, RefAt, ValueAt;
    EnterCells(s, fn, args, e);
  }

  // The toggle on top enters its revert ...
  lemma RevertHands(s0: State, s: State, n: string, e: Entering)
    requires Ledger(s) && n in s.store && RefAt(s, HandleOf(s.nextHandle)) == NO_REF && s.nextHandle !in s0.handles
    ensures var t := CallRevert(s, n, e); var w := ValueAt(s, RecordOf(n));
            Entered(s0, t, [w], e) && Top(t).User? && Top(t).args == [w] && Top(t).fn == RevertOf(n) &&
            t.frames == s.frames + [Top(t)]
  {
    hide Ledger, Enter, RefAt, ValueAt, Entered;
    var w := ValueAt(s, RecordOf(n));
    TouchHeld(s, RecordOf(n));
    var s1 := Log(s, RevertCalled(n, w));
    SameCellsKeepsLedger(s, s1);
    assert RefAt(s1, HandleOf(s1.nextHandle)) == NO_REF;
    EnterHands(s0, s1, RevertOf(n), [w], e);
  }

  // ... or its implementation.
  lemma ImplementationHands(s0: State, s: State, e: Entering)
    requires Ledger(s) && s.frames != [] && Top(s).Toggle?
    requires RefAt(s, HandleOf(s.nextHandle)) == NO_REF && s.nextHandle !in s0.handles
    ensures var t := CallImplementation(s, e); var i := |s.frames| - 1; var v := ValueAt(s, FrameOf(i));
            Entered(s0, t, [v], e) && Top(t).User? && Top(t).args == [v] && Top(t).fn == ImplOf(Top(s).name) &&
            t.frames == s.frames[i := Toggle(Top(s).name, Implementing(v), Top(s).queuedBy)] + [Top(t)] &&
            t.log == s.log + [ImplCalled(Top(s).name, v)]
  {
    hide Ledger, Enter, RefAt, ValueAt, Entered;
    var Toggle(n, _, queuedBy) := Top(s);
    var v := ValueAt(s, FrameOf(|s.frames| - 1));
    var s1 := Log(SetTop(s, Toggle(n, Implementing(v), queuedBy)), ImplCalled(n, v));
    SameCellsKeepsLedger(s, s1);
    assert RefAt(s1, HandleOf(s1.nextHandle)) == NO_REF;
    EnterHands(s0, s1, ImplOf(n), [v], e);
  }

  lemma BeginHands(s0: State, s: State, n: string, queuedBy: Option<Edge>, e: Entering)
    requires Core(s) && n in s.store && RefAt(s, RevertOf(n)) != NO_REF && s.nextHandle !in s0.handles
    ensures var t := BeginToggle(s, n, queuedBy, e); var v := ValueAt(s, Local(0)); var b := s.store[n].applied;
            Entered(s0, t, [if b then ValueAt(s, RecordOf(n)) else v], e) && Top(t).User? &&
            Top(t).args == [if b then ValueAt(s, RecordOf(n)) else v] &&
            Top(t).fn == (if b then RevertOf(n) else ImplOf(n)) &&
            t.frames == s.frames + [Toggle(n, if b then Reverting(v) else Implementing(v), queuedBy), Top(t)]
  {
    hide Core, Ledger, Move, RefAt, ValueAt, Entered, CallRevert, CallImplementation;
    var i, v := |s.frames|, ValueAt(s, Local(0));
    var s1 := Move(Push(s, Toggle(n, Reverting(v), queuedBy)), Local(0), FrameOf(i));
    NoFrameYet(s);
    NoHandle(s);
    PushToggleCells(s, n, queuedBy);
    if s.store[n].applied { RevertHands(s0, s1, n, e); } else { ImplementationHands(s0, s1, e); }
  }

  lemma NoFrameYet(s: State)
    requires Core(s)
    ensures RefAt(s, FrameOf(|s.frames|)) == NO_REF
  {
    hide Ledger, Stack, Truth, Fresh, History;
    NoFrameCells(s);
  }

  lemma AppliedAnswers(s: State, n: string)
    requires Inv(s) && n in s.store && s.store[n].applied
    ensures CurrentValue(s, n) == ValueAt(s, RecordOf(n))
  {
    hide Ledger, Placed, Stack, Fresh, History;
    assert TruthOf(s, n);
  }

  // ---- A toggle begins -------------------------------------------------------

  lemma OneEntry(l: seq<Entry>, x: Entry)
    requires x.ImplCalled? || x.RevertCalled?
    ensures Heard(l, l + [x], Some(x))
  {}

  lemma PushedUsers(s: State, t: State)
    requires |t.frames| == |s.frames| + 2 && t.frames[..|s.frames|] == s.frames && !t.frames[|s.frames|].User?
    ensures UsersStand(s, t, |t.frames| - 1)
  {
    forall i | 0 < i < |t.frames| - 1 && t.frames[i].User?
      ensures i < |s.frames| && t.frames[i] == s.frames[i] && t.frames[i - 1] == s.frames[i - 1]
    {
      assert t.frames[..|s.frames|][i] == s.frames[i] && t.frames[..|s.frames|][i - 1] == s.frames[i - 1];
    }
  }

  lemma SameUsers(s: State, t: State)
    requires t.frames == s.frames && t.log == s.log
    ensures UsersStand(s, t, |t.frames|) && Heard(s.log, t.log, None)
  {}

  // The toggle begins in s1, in which s has pinned the new value.
  lemma OpeningCalls(s: State, s1: State, n: string, queuedBy: Option<Edge>, ev: Event)
    requires Inv(s) && Wired(s) && Core(s1) && UserOnTop(s1) && |s1.frames| % 2 == 1 && n in s1.store && CanCall(ev)
    requires RefAt(s1, Local(0)) != NO_REF && (s1.boundaryDone || s1.store[n].applied)
    requires s1.store == s.store && s1.log == s.log && s1.frames == s.frames && s1.nextHandle == s.nextHandle
    requires RefAt(s1, RevertOf(n)) == RefAt(s, RevertOf(n)) && ValueAt(s1, RecordOf(n)) == ValueAt(s, RecordOf(n))
    requires Advances(s, BeginToggle(s1, n, queuedBy, ev.entering))
    ensures Calls(s, BeginToggle(s1, n, queuedBy, ev.entering), Opening(s, n, ValueAt(s1, Local(0))), ev)
  {
    hide Inv, Core, BeginToggle, RefAt, ValueAt, CurrentValue, Entered, Heard, UsersStand, Wired, Advances;
    var t := BeginToggle(s1, n, queuedBy, ev.entering);
    if RefAt(s1, RevertOf(n)) == NO_REF {
      NoRevertBegins(s1, n, queuedBy, ev.entering);
      DroppedRest(s1);
      SameUsers(s, t);
    } else {
      assert s.nextHandle !in s.handles by { InvNoSuchHandle(s); }
      BeginHands(s, s1, n, queuedBy, ev.entering);
      ToggleLog(s1, n, queuedBy, ev.entering);
      OneEntry(s.log, BegunWith(s1, n));
      PushedUsers(s, t);
      if s.store[n].applied { AppliedAnswers(s, n); }
      WiredStays(s, t, n);
    }
  }

  lemma InvNoSuchHandle(s: State)
    requires Inv(s)
    ensures s.nextHandle !in s.handles && RefAt(s, HandleOf(s.nextHandle)) == NO_REF
  {
    hide Ledger, Stack, Truth, Fresh, History;
    NoHandleYet(s);
  }

  lemma SetCalls(s: State, e: Event)
    requires Inv(s) && Wired(s) && e.Set? && UserOnTop(s)
    ensures Calls(s, Step(s, e), Due(s, e), e)
  {
    hide Inv, Core, Ledger, Wired, Calls, Pin, BeginToggle, RecordLoadSet, RecordEdge, BuiltValue, RefAt, ValueAt,
      Advances, Read, Opening, Step;
    var t := DoSet(s, e.n, e.h, e.author, e.plugin, e.earlyStop, e.hint, e.entering);
    assert Step(s, e) == t by { SetIsDoSet(s, e); }
    if BuiltValue(s, e.h) && e.n in s.store && !(s.store[e.n].tier.Plugin? && e.earlyStop) {
      PinnedToggle(s, e.h, e.hint);
      PinnedRecord(s, e.h, e.hint, e.n);
      PinHolds(s, e.h, e.hint);
      BuiltReads(s, e.h);
      StepKeeps(s, e);
      var s1 := Pin(s, e.h, e.hint);
      PinnedHandles(s, e.h, e.hint);
      if s.boundaryDone || s.store[e.n].applied {
        OpeningCalls(s, s1, e.n, None, e);
      } else {
        LoadSetQuiet(s1, e.n, e.author, e.plugin);
        QuietCalls(s, t, e);
      }
    } else {
      QuietCalls(s, t, e);
    }
  }

  lemma SetIsDoSet(s: State, e: Event)
    requires e.Set? && UserOnTop(s)
    ensures Step(s, e) == DoSet(s, e.n, e.h, e.author, e.plugin, e.earlyStop, e.hint, e.entering)
  {
    hide DoSet;
  }

  lemma PinnedHandles(s: State, h: nat, hint: int)
    requires BuiltValue(s, h)
    ensures Pin(s, h, hint).nextHandle == s.nextHandle
  {
    hide Ref, Unref;
  }

  lemma LoadSetQuiet(s: State, n: string, author: string, plugin: string)
    requires n in s.store
    ensures var t := RecordEdge(RecordLoadSet(s, n, author, plugin), Edge(author, plugin, n));
            t.frames == s.frames && t.log == s.log
  {
    hide Unref, Move, ReleaseRecord;
  }

  lemma QuietCalls(s: State, t: State, e: Event)
    requires t.frames == s.frames && t.log == s.log
    ensures Calls(s, t, None, e)
  {}

  lemma RunQueuedCalls(s: State, e: Event)
    requires Inv(s) && Wired(s) && e.RunQueued?
    ensures Calls(s, Step(s, e), Due(s, e), e)
  {
    hide Inv, Core, Ledger, Wired, Calls, Ref, BeginToggle, RefAt, ValueAt, Advances, Opening;
    var t := Step(s, e);
    StepKeeps(s, e);
    if s.queue != [] && s.frames == [Main] {
      var q, s1 := s.queue[0], s.(queue := s.queue[1..]);
      if q.name in s.store && e.built {
        DequeueKeeps(s, s1);
        QueuedDone(s);
        QueuedToggle(s1, e.hint, q.payload);
        QueuedRecord(s, s1, e.hint, q.payload, q.name);
        assert RefAt(s1, RevertOf(q.name)) == RefAt(s, RevertOf(q.name)) by { SameCell(s, s1, RevertOf(q.name)); }
        OpeningCalls(s, Ref(s1, e.hint, q.payload, Local(0)), q.name, Some(Edge(q.author, q.plugin, q.name)), e);
      } else {
        QuietCalls(s, t, e);
        UnknownOpens(s, q.name, q.payload);
      }
    } else {
      QuietCalls(s, t, e);
    }
  }

  lemma UnknownOpens(s: State, n: string, v: Value)
    ensures n !in s.store ==> Opening(s, n, v) == None
  {}

  lemma SameCell(s: State, t: State, c: Cell)
    requires t == s.(queue := t.queue)
    ensures RefAt(t, c) == RefAt(s, c)
  {}

  lemma QueuedDone(s: State)
    requires Inv(s) && s.queue != []
    ensures s.boundaryDone
  {
    hide Ledger, Stack, Truth, Fresh, History;
  }

  // ---- Invoke and the drain --------------------------------------------------

  lemma InvokeCalls(s: State, e: Event)
    requires Inv(s) && e.Invoke? && UserOnTop(s)
    ensures Calls(s, Step(s, e), Due(s, e), e)
  {
    hide Inv, Ledger, Enter, Callable, ReadCell, Arguments, Read, RefAt, ValueAt, Entered, Step;
    var t := DoInvoke(s, e.h, e.args, e.entering);
    assert Step(s, e) == t by { InvokeIsDoInvoke(s, e); }
    if Callable(s, e.h, e.args) {
      InvNoSuchHandle(s);
      InvLedger(s);
      var s1, fn := Push(s, Calling), ReadCell(s, e.h);
      SameCellsKeepsLedger(s, s1);
      EnterHands(s, s1, fn, Arguments(s, e.args), e.entering);
      ArgumentsRead(s, e.h, e.args);
      CalledReads(s, e.h, e.args);
      PushedUsers(s, t);
    } else {
      QuietCalls(s, t, e);
    }
  }

  lemma InvokeIsDoInvoke(s: State, e: Event)
    requires e.Invoke? && UserOnTop(s)
    ensures Step(s, e) == DoInvoke(s, e.h, e.args, e.entering)
  {
    hide DoInvoke;
  }

  lemma InvLedger(s: State)
    requires Inv(s)
    ensures Ledger(s)
  {
    hide Ledger, Placed, Stack, Truth, Fresh, History;
  }

  // The arguments are what the handles read, in the order of the handles.
  lemma ArgumentsRead(s: State, h: nat, args: seq<nat>)
    requires Callable(s, h, args)
    ensures Arguments(s, args) == seq(|args|, k requires 0 <= k < |args| => Read(s, args[k]).value)
  {
    hide Read;
  }

  lemma CalledReads(s: State, h: nat, args: seq<nat>)
    requires Inv(s) && Callable(s, h, args)
    ensures ValueAt(s, ReadCell(s, h)) == Read(s, h).value && ReadCell(s, h) != HandleOf(s.nextHandle)
  {
    hide Ledger, Stack, Truth, Fresh, History, RefAt, Deref;
    InvNoSuchHandle(s);
  }

  lemma DrainNextCalls(s: State, e: Event)
    requires Inv(s) && Wired(s) && e.DrainNext?
    ensures Calls(s, Step(s, e), Due(s, e), e)
  {
    hide Inv, Calls, DoDrainNext, CurrentValue, Wired;
    if s.frames != [] && Top(s).Drain? && Top(s).pass != [] {
      DrainCalls1(s, e.entering);
      DrainEnters(s, e);
    } else {
      QuietCalls(s, Step(s, e), e) by { NoDrain(s, e); }
    }
  }

  lemma DrainEnters(s: State, e: Event)
    requires Inv(s) && Wired(s) && e.DrainNext? && s.frames != [] && Top(s).Drain? && Top(s).pass != []
    ensures Calls(s, Step(s, e), Some(Implementation(Top(s).pass[0], CurrentValue(s, Top(s).pass[0]))), e)
  {
    hide Inv, Core, Ledger, Advances, Enter, RefAt, ValueAt, CurrentValue, Entered, DoDrainNext, Invoked, Pending,
      Heard, UsersStand, Step, Wired, Reaches;
    var n, v, t := Top(s).pass[0], ValueAt(s, RecordOf(Top(s).pass[0])), Step(s, e);
    DrainCalls1(s, e.entering);
    DrainedEntry(s, e.entering);
    InvokedHandles(s);
    EnterHands(s, Invoked(s), ImplOf(n), [v], e.entering);
    PendingAnswers(s, n);
    TwoEntries(s.log, DrainCalled(n, v, Top(s).passNo), ImplCalled(n, v));
    StepIsDrainNext(s, e);
    DrainUsers(s, t);
    StepKeeps(s, e);
    WiredStays(s, t, n);
  }

  lemma StepIsDrainNext(s: State, e: Event)
    requires e.DrainNext?
    ensures Step(s, e) == DoDrainNext(s, e.entering)
  {
    hide DoDrainNext;
  }

  lemma DrainUsers(s: State, t: State)
    requires |t.frames| == 3 && t.frames[0] == Main && t.frames[1].Drain?
    ensures UsersStand(s, t, 2)
  {}

  lemma WiredStays(s: State, t: State, n: string)
    requires Wired(s) && Advances(s, t) && n in s.store
    ensures ValueAt(t, ImplOf(n)) == IMPL_TRAMPOLINE
    ensures RefAt(s, RevertOf(n)) != NO_REF ==> ValueAt(t, RevertOf(n)) == REVERT_TRAMPOLINE
  {
    hide RefAt, ValueAt;
    assert AdvancesOn(s, t, n);
  }

  lemma InvokedHandles(s: State)
    requires Inv(s) && s.frames != [] && Top(s).Drain? && Top(s).pass != [] && Top(s).pass[0] in s.store
    ensures var t := Invoked(s);
            t.nextHandle == s.nextHandle && RefAt(t, HandleOf(t.nextHandle)) == NO_REF && t.nextHandle !in s.handles
  {
    hide Inv, ValueAt;
    InvNoSuchHandle(s);
  }

  lemma PendingAnswers(s: State, n: string)
    requires Pending(s, n)
    ensures CurrentValue(s, n) == ValueAt(s, RecordOf(n))
  {}

  lemma TwoEntries(l: seq<Entry>, x: Entry, y: Entry)
    requires x.DrainCalled? && (y.ImplCalled? || y.RevertCalled?)
    ensures Heard(l, l + [x] + [y], Some(y))
  {}

  // ---- A callback is over ----------------------------------------------------

  lemma FewerUsers(s: State, t: State)
    requires |t.frames| <= |s.frames| && t.frames == s.frames[..|t.frames|]
    ensures UsersStand(s, t, |t.frames|)
  {}

  lemma QuietEntry(l: seq<Entry>, m: seq<Entry>)
    requires m == l || exists n, v :: m == l + [ImplReturned(n, v)]
    ensures Heard(l, m, None)
  {}

  lemma ReturnCalls(s: State, e: Event)
    requires Inv(s) && Wired(s) && e.Return?
    ensures Calls(s, Step(s, e), Due(s, e), e)
  {
    hide Inv, Calls, DoReturn, Wired;
    if s.frames != [] && Top(s).User? {
      CalledFrom(s);
      var f := s.frames[|s.frames| - 2];
      if f.Toggle? {
        ReturnToToggleCalls(s, e);
      } else if f.Drain? {
        ReturnToDrainCalls(s, e);
      } else {
        ReturnToCallingCalls(s, e);
      }
    } else {
      QuietCalls(s, Step(s, e), e) by { NoReturnHere(s, e.raised, e.entering); }
    }
  }

  lemma ReturnToDrainCalls(s: State, e: Event)
    requires Inv(s) && e.Return? && |s.frames| == 3 && Top(s).User? && s.frames[1].Drain? && s.frames[1].calling.Some?
    ensures Calls(s, Step(s, e), None, e)
  {
    hide Inv, Core, DoReturn, Leave, ResumeDrain, Heard;
    ReturnToDrain(s, e.raised, e.entering);
    LeaveStore(s, e.raised);
    DrainResumes(Leave(s, e.raised), e.raised);
    QuietEntry(s.log, Step(s, e).log);
  }

  lemma ReturnToCallingCalls(s: State, e: Event)
    requires Inv(s) && e.Return? && |s.frames| > 1 && Top(s).User? && s.frames[|s.frames| - 2].Calling?
    ensures Calls(s, Step(s, e), None, e)
  {
    hide Inv, DoReturn, Leave, Heard, UsersStand;
    ReturnToCalling(s, e.raised, e.entering);
    LeaveStore(s, e.raised);
    var t := Step(s, e);
    assert t.frames == s.frames[..|s.frames| - 2];
    FewerUsers(s, t);
    QuietEntry(s.log, t.log);
  }

  lemma ReturnToToggleCalls(s: State, e: Event)
    requires Inv(s) && Wired(s) && e.Return? && |s.frames| > 1 && Top(s).User? && s.frames[|s.frames| - 2].Toggle?
    ensures Calls(s, Step(s, e), Due(s, e), e)
  {
    hide Inv, Calls, DoReturn, Wired, Heard, UsersStand, Untouched, BackToDefault, NowAnswers;
    var f, t := s.frames[|s.frames| - 2], Step(s, e);
    if f.stage.Reverting? && !e.raised {
      RevertReturnedCalls(s, e);
    } else {
      DisposedByReturn(s, e.raised, e.entering);
      FewerUsers(s, t);
      QuietEntry(s.log, t.log);
      EndedCalls(s, t, e);
    }
  }

  lemma EndedCalls(s: State, t: State, e: Event)
    requires Heard(s.log, t.log, None) && UsersStand(s, t, |t.frames|)
    ensures Calls(s, t, None, e)
  {}

  // Revert has returned: the implementation is called with the toggle's new value.
  lemma RevertReturnedCalls(s: State, e: Event)
    requires Inv(s) && Wired(s) && e.Return? && !e.raised && |s.frames| > 1 && Top(s).User?
    requires s.frames[|s.frames| - 2].Toggle? && s.frames[|s.frames| - 2].stage.Reverting?
    ensures var f := s.frames[|s.frames| - 2]; Calls(s, Step(s, e), Some(Implementation(f.name, f.stage.value)), e)
  {
    hide Inv, Ledger, Step, Leave, CallImplementation, Wired, RefAt, ValueAt, Entered, Heard, UsersStand, Untouched,
      Advances;
    var f, t, u := s.frames[|s.frames| - 2], Leave(s, false), Step(s, e);
    Resumed(s, false, e.entering);
    RevertReturnedTo(s, e);
    InvNoSuchHandle(s);
    LeaveHandles(s, false);
    ImplementationHands(s, t, e.entering);
    OneEntry(s.log, ImplCalled(f.name, f.stage.value));
    StepKeeps(s, e);
    InvToggleKnown(s, |s.frames| - 2);
    WiredStays(s, u, f.name);
    ReplacedUsers(s, u, |t.frames| - 1);
  }

  lemma RevertReturnedTo(s: State, e: Event)
    requires Inv(s) && e.Return? && !e.raised && |s.frames| > 1 && Top(s).User?
    requires s.frames[|s.frames| - 2].Toggle? && s.frames[|s.frames| - 2].stage.Reverting?
    ensures var t := Leave(s, false);
            t.frames != [] && Top(t).Toggle? && Step(s, e) == CallImplementation(t, e.entering)
  {
    hide Inv, Core, Leave, CallImplementation, DoReturn;
    ReturnToToggle(s, false, e.entering);
  }

  lemma LeaveHandles(s: State, raised: bool)
    requires s.frames != [] && Top(s).User?
    ensures Leave(s, raised).nextHandle == s.nextHandle
  {
    hide Unref;
  }

  // The frames from i on are new.
  lemma ReplacedUsers(s: State, t: State, i: nat)
    requires i < |s.frames| && |t.frames| == i + 2 && t.frames[..i] == s.frames[..i] && !t.frames[i].User?
    ensures UsersStand(s, t, i + 1)
  {
    forall j | 0 < j < i + 1 && t.frames[j].User?
      ensures j < |s.frames| && t.frames[j] == s.frames[j] && t.frames[j - 1] == s.frames[j - 1]
    {
      assert t.frames[..i][j] == s.frames[..i][j] && t.frames[..i][j - 1] == s.frames[..i][j - 1];
    }
  }

  // ---- One step --------------------------------------------------------------

  lemma QuietStep(s: State, e: Event)
    requires Inv(s) && !CanCall(e)
    ensures Calls(s, Step(s, e), None, e)
  {
    hide Inv, Calls, DoDeclare;
    if e.Declare? {
      DeclareRest(s, e.n, e.tier, e.h, e.hasRevert, e.defaultHint, e.implHint, e.revertHint);
      QuietCalls(s, Step(s, e), e);
    } else if e.StartBoundary? || e.Snapshot? || e.SweepOne? || e.FinishBoundary? {
      QuietBoundary(s, e);
    } else {
      QuietVerbs(s, e);
    }
  }

  lemma QuietVerbs(s: State, e: Event)
    requires e.Build? || e.ConsumeChild? || e.Get? || e.Stage? || e.QueueSet?
    ensures Calls(s, Step(s, e), None, e)
  {
    hide Ref, Unref, RefAt, ValueAt, Calls;
    QuietCalls(s, Step(s, e), e);
  }

  lemma QuietBoundary(s: State, e: Event)
    requires Inv(s) && (e.StartBoundary? || e.Snapshot? || e.SweepOne? || e.FinishBoundary?)
    ensures Calls(s, Step(s, e), None, e)
  {
    hide Inv, Calls, DoStartBoundary, DoSnapshot, DoFinishBoundary, DoSweepOne;
    match e {
      case StartBoundary => StartQuiet(s);
      case Snapshot(pass) => SnapshotQuiet(s, pass);
      case SweepOne(n) => SweepQuiet(s, n);
      case FinishBoundary => FinishQuiet(s);
    }
  }

  lemma StartQuiet(s: State)
    ensures Calls(s, DoStartBoundary(s), None, StartBoundary)
  {}

  lemma SnapshotQuiet(s: State, pass: seq<string>)
    requires Inv(s)
    ensures Calls(s, DoSnapshot(s, pass), None, Snapshot(pass))
  {
    hide Core, IsPass;
    if DrainIdle(s) { DrainAtBottom(s); }
  }

  lemma SweepQuiet(s: State, n: string)
    ensures Calls(s, DoSweepOne(s, n), None, SweepOne(n))
  {
    hide Calls, ClearRecord, Drained, Pending;
    PendingKnown(s, n);
    if n in s.store { ClearRest(s, n); }
    QuietCalls(s, DoSweepOne(s, n), SweepOne(n));
  }

  lemma FinishQuiet(s: State)
    requires Inv(s)
    ensures Calls(s, DoFinishBoundary(s), None, FinishBoundary)
  {
    hide Core, Pending;
    if s.frames != [] && Top(s).Drain? { DrainAtBottom(s); }
  }

  lemma StepCalls(s: State, e: Event)
    requires Inv(s) && Wired(s)
    ensures Calls(s, Step(s, e), Due(s, e), e)
  {
    hide Inv, Wired, Calls, Step, Opening, Callable, Read, BuiltValue, CurrentValue, UserOnTop;
    match e {
      case Set(_, _, _, _, _, _, _) => if UserOnTop(s) { SetCalls(s, e); } else { NotHere(s, e); }
      case RunQueued(_, _, _) => RunQueuedCalls(s, e);
      case Return(_, _) => ReturnCalls(s, e);
      case DrainNext(_) => DrainNextCalls(s, e);
      case Invoke(_, _, _) => if UserOnTop(s) { InvokeCalls(s, e); } else { NotHere(s, e); }
      case _ => QuietStep(s, e);
    }
  }

  lemma NotHere(s: State, e: Event)
    requires (e.Set? || e.Invoke?) && !UserOnTop(s)
    ensures Calls(s, Step(s, e), None, e)
  {
    hide UserOnTop, Calls;
    QuietCalls(s, Step(s, e), e);
  }

  // ---- Only a declare brings a name ------------------------------------------

  lemma VerbsNames(s: State, e: Event)
    requires e.Build? || e.ConsumeChild? || e.Get? || e.Stage? || e.QueueSet? || e.StartBoundary? || e.Snapshot? ||
             e.FinishBoundary?
    ensures Step(s, e).store == s.store
  {
    hide Ref, Unref, RefAt, ValueAt, IsPass, Pending;
  }

  lemma OpeningNames(s: State, n: string, queuedBy: Option<Edge>, e: Entering)
    requires Core(s) && UserOnTop(s) && n in s.store
    ensures BeginToggle(s, n, queuedBy, e).store == s.store
  {
    hide Core, BeginToggle, RefAt, ValueAt;
    if RefAt(s, RevertOf(n)) == NO_REF { NoRevertBegins(s, n, queuedBy, e); } else { ToggleLog(s, n, queuedBy, e); }
  }

  lemma SetNames(s: State, e: Event)
    requires Inv(s) && e.Set?
    ensures Step(s, e).store.Keys == s.store.Keys
  {
    hide Inv, Core, Ledger, Pin, BeginToggle, RecordLoadSet, RecordEdge, BuiltValue, RefAt, ValueAt, UserOnTop;
    if UserOnTop(s) && BuiltValue(s, e.h) && e.n in s.store && !(s.store[e.n].tier.Plugin? && e.earlyStop) {
      PinnedToggle(s, e.h, e.hint);
      var s1 := Pin(s, e.h, e.hint);
      OpeningNames(s1, e.n, None, e.entering);
      RecordLoadSetCells(s1, e.n, e.author, e.plugin);
      EdgeKeepsCells(RecordLoadSet(s1, e.n, e.author, e.plugin), Edge(e.author, e.plugin, e.n));
    }
  }

  lemma RunQueuedNames(s: State, e: Event)
    requires Inv(s) && e.RunQueued?
    ensures Step(s, e).store.Keys == s.store.Keys
  {
    hide Inv, Core, Ref, BeginToggle, RefAt, ValueAt;
    if s.queue != [] && s.frames == [Main] {
      var q, s1 := s.queue[0], s.(queue := s.queue[1..]);
      if q.name in s.store && e.built {
        DequeueKeeps(s, s1);
        QueuedToggle(s1, e.hint, q.payload);
        OpeningNames(Ref(s1, e.hint, q.payload, Local(0)), q.name, Some(Edge(q.author, q.plugin, q.name)), e.entering);
      }
    }
  }

  lemma InvokeNames(s: State, e: Event)
    requires e.Invoke?
    ensures Step(s, e).store == s.store
  {
    hide Enter, Callable, ReadCell, Arguments;
    EnterFrames(Push(s, Calling), ReadCell(s, e.h), Arguments(s, e.args), e.entering);
  }

  lemma ReturnNames(s: State, e: Event)
    requires Inv(s) && e.Return?
    ensures Step(s, e).store.Keys == s.store.Keys
  {
    hide Inv, Core, DoReturn, Leave, ResumeToggle, ResumeDrain;
    if s.frames != [] && Top(s).User? {
      CalledFrom(s);
      LeaveStore(s, e.raised);
      var f := s.frames[|s.frames| - 2];
      if f.Toggle? {
        ReturnToToggle(s, e.raised, e.entering);
        ToggleResumes(Leave(s, e.raised), e.raised, e.entering);
      } else if f.Drain? {
        ReturnToDrain(s, e.raised, e.entering);
        DrainResumes(Leave(s, e.raised), e.raised);
      } else {
        ReturnToCalling(s, e.raised, e.entering);
      }
    } else {
      NoReturnHere(s, e.raised, e.entering);
    }
  }

  lemma DrainNames(s: State, e: Event)
    requires Inv(s) && (e.DrainNext? || e.SweepOne?)
    ensures Step(s, e).store.Keys == s.store.Keys
  {
    hide Inv, Core, Enter, DoDrainNext, Invoked, Pending, RefAt, ValueAt, ClearRecord, Drained, Reaches, Ledger;
    if e.SweepOne? {
      PendingKnown(s, e.n);
      if e.n in s.store { ClearRest(s, e.n); }
    } else if s.frames != [] && Top(s).Drain? && Top(s).pass != [] {
      DrainCalls1(s, e.entering);
    } else {
      NoDrain(s, e);
    }
  }

  lemma StepNames(s: State, e: Event)
    requires Inv(s) && !e.Declare?
    ensures Step(s, e).store.Keys == s.store.Keys
  {
    hide Inv, Step;
    match e {
      case Set(_, _, _, _, _, _, _) => SetNames(s, e);
      case RunQueued(_, _, _) => RunQueuedNames(s, e);
      case Return(_, _) => ReturnNames(s, e);
      case Invoke(_, _, _) => InvokeNames(s, e);
      case DrainNext(_) => DrainNames(s, e);
      case SweepOne(_) => DrainNames(s, e);
      case _ => VerbsNames(s, e);
    }
  }

  // ---- Every run -------------------------------------------------------------

  lemma StepMatched(s: State, e: Event)
    requires Matched(s) && Calls(s, Step(s, e), Due(s, e), e)
    ensures Matched(Step(s, e))
  {
    hide Step, Due, Handed, Heard, Fits;
    var t := Step(s, e);
    forall i | 0 < i < |t.frames| && t.frames[i].User? ensures Fits(t.frames[i - 1], t.frames[i]) {
      if i < |t.frames| - 1 || Due(s, e).None? {
        assert t.frames[i] == s.frames[i] && t.frames[i - 1] == s.frames[i - 1];
      }
    }
  }

  lemma StepWired(s: State, e: Event)
    requires Inv(s) && Wired(s)
    ensures Wired(Step(s, e))
  {
    hide Inv, Advances, Step, RefAt, ValueAt, BuiltValue;
    var t := Step(s, e);
    StepKeeps(s, e);
    forall n | n in t.store
      ensures ValueAt(t, ImplOf(n)) == IMPL_TRAMPOLINE &&
              (RefAt(t, RevertOf(n)) != NO_REF ==> ValueAt(t, RevertOf(n)) == REVERT_TRAMPOLINE)
    {
      if n in s.store {
        WiredStays(s, t, n);
        assert RefAt(t, RevertOf(n)) == RefAt(s, RevertOf(n)) by { RevertStays(s, t, n); }
      } else {
        if !e.Declare? { StepNames(s, e); }
        DeclaredIs(s, e, n);
      }
    }
  }

  lemma RevertStays(s: State, t: State, n: string)
    requires Advances(s, t) && n in s.store
    ensures RefAt(t, RevertOf(n)) == RefAt(s, RevertOf(n))
  {
    hide RefAt, ValueAt;
    assert AdvancesOn(s, t, n);
  }

  // A name that a declare brought is its own.
  lemma DeclaredIs(s: State, e: Event, n: string)
    requires Inv(s) && e.Declare? && n !in s.store && n in Step(s, e).store
    ensures var t := Step(s, e);
            ValueAt(t, ImplOf(n)) == IMPL_TRAMPOLINE &&
            (RefAt(t, RevertOf(n)) != NO_REF ==> ValueAt(t, RevertOf(n)) == REVERT_TRAMPOLINE)
  {
    hide Inv, DoDeclare, RefAt, ValueAt, BuiltValue;
    DeclareRest(s, e.n, e.tier, e.h, e.hasRevert, e.defaultHint, e.implHint, e.revertHint);
    if s.boundaryDone || !BuiltValue(s, e.h) {
      DeclareRefused(s, e);
    } else {
      DeclaredValue(s, e.n, e.tier, e.h, e.hasRevert, e.defaultHint, e.implHint, e.revertHint);
    }
  }

  lemma DeclareRefused(s: State, e: Event)
    requires e.Declare? && (s.boundaryDone || !BuiltValue(s, e.h))
    ensures Step(s, e) == s
  {
    hide BuiltValue;
  }

  lemma {:induction false} RunCalls(s: State, events: seq<Event>)
    requires Inv(s) && Matched(s) && Wired(s)
    ensures Matched(Run(s, events)) && Wired(Run(s, events))
    decreases |events|
  {
    hide Inv, Step, Matched, Wired, Calls, Due;
    if events != [] {
      var t := Step(s, events[0]);
      StepKeeps(s, events[0]);
      StepCalls(s, events[0]);
      StepMatched(s, events[0]);
      StepWired(s, events[0]);
      RunCalls(t, events[1..]);
    }
  }

  lemma ReachedCalls(events: seq<Event>)
    ensures Inv(Reached(events)) && Matched(Reached(events)) && Wired(Reached(events))
  {
    hide Inv, Run;
    InitInv();
    ReachedInv(events);
    RunCalls(Init(), events);
  }

  // In every state of every run, a step makes the call it owes and no other: the function that is
  // entered is the behavior's own implementation or revert, or what the handle reads; its arguments are
  // what the set's handle, the record, the toggle or the argument handles read before the step; a C
  // function's handle reads the first of them; and the history records the call with that value.
  lemma CallbacksGetTheirValue(events: seq<Event>, e: Event)
    ensures var s := Reached(events); Calls(s, Step(s, e), Due(s, e), e)
  {
    hide Inv, Reached, Step, Wired, Calls, Due;
    ReachedCalls(events);
    StepCalls(Reached(events), e);
  }

  // So what a commit puts on record is what the implementation that has just returned was called with ...
  lemma CommitRecordsTheArgument(events: seq<Event>, e: Entering)
    requires var s := Reached(events);
             |s.frames| > 1 && Top(s).User? && s.frames[|s.frames| - 2].Toggle? &&
             s.frames[|s.frames| - 2].stage.Implementing?
    ensures var s := Reached(events); var t := Step(s, Return(false, e)); var n := s.frames[|s.frames| - 2].name;
            Top(s).fn == ImplOf(n) && |Top(s).args| == 1 && n in t.store && t.store[n].applied &&
            CurrentValue(t, n) == Top(s).args[0] && t.log == s.log + [ImplReturned(n, Top(s).args[0])]
  {
    hide Inv, Reached, Step, Wired, CurrentValue;
    ReachedCalls(events);
    CommittedToggleAnswers(events, e);
    ToggleDispositions(events, false, e);
  }

  // ... and an implementation that the boundary calls gets what the boundary then takes for applied.
  lemma DrainedRunsWithTheRecord(events: seq<Event>)
    requires var s := Reached(events); |s.frames| == 3 && s.frames[1].Drain? && Top(s).User?
    ensures var s := Reached(events);
            s.frames[1].calling.Some? && Top(s).fn == ImplOf(s.frames[1].calling.value) &&
            Top(s).args == [s.frames[1].callingValue]
  {
    hide Inv, Reached, Wired;
    ReachedCalls(events);
    CalledFrom(Reached(events));
  }

  // The toggle on frame i is running the revert of n, or its implementation with v.
  predicate RunsWith(t: State, i: nat, n: string, v: Value) {
    i + 1 < |t.frames| && t.frames[i].Toggle? && t.frames[i + 1].User? &&
    match t.frames[i].stage
    case Reverting(_) => t.frames[i + 1].fn == RevertOf(n)
    case Implementing(_) => t.frames[i + 1].fn == ImplOf(n) && t.frames[i + 1].args == [v]
  }

  // From where a set begins a toggle to where the toggle ends, whatever runs in between, it runs the
  // revert, or the implementation with exactly what the set's handle read.
  lemma ToggleRunsWithTheValue(before: seq<Event>, e: Event, after: seq<Event>)
    requires TogglesInline(Reached(before), e)
    requires var s := Reached(before); StaysOn(Step(s, e), after, |s.frames|)
    requires var s := Reached(before); var t := Run(Step(s, e), after);
             |t.frames| > |s.frames| + 1 && t.frames[|s.frames| + 1].User?
    ensures var s := Reached(before);
            Read(s, e.h).Ok? && RunsWith(Run(Step(s, e), after), |s.frames|, e.n, Read(s, e.h).value)
  {
    hide Inv, Reached, Run, Step, StaysOn, Wired, Matched, RefAt, BuiltValue, Read;
    var s := Reached(before);
    ReachedCalls(before);
    ToggleGetsTheValue(before, e.n, e.h, e.author, e.plugin, e.earlyStop, e.hint, e.entering);
    RunsOn(before, e, after, |s.frames|);
  }

  // And a queued toggle runs it with exactly the value that was queued.
  lemma QueuedToggleRunsWithTheValue(before: seq<Event>, e: Event, after: seq<Event>)
    requires StartsQueued(Reached(before), e) &&
             RefAt(Reached(before), RevertOf(Reached(before).queue[0].name)) != NO_REF
    requires StaysOn(Step(Reached(before), e), after, 1)
    requires var t := Run(Step(Reached(before), e), after); |t.frames| > 2 && t.frames[2].User?
    ensures var s := Reached(before); RunsWith(Run(Step(s, e), after), 1, s.queue[0].name, s.queue[0].payload)
  {
    hide Inv, Reached, Run, Step, StaysOn, Wired, Matched, RefAt;
    ReachedCalls(before);
    QueuedMark(Reached(before), e);
    RunsOn(before, e, after, 1);
  }

  lemma RunsOn(before: seq<Event>, e: Event, after: seq<Event>, i: nat)
    requires var t := Step(Reached(before), e); StaysOn(t, after, i) && i < |t.frames| && t.frames[i].Toggle?
    requires var t := Run(Step(Reached(before), e), after); |t.frames| > i + 1 && t.frames[i + 1].User?
    ensures var f := Step(Reached(before), e).frames[i];
            RunsWith(Run(Step(Reached(before), e), after), i, f.name, f.stage.value)
  {
    hide Inv, Reached, Run, Step, StaysOn, Wired, Matched;
    var s := Reached(before);
    ReachedCalls(before);
    StepKeeps(s, e);
    StepCalls(s, e);
    StepMatched(s, e);
    StepWired(s, e);
    ToggleStays(Step(s, e), after, i);
    RunCalls(Step(s, e), after);
    MatchedAt(Run(Step(s, e), after), i);
  }

  lemma MatchedAt(s: State, i: nat)
    requires Matched(s) && i + 1 < |s.frames| && s.frames[i + 1].User?
    ensures Fits(s.frames[i], s.frames[i + 1])
  {
    assert s.frames[(i + 1) - 1] == s.frames[i];
  }
}
