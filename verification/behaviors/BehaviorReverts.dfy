/**
 What revert undoes.  The value handed to it is that of the last implementation call of the behavior
 that returned, on every run in which no behavior sets itself from within the call the boundary makes
 of its implementation; and on no other run.
 */
module BehaviorReverts {
  import opened Options
  import opened RefLedger
  import opened BehaviorSteps
  import opened BehaviorEffects
  import opened BehaviorInvariant
  import opened BehaviorPreservation
  import opened BehaviorRuns
  import opened BehaviorTheorems
  import opened BehaviorScripts
  import opened BehaviorDispositions
  import opened BehaviorNil
  import opened BehaviorUnbounded
  import opened BehaviorEdges

  // What n's implementation was called with when it last returned.
  function LastReturned(l: seq<Entry>, n: string): Option<Value> {
    if l == [] then None else
    var k := |l| - 1;
    if l[k].ImplReturned? && l[k].name == n then Some(l[k].value) else LastReturned(l[..k], n)
  }

  ghost predicate RevertsOk(l: seq<Entry>, n: string) {
    forall i :: 0 <= i < |l| && l[i].RevertCalled? && l[i].name == n ==> LastReturned(l[..i], n) == Some(l[i].value)
  }

  // The boundary is calling n's implementation.
  predicate InDrain(s: State, n: string) {
    Draining(s) && s.frames[1].calling == Some(n)
  }

  // A set toggles n while the boundary is calling its implementation.
  predicate SetsItself(s: State, e: Event, n: string) {
    TogglesInline(s, e) && e.n == n && InDrain(s, n)
  }

  predicate WasDrained(s: State, n: string) {
    s.boundaryDone || (Draining(s) && n in s.frames[1].invoked)
  }

  predicate Applied(s: State, n: string) {
    n in s.store && s.store[n].applied
  }

  // ---- The invariant ---------------------------------------------------------

  // The record of an applied behavior is what its implementation last returned from; the boundary's own
  // call is the first one, and no toggle is begun in it.
  ghost predicate Undoing(s: State, n: string) {
    && RevertsOk(s.log, n)
    && (InDrain(s, n) ==>
          LastReturned(s.log, n) == None && (Applied(s, n) ==> ValueAt(s, RecordOf(n)) == s.frames[1].callingValue) &&
          forall i :: 0 <= i < |s.frames| && s.frames[i].Toggle? ==> s.frames[i].name != n)
    && (!WasDrained(s, n) ==> LastReturned(s.log, n) == None)
    && (Applied(s, n) && !InDrain(s, n) ==> LastReturned(s.log, n) == Some(ValueAt(s, RecordOf(n))))
  }

  // Nothing happens to n that the history would show.
  predicate Silent(e: Entry, n: string) {
    !(e.RevertCalled? && e.name == n) && !(e.ImplReturned? && e.name == n)
  }

  lemma SilentEntry(l: seq<Entry>, e: Entry, n: string)
    requires Silent(e, n)
    ensures LastReturned(l + [e], n) == LastReturned(l, n) && (RevertsOk(l, n) ==> RevertsOk(l + [e], n))
  {
    assert (l + [e])[..|l|] == l;
    assert forall i :: 0 <= i < |l| ==> (l + [e])[..i] == l[..i];
  }

  lemma RevertEntry(l: seq<Entry>, n: string, v: Value)
    ensures LastReturned(l + [RevertCalled(n, v)], n) == LastReturned(l, n)
    ensures RevertsOk(l, n) && LastReturned(l, n) == Some(v) ==> RevertsOk(l + [RevertCalled(n, v)], n)
  {
    var t := l + [RevertCalled(n, v)];
    assert t[..|l|] == l;
    assert forall i :: 0 <= i < |l| ==> t[..i] == l[..i];
  }

  lemma ReturnEntry(l: seq<Entry>, n: string, v: Value)
    ensures LastReturned(l + [ImplReturned(n, v)], n) == Some(v)
    ensures RevertsOk(l, n) ==> RevertsOk(l + [ImplReturned(n, v)], n)
  {
    var t := l + [ImplReturned(n, v)];
    assert t[..|l|] == l;
    assert forall i :: 0 <= i < |l| ==> t[..i] == l[..i];
  }

  // The history for n stands, the drain calls n as before, and n is not newly applied.
  ghost predicate Aside(s: State, t: State, n: string) {
    && s.log <= t.log && LastReturned(t.log, n) == LastReturned(s.log, n) &&
       (RevertsOk(s.log, n) ==> RevertsOk(t.log, n))
    && (Applied(t, n) ==> Applied(s, n) && t.store[n].valueGeneration == s.store[n].valueGeneration)
    && (InDrain(t, n) ==> InDrain(s, n) && t.frames[1].callingValue == s.frames[1].callingValue)
    && (Applied(t, n) && InDrain(s, n) ==> InDrain(t, n))
    && (WasDrained(s, n) ==> WasDrained(t, n))
  }

  lemma AsideKeeps(s: State, e: Event, t: State, n: string)
    requires Undoing(s, n) && Aside(s, t, n) && Advances(s, t) && TogglesGo(s, t, MarkOf(s, e), WhoOf(s, e))
    requires InDrain(t, n) ==> WhoOf(s, e) != Some(n)
    ensures Undoing(t, n)
  {
    hide RefAt, ValueAt, LastReturned, RevertsOk;
    if Applied(t, n) { assert AdvancesOn(s, t, n); }
  }

  // ---- Steps that leave n alone ----------------------------------------------

  // The store and the history are as they were, and so is the drain.
  lemma SameAside(s: State, t: State, n: string)
    requires t.store == s.store && t.log == s.log && SameDrain(s, t)
    ensures Aside(s, t, n)
  {}

  lemma SilentAside(s: State, t: State, e: Entry, n: string)
    requires t.store == s.store && t.log == s.log + [e] && Silent(e, n) && SameDrain(s, t)
    ensures Aside(s, t, n)
  {
    hide LastReturned, RevertsOk;
    SilentEntry(s.log, e, n);
  }

  // Callbacks come and go above the frame of the drain.
  lemma PushedDrain(s: State, t: State)
    requires s.frames != [] && |t.frames| > |s.frames| && t.frames[..|s.frames|] == s.frames
    requires !t.frames[|s.frames|].Drain? && t.boundaryDone == s.boundaryDone
    ensures SameDrain(s, t)
  {
    if |s.frames| > 1 { assert t.frames[1] == t.frames[..|s.frames|][1]; }
  }

  lemma PoppedDrain(s: State, t: State)
    requires 0 < |t.frames| < |s.frames| && t.frames == s.frames[..|t.frames|] && t.boundaryDone == s.boundaryDone
    requires !s.frames[|t.frames|].Drain?
    ensures SameDrain(s, t)
  {}

  lemma BuildersAside(s: State, e: Event, n: string)
    requires e.Build? || e.ConsumeChild? || e.Get? || e.Stage? || e.QueueSet?
    ensures Aside(s, Step(s, e), n)
  {
    hide Ref, Unref, RefAt, ValueAt, LastReturned, RevertsOk;
    SameAside(s, Step(s, e), n);
  }

  lemma InvokeAside(s: State, h: nat, args: seq<nat>, e: Entering, n: string)
    requires UserOnTop(s)
    ensures Aside(s, DoInvoke(s, h, args, e), n)
  {
    hide Enter, Callable, ReadCell, Arguments, Aside;
    var t := DoInvoke(s, h, args, e);
    if Callable(s, h, args) {
      EnterFrames(Push(s, Calling), ReadCell(s, h), Arguments(s, args), e);
      EnterRest(Push(s, Calling), ReadCell(s, h), Arguments(s, args), e);
      assert t.frames[|s.frames|] == t.frames[..|s.frames| + 1][|s.frames|];
      assert t.frames[..|s.frames|] == t.frames[..|s.frames| + 1][..|s.frames|];
      PushedDrain(s, t);
    }
    SameAside(s, t, n);
  }

  lemma EnterRest(s: State, fn: Cell, args: seq<Value>, e: Entering)
    ensures var t := Enter(s, fn, args, e); t.log == s.log && t.boundaryDone == s.boundaryDone
  {
    hide Ref;
  }

  lemma DeclareAside(s: State, e: Event, n: string)
    requires e.Declare?
    ensures Aside(s, Step(s, e), n)
  {
    hide DoDeclare, LastReturned, RevertsOk;
    DeclareRest(s, e.n, e.tier, e.h, e.hasRevert, e.defaultHint, e.implHint, e.revertHint);
  }

  lemma DeclareRest(s: State, n: string, tier: Tier, h: nat, hasRevert: bool, d: int, i: int, r: int)
    ensures var t := DoDeclare(s, n, tier, h, hasRevert, d, i, r);
            t.log == s.log && t.frames == s.frames && t.boundaryDone == s.boundaryDone &&
            (t.store == s.store || (n !in s.store && n in t.store && t.store == s.store[n := t.store[n]] &&
                                    !t.store[n].applied))
  {
    hide Pin, Trampolines, Adopt, Unref, BuiltValue;
    if BuiltValue(s, h) {
      PinRest(s, h, d);
      TrampolinesRest(Pin(s, h, d), hasRevert, i, r);
      AdoptRest(Trampolines(Pin(s, h, d), hasRevert, i, r), n, tier);
    }
  }

  lemma PinRest(s: State, h: nat, hint: int)
    requires BuiltValue(s, h)
    ensures var t := Pin(s, h, hint);
            t.log == s.log && t.frames == s.frames && t.boundaryDone == s.boundaryDone && t.store == s.store
  {
    hide Ref, Unref, RefAt, ValueAt;
  }

  lemma TrampolinesRest(s: State, hasRevert: bool, i: int, r: int)
    ensures var t := Trampolines(s, hasRevert, i, r);
            t.log == s.log && t.frames == s.frames && t.boundaryDone == s.boundaryDone && t.store == s.store
  {
    hide Ref;
  }

  lemma AdoptRest(s: State, n: string, tier: Tier)
    ensures var t := Adopt(s, n, tier);
            t.log == s.log && t.frames == s.frames && t.boundaryDone == s.boundaryDone &&
            n in t.store && t.store == s.store[n := t.store[n]] && !t.store[n].applied
  {
    hide Move;
  }

  lemma BoundaryAside(s: State, e: Event, n: string)
    requires Inv(s) && (e.StartBoundary? || e.Snapshot? || e.SweepOne? || e.FinishBoundary?)
    ensures Aside(s, Step(s, e), n)
  {
    hide Core, ClearRecord, RefAt, ValueAt, IsPass, Pending, LastReturned, RevertsOk;
    if s.frames != [] && Top(s).Drain? { DrainAtBottom(s); }
    if e.SweepOne? {
      PendingKnown(s, e.n);
      if e.n in s.store { ClearRest(s, e.n); }
    }
  }

  lemma ClearRest(s: State, n: string)
    requires n in s.store
    ensures var t := ClearRecord(s, n);
            t.log == s.log && t.frames == s.frames && t.boundaryDone == s.boundaryDone && n in t.store &&
            t.store == s.store[n := t.store[n]] && !t.store[n].applied
  {
    hide Unref;
  }

  // ---- A toggle is begun -----------------------------------------------------

  // What the first callback of a toggle is logged as.
  function BegunWith(s: State, n: string): Entry
    requires n in s.store
  {
    if s.store[n].applied then RevertCalled(n, ValueAt(s, RecordOf(n))) else ImplCalled(n, ValueAt(s, Local(0)))
  }

  lemma ToggleLog(s: State, n: string, queuedBy: Option<Edge>, e: Entering)
    requires Core(s) && UserOnTop(s) && n in s.store && RefAt(s, RevertOf(n)) != NO_REF
    ensures var t := BeginToggle(s, n, queuedBy, e);
            t.store == s.store && t.log == s.log + [BegunWith(s, n)] && t.boundaryDone == s.boundaryDone
  {
    hide Ledger, Placed, Stack, Truth, Fresh, History, Move, Enter, RefAt, ValueAt;
    var i, v := |s.frames|, ValueAt(s, Local(0));
    var s1 := Move(Push(s, Toggle(n, Reverting(v), queuedBy)), Local(0), FrameOf(i));
    assert RefAt(s, FrameOf(i)) == NO_REF by { NoFrameCells(s); }
    PushToggleCells(s, n, queuedBy);
    if s.store[n].applied {
      var w := ValueAt(s1, RecordOf(n));
      assert w == ValueAt(s, RecordOf(n));
      EnterRest(Log(Touch(s1, RefAt(s1, RecordOf(n))), RevertCalled(n, w)), RevertOf(n), [w], e);
      EnterFrames(Log(Touch(s1, RefAt(s1, RecordOf(n))), RevertCalled(n, w)), RevertOf(n), [w], e);
    } else {
      var s2 := Log(SetTop(s1, Toggle(n, Implementing(v), queuedBy)), ImplCalled(n, v));
      EnterRest(s2, ImplOf(n), [v], e);
      EnterFrames(s2, ImplOf(n), [v], e);
    }
  }

  // A toggle of m is begun in a state like s: for n, it is silent, or n's record is handed to revert.
  lemma BegunKeeps(s: State, s1: State, m: string, queuedBy: Option<Edge>, e: Entering, n: string)
    requires Core(s1) && UserOnTop(s1) && |s1.frames| % 2 == 1 && m in s1.store && RefAt(s1, Local(0)) != NO_REF
    requires s1.boundaryDone || s1.store[m].applied
    requires s1.store == s.store && s1.log == s.log && s1.frames == s.frames && s1.boundaryDone == s.boundaryDone
    requires ValueAt(s1, RecordOf(m)) == ValueAt(s, RecordOf(m))
    requires Undoing(s, n) && Advances(s, BeginToggle(s1, m, queuedBy, e))
    requires m == n && RefAt(s1, RevertOf(m)) != NO_REF ==> !InDrain(s, n)
    requires TogglesGo(s, BeginToggle(s1, m, queuedBy, e), queuedBy, Some(m))
    ensures Undoing(BeginToggle(s1, m, queuedBy, e), n) && s.log <= BeginToggle(s1, m, queuedBy, e).log
  {
    hide Core, BeginToggle, RefAt, ValueAt, LastReturned, RevertsOk, TogglesGo, Advances, Undoing, Aside;
    var t := BeginToggle(s1, m, queuedBy, e);
    if RefAt(s1, RevertOf(m)) == NO_REF {
      NoRevertBegins(s1, m, queuedBy, e);
      DroppedRest(s1);
      SameAside(s, t, n);
      AsideStays(s, t, n, queuedBy, Some(m));
    } else {
      ToggleLog(s1, m, queuedBy, e);
      ToggleBegins(s1, m, queuedBy, e);
      PushedDrain(s, t);
      BegunEntry(s, s1, m);
      if Silent(BegunWith(s1, m), n) {
        SilentAside(s, t, BegunWith(s1, m), n);
        AsideStays(s, t, n, queuedBy, Some(m));
      } else {
        RevertBegun(s, t, n);
      }
    }
  }

  lemma DroppedRest(s: State)
    ensures var t := Unref(s, Local(0)); t.log == s.log && t.boundaryDone == s.boundaryDone
  {
    hide Unref;
  }

  lemma BegunEntry(s: State, s1: State, m: string)
    requires m in s.store && s1.store == s.store && ValueAt(s1, RecordOf(m)) == ValueAt(s, RecordOf(m))
    ensures forall n :: Silent(BegunWith(s1, m), n) || (n == m && s.store[m].applied &&
                          BegunWith(s1, m) == RevertCalled(n, ValueAt(s, RecordOf(n))))
  {
    hide ValueAt;
  }

  lemma AsideStays(s: State, t: State, n: string, mark: Option<Edge>, who: Option<string>)
    requires Undoing(s, n) && Aside(s, t, n) && Advances(s, t) && TogglesGo(s, t, mark, who)
    requires InDrain(t, n) && who == Some(n) ==> |t.frames| <= |s.frames|
    ensures Undoing(t, n) && s.log <= t.log
  {
    hide RefAt, ValueAt, LastReturned, RevertsOk;
    if Applied(t, n) { assert AdvancesOn(s, t, n); }
  }

  // Revert is handed the record, which is what the implementation last returned from.
  lemma RevertBegun(s: State, t: State, n: string)
    requires Undoing(s, n) && Applied(s, n) && !InDrain(s, n) && Advances(s, t) && SameDrain(s, t) && t.store == s.store
    requires t.log == s.log + [RevertCalled(n, ValueAt(s, RecordOf(n)))]
    ensures Undoing(t, n) && s.log <= t.log
  {
    hide RefAt, ValueAt, LastReturned, RevertsOk;
    RevertEntry(s.log, n, ValueAt(s, RecordOf(n)));
    assert AdvancesOn(s, t, n);
  }

  // ---- Set and RunQueued -----------------------------------------------------

  lemma SetUndoes(s: State, e: Event, n: string)
    requires Inv(s) && UserOnTop(s) && e.Set? && Undoing(s, n) && !SetsItself(s, e, n)
    ensures var t := DoSet(s, e.n, e.h, e.author, e.plugin, e.earlyStop, e.hint, e.entering);
            Undoing(t, n) && s.log <= t.log
  {
    hide Inv, Core, Ledger, Undoing, TogglesGo, Advances, InDrain, Pin, BeginToggle, RecordLoadSet, RecordEdge,
      BuiltValue,
      RefAt, ValueAt;
    if BuiltValue(s, e.h) && e.n in s.store && !(s.store[e.n].tier.Plugin? && e.earlyStop) {
      PinnedToggle(s, e.h, e.hint);
      PinnedRecord(s, e.h, e.hint, e.n);
      SetKeeps(s, e.n, e.h, e.author, e.plugin, e.earlyStop, e.hint, e.entering);
      SetGoes(s, e);
      var s1 := Pin(s, e.h, e.hint);
      if s.boundaryDone || s.store[e.n].applied {
        SetItself(s, e, n);
        BeginToggleGoes(s1, e.n, None, e.entering);
        FirstSame(s, s1, BeginToggle(s1, e.n, None, e.entering), None, Some(e.n));
        BegunKeeps(s, s1, e.n, None, e.entering, n);
      } else {
        LoadSetAside(s, s1, e.n, e.author, e.plugin, n);
        var t := RecordEdge(RecordLoadSet(s1, e.n, e.author, e.plugin), Edge(e.author, e.plugin, e.n));
        AsideStays(s, t, n, None, Some(e.n));
      }
    }
  }

  lemma SetItself(s: State, e: Event, n: string)
    requires e.Set? && UserOnTop(s) && BuiltValue(s, e.h) && e.n in s.store &&
             !(s.store[e.n].tier.Plugin? && e.earlyStop)
    requires (s.boundaryDone || s.store[e.n].applied) && !SetsItself(s, e, n)
    ensures e.n == n && RefAt(s, RevertOf(n)) != NO_REF ==> !InDrain(s, n)
  {
    hide BuiltValue, RefAt;
  }

  lemma PinnedRecord(s: State, h: nat, hint: int, n: string)
    requires Inv(s) && BuiltValue(s, h)
    ensures var t := Pin(s, h, hint);
            ValueAt(t, RecordOf(n)) == ValueAt(s, RecordOf(n)) && t.log == s.log && t.store == s.store &&
            t.frames == s.frames && t.boundaryDone == s.boundaryDone
  {
    hide Placed, Stack, Truth, Fresh, History, Ledger, Pin, RefAt, ValueAt, BuiltValue;
    PinCells(s, h, hint);
  }

  lemma LoadSetAside(s: State, s1: State, m: string, author: string, plugin: string, n: string)
    requires m in s.store && !s.store[m].applied && s1.store == s.store && s1.log == s.log && s1.frames == s.frames
    requires s1.boundaryDone == s.boundaryDone
    ensures var t := RecordEdge(RecordLoadSet(s1, m, author, plugin), Edge(author, plugin, m));
            Aside(s, t, n) && t.frames == s.frames
  {
    hide Unref, Move, ReleaseRecord, LastReturned, RevertsOk;
  }

  lemma RunQueuedUndoes(s: State, e: Event, n: string)
    requires Inv(s) && e.RunQueued? && Undoing(s, n)
    ensures var t := DoRunQueued(s, e.built, e.hint, e.entering); Undoing(t, n) && s.log <= t.log
  {
    hide Inv, Core, Undoing, TogglesGo, Advances, Ref, BeginToggle, RefAt, ValueAt, Aside;
    var t := DoRunQueued(s, e.built, e.hint, e.entering);
    RunQueuedKeeps(s, e.built, e.hint, e.entering);
    RunQueuedGoes(s, e);
    if s.queue != [] && s.frames == [Main] {
      var q, s1 := s.queue[0], s.(queue := s.queue[1..]);
      if q.name in s.store && e.built {
        DequeueKeeps(s, s1);
        QueuedToggle(s1, e.hint, q.payload);
        var s2, mark := Ref(s1, e.hint, q.payload, Local(0)), Some(Edge(q.author, q.plugin, q.name));
        QueuedRecord(s, s1, e.hint, q.payload, q.name);
        BegunKeeps(s, s2, q.name, mark, e.entering, n);
      } else {
        SameAside(s, t, n);
        AsideStays(s, t, n, None, None);
      }
    } else {
      SelfAside(s, n);
    }
  }

  lemma SelfAside(s: State, n: string)
    ensures Aside(s, s, n)
  {
    hide LastReturned, RevertsOk;
  }

  lemma QueuedRecord(s: State, s1: State, hint: int, v: Value, n: string)
    requires Inv(s) && s1 == s.(queue := s1.queue)
    ensures ValueAt(Ref(s1, hint, v, Local(0)), RecordOf(n)) == ValueAt(s, RecordOf(n))
  {
    hide Placed, Stack, Truth, Fresh, History, Ledger, Ref, RefAt, Deref;
    SameCellsKeepsLedger(s, s1);
    assert RefAt(s, Local(0)) == NO_REF;
    RefKeepsLedger(s1, hint, v, Local(0));
  }

  // ---- The drain calls n -----------------------------------------------------

  lemma DrainNextUndoes(s: State, e: Event, n: string)
    requires Inv(s) && e.DrainNext? && Undoing(s, n)
    ensures Undoing(Step(s, e), n) && s.log <= Step(s, e).log
  {
    hide Inv, Core, Ledger, Undoing, Aside, Enter, DoDrainNext, Pending, RefAt, ValueAt, Advances, TogglesGo;
    if s.frames != [] && Top(s).Drain? && Top(s).pass != [] {
      DrainCalls1(s, e.entering);
      StepKeeps(s, e);
      StepGoes(s, e);
      DrainedEntry(s, e.entering);
      DrainFrame(s);
      var m, t := Top(s).pass[0], Step(s, e);
      if m == n {
        Drained1(s, t, n);
      } else {
        DrainedOther(s, t, m, n);
        AsideStays(s, t, n, None, None);
      }
    } else {
      assert Step(s, e) == s by { NoDrain(s, e); }
    }
  }

  lemma NoDrain(s: State, e: Event)
    requires e.DrainNext? && !(s.frames != [] && Top(s).Drain? && Top(s).pass != [])
    ensures Step(s, e) == s
  {}

  lemma DrainedEntry(s: State, e: Entering)
    requires Inv(s) && s.frames != [] && Top(s).Drain? && Top(s).pass != [] && Top(s).pass[0] in s.store
    ensures var m := Top(s).pass[0]; var v := ValueAt(s, RecordOf(m));
            var t := Enter(Invoked(s), ImplOf(m), [v], e);
            t.log == s.log + [DrainCalled(m, v, Top(s).passNo)] + [ImplCalled(m, v)] &&
            t.boundaryDone == s.boundaryDone &&
            t.store == s.store[m := s.store[m].(applied := true)] && Top(s).calling == None &&
            |t.frames| == 3 && t.frames[0] == Main
  {
    hide Core, Enter, RefAt, ValueAt;
    DrainAtBottom(s);
    EnterRest(Invoked(s), ImplOf(Top(s).pass[0]), [ValueAt(s, RecordOf(Top(s).pass[0]))], e);
    EnterFrames(Invoked(s), ImplOf(Top(s).pass[0]), [ValueAt(s, RecordOf(Top(s).pass[0]))], e);
  }

  // The boundary's call of n is the first call of n that could return.
  lemma Drained1(s: State, t: State, n: string)
    requires Undoing(s, n) && !s.boundaryDone && |s.frames| == 2 && s.frames[1].Drain? && n !in s.frames[1].invoked &&
             n in s.store
    requires |t.frames| == 3 && t.frames[0] == Main && t.frames[2].User?
    requires t.frames[1].Drain? && t.frames[1].calling == Some(n) && t.frames[1].callingValue == ValueAt(s, RecordOf(n))
    requires n in t.frames[1].invoked
    requires exists v, p :: t.log == s.log + [DrainCalled(n, v, p)] + [ImplCalled(n, v)]
    requires Advances(s, t) && t.store == s.store[n := s.store[n].(applied := true)]
    ensures Undoing(t, n) && s.log <= t.log
  {
    hide RefAt, ValueAt, LastReturned, RevertsOk;
    var v, p :| t.log == s.log + [DrainCalled(n, v, p)] + [ImplCalled(n, v)];
    SilentEntry(s.log, DrainCalled(n, v, p), n);
    SilentEntry(s.log + [DrainCalled(n, v, p)], ImplCalled(n, v), n);
    assert AdvancesOn(s, t, n);
  }

  lemma DrainedOther(s: State, t: State, m: string, n: string)
    requires m != n && |s.frames| == 2 && s.frames[1].Drain? && s.frames[1].calling == None
    requires |t.frames| == 3 && t.frames[1].Drain? && t.frames[1].calling == Some(m)
    requires t.frames[1].invoked == s.frames[1].invoked + {m} && t.boundaryDone == s.boundaryDone && m in s.store
    requires exists v, p :: t.log == s.log + [DrainCalled(m, v, p)] + [ImplCalled(m, v)]
    requires t.store == s.store[m := s.store[m].(applied := true)]
    ensures Aside(s, t, n)
  {
    hide LastReturned, RevertsOk;
    var v, p :| t.log == s.log + [DrainCalled(m, v, p)] + [ImplCalled(m, v)];
    SilentEntry(s.log, DrainCalled(m, v, p), n);
    SilentEntry(s.log + [DrainCalled(m, v, p)], ImplCalled(m, v), n);
  }

  // ---- A callback is over ----------------------------------------------------

  lemma ReturnUndoes(s: State, raised: bool, e: Entering, n: string)
    requires Inv(s) && Undoing(s, n)
    ensures var t := DoReturn(s, raised, e); Undoing(t, n) && s.log <= t.log
  {
    hide Inv, Undoing, Aside, DoReturn, Advances, TogglesGo;
    if s.frames != [] && Top(s).User? {
      ReturnKeeps(s, raised, e);
      ReturnGoes(s, raised, e);
      CalledFrom(s);
      var f := s.frames[|s.frames| - 2];
      if f.Toggle? {
        ReturnToToggleUndoes(s, raised, e, n);
      } else if f.Drain? {
        ReturnToDrainUndoes(s, raised, e, n);
      } else {
        ReturnToCallingAside(s, raised, e, n);
        AsideStays(s, DoReturn(s, raised, e), n, None, None);
      }
    } else {
      assert DoReturn(s, raised, e) == s by { NoReturnHere(s, raised, e); }
    }
  }

  lemma NoReturnHere(s: State, raised: bool, e: Entering)
    requires s.frames == [] || !Top(s).User?
    ensures DoReturn(s, raised, e) == s
  {}

  // Below a callback sits the engine.
  lemma CalledFrom(s: State)
    requires Inv(s) && s.frames != [] && Top(s).User?
    ensures |s.frames| > 1
    ensures var f := s.frames[|s.frames| - 2];
            f.Toggle? || f.Calling? || (f.Drain? && |s.frames| == 3 && f.calling.Some?)
    ensures forall i :: 0 <= i < |s.frames| && s.frames[i].Drain? ==> i == 1
    ensures Draining(s) && s.frames[1].calling.Some? ==> s.frames[1].calling.value in s.frames[1].invoked
  {
    hide Ledger, Placed, Truth, Fresh, History, Pending, ValueAt, RefAt;
    UserAtEven(s);
    assert FrameOk(s, |s.frames| - 1) && FrameOk(s, |s.frames| - 2);
    forall i | 0 <= i < |s.frames| && s.frames[i].Drain? ensures i == 1 { assert FrameOk(s, i); }
    if Draining(s) { assert FrameOk(s, 1); }
  }

  lemma ReturnToCallingAside(s: State, raised: bool, e: Entering, n: string)
    requires Inv(s) && |s.frames| > 1 && Top(s).User? && s.frames[|s.frames| - 2].Calling?
    requires forall i :: 0 <= i < |s.frames| && s.frames[i].Drain? ==> i == 1
    ensures Aside(s, DoReturn(s, raised, e), n)
  {
    hide Inv, Aside, DoReturn, Leave;
    ReturnToCalling(s, raised, e);
    LeaveStore(s, raised);
    LeaveDone(s, raised);
    var t := DoReturn(s, raised, e);
    assert t.frames == s.frames[..|s.frames| - 2];
    assert |s.frames| > 2 by { MainBelow(s); }
    PoppedDrain(s, t);
    SameAside(s, t, n);
  }

  lemma LeaveDone(s: State, raised: bool)
    requires s.frames != [] && Top(s).User?
    ensures Leave(s, raised).boundaryDone == s.boundaryDone
  {
    hide Unref;
  }

  lemma MainBelow(s: State)
    requires Inv(s) && s.frames != [] && Top(s).User?
    ensures |s.frames| > 2
  {
    hide Ledger, Placed, Truth, Fresh, History, Pending, ValueAt, RefAt;
    UserAtEven(s);
    assert FrameOk(s, |s.frames| - 1);
  }

  lemma ReturnToDrainUndoes(s: State, raised: bool, e: Entering, n: string)
    requires Inv(s) && Undoing(s, n) && |s.frames| == 3 && Top(s).User? && s.frames[1].Drain? &&
             s.frames[1].calling.Some?
    requires s.frames[1].calling.value in s.frames[1].invoked
    requires Advances(s, DoReturn(s, raised, e)) && TogglesGo(s, DoReturn(s, raised, e), None, None)
    ensures var t := DoReturn(s, raised, e); Undoing(t, n) && s.log <= t.log
  {
    hide Inv, Undoing, Aside, DoReturn, Leave, ResumeDrain, Advances, TogglesGo, Core;
    ReturnToDrain(s, raised, e);
    LeaveStore(s, raised);
    LeaveDone(s, raised);
    var t, m := DoReturn(s, raised, e), s.frames[1].calling.value;
    DrainResumes(Leave(s, raised), raised);
    if raised || m != n {
      ResumedAside(s, t, raised, m, n);
      AsideStays(s, t, n, None, None);
    } else {
      DrainReturned(s, t, n);
    }
  }

  lemma DrainResumes(s: State, raised: bool)
    requires |s.frames| == 2 && s.frames[1].Drain? && s.frames[1].calling.Some? && s.frames[1].calling.value in s.store
    ensures var t := ResumeDrain(s, raised); var m := s.frames[1].calling.value;
            t.boundaryDone == s.boundaryDone && |t.frames| == 2 && t.frames[1] == s.frames[1].(calling := None) &&
            (if raised then t.log == s.log && m in t.store && t.store == s.store[m := t.store[m]] && !t.store[m].applied
             else t.log == s.log + [ImplReturned(m, s.frames[1].callingValue)] && t.store == s.store)
  {
    hide Unref;
  }

  lemma ResumedAside(s: State, t: State, raised: bool, m: string, n: string)
    requires |s.frames| == 3 && s.frames[1].Drain? && s.frames[1].calling == Some(m) && (raised || m != n) &&
             m in s.store
    requires |t.frames| == 2 && t.frames[1] == s.frames[1].(calling := None) && t.boundaryDone == s.boundaryDone
    requires if raised then t.log == s.log && m in t.store && t.store == s.store[m := t.store[m]] && !t.store[m].applied
             else t.log == s.log + [ImplReturned(m, s.frames[1].callingValue)] && t.store == s.store
    ensures Aside(s, t, n)
  {
    hide LastReturned, RevertsOk;
    if !raised { SilentEntry(s.log, ImplReturned(m, s.frames[1].callingValue), n); }
  }

  lemma DrainReturned(s: State, t: State, n: string)
    requires Undoing(s, n) && InDrain(s, n) && n in s.frames[1].invoked && Advances(s, t) && t.store == s.store
    requires |t.frames| == 2 && t.frames[1] == s.frames[1].(calling := None) && t.boundaryDone == s.boundaryDone
    requires t.log == s.log + [ImplReturned(n, s.frames[1].callingValue)]
    ensures Undoing(t, n) && s.log <= t.log
  {
    hide RefAt, ValueAt, LastReturned, RevertsOk;
    ReturnEntry(s.log, n, s.frames[1].callingValue);
    if Applied(t, n) { assert AdvancesOn(s, t, n); }
  }

  lemma ReturnToToggleUndoes(s: State, raised: bool, e: Entering, n: string)
    requires Inv(s) && Undoing(s, n) && |s.frames| > 1 && Top(s).User? && s.frames[|s.frames| - 2].Toggle?
    requires forall i :: 0 <= i < |s.frames| && s.frames[i].Drain? ==> i == 1
    requires Advances(s, DoReturn(s, raised, e)) && TogglesGo(s, DoReturn(s, raised, e), None, None)
    ensures var t := DoReturn(s, raised, e); Undoing(t, n) && s.log <= t.log
  {
    hide Inv, Undoing, Aside, DoReturn, Leave, ResumeToggle, Advances, TogglesGo, Core, Untouched, BackToDefault,
      NowAnswers;
    ReturnToToggle(s, raised, e);
    DisposedByReturn(s, raised, e);
    LeaveStore(s, raised);
    LeaveDone(s, raised);
    var t, toggle := DoReturn(s, raised, e), s.frames[|s.frames| - 2];
    ToggleResumes(Leave(s, raised), raised, e);
    MainBelow(s);
    ResumedDrain(s, t);
    if toggle.stage.Implementing? && !raised && toggle.name == n {
      ToggleCommitted(s, t, n, toggle.stage.value);
    } else {
      ToggleAside(s, t, raised, n);
      AsideStays(s, t, n, None, None);
    }
  }

  lemma ToggleResumes(s: State, raised: bool, e: Entering)
    requires s.frames != [] && Top(s).Toggle? && Top(s).name in s.store
    ensures var t := ResumeToggle(s, raised, e); var m := Top(s).name; var k := |s.frames| - 1;
            t.boundaryDone == s.boundaryDone && m in t.store && t.store == s.store[m := t.store[m]] &&
            (Top(s).stage.Reverting? ==> t.store == s.store) &&
            (Top(s).stage.Implementing? && raised ==> !t.store[m].applied) &&
            (if Top(s).stage.Reverting? && !raised then |t.frames| == k + 2 && t.frames[..k] == s.frames[..k] &&
             t.frames[k].Toggle?
             else t.frames == s.frames[..k])
  {
    hide CallImplementation, DropToggle, ClearRecord, CommitToggle;
    CallImplementationFrames(s, e);
    CallImplementationRest(s, e);
    DropGoes(s);
    DropRest(s);
    ClearRest(DropToggle(s), Top(s).name);
    if Top(s).stage.Implementing? { CommitRest(Log(s, ImplReturned(Top(s).name, Top(s).stage.value))); }
  }

  lemma DropRest(s: State)
    requires s.frames != [] && Top(s).Toggle?
    ensures DropToggle(s).boundaryDone == s.boundaryDone
  {
    hide Unref;
  }

  lemma CommitRest(s: State)
    requires s.frames != [] && Top(s).Toggle? && Top(s).name in s.store
    ensures var t := CommitToggle(s); var m := Top(s).name;
            t.boundaryDone == s.boundaryDone && m in t.store && t.store == s.store[m := t.store[m]] &&
            t.frames == s.frames[..|s.frames| - 1]
  {
    hide Move, ReleaseRecord, RefAt;
  }

  lemma CallImplementationRest(s: State, e: Entering)
    requires s.frames != [] && Top(s).Toggle?
    ensures CallImplementation(s, e).boundaryDone == s.boundaryDone
  {
    hide Ref, ValueAt;
  }

  // The drain is where it was.
  lemma ResumedDrain(s: State, t: State)
    requires |s.frames| > 2 && Top(s).User? && s.frames[|s.frames| - 2].Toggle? && t.boundaryDone == s.boundaryDone
    requires forall i :: 0 <= i < |s.frames| && s.frames[i].Drain? ==> i == 1
    requires var k := |s.frames| - 2;
             t.frames == s.frames[..k] || (|t.frames| == k + 2 && t.frames[..k] == s.frames[..k] && t.frames[k].Toggle?)
    ensures SameDrain(s, t)
  {
    var k := |s.frames| - 2;
    if k > 1 { assert t.frames[1] == t.frames[..k][1] == s.frames[..k][1]; }
  }

  lemma ToggleAside(s: State, t: State, raised: bool, n: string)
    requires |s.frames| > 1 && s.frames[|s.frames| - 2].Toggle? && Disposed(s, t, raised) && SameDrain(s, t)
    requires var f := s.frames[|s.frames| - 2];
             f.name in t.store && t.store == s.store[f.name := t.store[f.name]] &&
             (f.stage.Reverting? ==> t.store == s.store) &&
             (f.stage.Implementing? && raised ==> !t.store[f.name].applied) &&
             (f.stage.Implementing? && !raised ==> f.name != n)
    ensures Aside(s, t, n)
  {
    hide LastReturned, RevertsOk, Untouched, BackToDefault, NowAnswers;
    var f := s.frames[|s.frames| - 2];
    SilentEntry(s.log, ImplCalled(f.name, f.stage.value), n);
    if f.name != n { SilentEntry(s.log, ImplReturned(f.name, f.stage.value), n); }
  }

  lemma ToggleCommitted(s: State, t: State, n: string, v: Value)
    requires Inv(s) && Undoing(s, n) && |s.frames| > 1 && s.frames[|s.frames| - 2].Toggle? &&
             s.frames[|s.frames| - 2].name == n
    requires NowAnswers(s, t, n, v) && t.log == s.log + [ImplReturned(n, v)] && SameDrain(s, t)
    ensures Undoing(t, n) && s.log <= t.log
  {
    hide Inv, RefAt, ValueAt, LastReturned, RevertsOk;
    ReturnEntry(s.log, n, v);
    ToggleDrained(s, |s.frames| - 2);
  }

  lemma ToggleDrained(s: State, i: nat)
    requires Inv(s) && i < |s.frames| && s.frames[i].Toggle?
    ensures WasDrained(s, s.frames[i].name)
  {
    hide Ledger, Placed, Truth, Fresh, History, ValueAt, RefAt;
    assert FrameOk(s, i);
  }

  // ---- One step --------------------------------------------------------------

  lemma StepUndoes(s: State, e: Event, n: string)
    requires Inv(s) && Undoing(s, n) && !SetsItself(s, e, n)
    ensures Undoing(Step(s, e), n) && s.log <= Step(s, e).log
  {
    hide Inv, Undoing, Aside, Advances, TogglesGo, MintBuilt, DoConsumeChild, DoGet, DoDeclare, DoSet, DoInvoke,
      DoReturn,
      DoRunQueued, DoDrainNext, SetsItself;
    if e.Set? {
      if UserOnTop(s) { SetUndoes(s, e, n); }
    } else if e.RunQueued? {
      RunQueuedUndoes(s, e, n);
    } else if e.Return? {
      ReturnUndoes(s, e.raised, e.entering, n);
    } else if e.DrainNext? {
      DrainNextUndoes(s, e, n);
    } else {
      StepKeeps(s, e);
      StepGoes(s, e);
      StepAside(s, e, n);
      AsideKeeps(s, e, Step(s, e), n);
      AsideLog(s, Step(s, e), n);
    }
  }

  lemma AsideLog(s: State, t: State, n: string)
    requires Aside(s, t, n)
    ensures s.log <= t.log
  {
    hide LastReturned, RevertsOk;
  }

  lemma StepAside(s: State, e: Event, n: string)
    requires Inv(s) && !e.Set? && !e.RunQueued? && !e.Return? && !e.DrainNext?
    ensures Aside(s, Step(s, e), n)
  {
    hide Inv, Aside, DoInvoke;
    if e.Declare? {
      DeclareAside(s, e, n);
    } else if e.Invoke? {
      SelfAside(s, n);
      if UserOnTop(s) { InvokeAside(s, e.h, e.args, e.entering, n); }
    } else if e.StartBoundary? || e.Snapshot? || e.SweepOne? || e.FinishBoundary? {
      BoundaryAside(s, e, n);
    } else {
      BuildersAside(s, e, n);
    }
  }

  // ---- Every run -------------------------------------------------------------

  lemma UndoingAtFirst(events: seq<Event>, n: string)
    ensures Undoing(Reached(events[..0]), n)
  {
    assert events[..0] == [];
    ReachedNothing();
  }

  lemma {:induction false} UndoingSoFar(events: seq<Event>, n: string, k: nat)
    requires k <= |events| && forall j :: 0 <= j < k ==> !SetsItself(Reached(events[..j]), events[j], n)
    ensures Undoing(Reached(events[..k]), n)
    decreases k
  {
    hide Undoing, Reached, SetsItself, Step, Inv;
    if k == 0 {
      UndoingAtFirst(events, n);
    } else {
      UndoingSoFar(events, n, k - 1);
      ReachedInv(events[..k - 1]);
      StepUndoes(Reached(events[..k - 1]), events[k - 1], n);
      ReachedNext(events, k - 1);
    }
  }

  // A behavior that sets itself from within the boundary's call has its revert called with a value
  // whose implementation call has not returned, and no earlier one has.
  lemma SelfSetBreaks(s: State, e: Event, n: string)
    requires Inv(s) && Undoing(s, n) && SetsItself(s, e, n)
    ensures !RevertsOk(Step(s, e).log, n)
  {
    hide Inv, Core, Ledger, Pin, BeginToggle, RefAt, ValueAt, BuiltValue, LastReturned, Draining;
    PinnedToggle(s, e.h, e.hint);
    PinnedRecord(s, e.h, e.hint, n);
    var s1 := Pin(s, e.h, e.hint);
    ToggleLog(s1, n, None, e.entering);
    SelfApplied(s, n);
    var t := Step(s, e);
    assert t.log == s.log + [RevertCalled(n, ValueAt(s1, RecordOf(n)))];
    assert t.log[..|s.log|] == s.log;
  }

  lemma SelfApplied(s: State, n: string)
    requires Inv(s) && InDrain(s, n)
    ensures !s.boundaryDone
  {
    hide Ledger, Placed, Truth, Fresh, History;
    assert FrameOk(s, 1);
  }

  // At every point of a run each revert so far was handed the value of the last implementation call of
  // its behavior that had returned, if and only if the behavior never set itself from within the call
  // the boundary made of its implementation.
  lemma RevertUndoesLastReturn(events: seq<Event>, n: string)
    ensures (forall k :: 0 <= k <= |events| ==> RevertsOk(Reached(events[..k]).log, n)) <==>
            (forall k :: 0 <= k < |events| ==> !SetsItself(Reached(events[..k]), events[k], n))
  {
    hide Undoing, Reached, SetsItself, RevertsOk, Step, Inv;
    if forall k :: 0 <= k < |events| ==> !SetsItself(Reached(events[..k]), events[k], n) {
      forall k | 0 <= k <= |events| ensures RevertsOk(Reached(events[..k]).log, n) {
        UndoingSoFar(events, n, k);
        UndoingReverts(Reached(events[..k]), n);
      }
    } else {
      var k :| 0 <= k < |events| && SetsItself(Reached(events[..k]), events[k], n);
      var j := FirstSelfSet(events, n, k);
      UndoingSoFar(events, n, j);
      ReachedInv(events[..j]);
      SelfSetBreaks(Reached(events[..j]), events[j], n);
      ReachedNext(events, j);
    }
  }

  lemma UndoingReverts(s: State, n: string)
    requires Undoing(s, n)
    ensures RevertsOk(s.log, n)
  {
    hide RevertsOk;
  }

  lemma {:induction false} FirstSelfSet(events: seq<Event>, n: string, k: nat) returns (j: nat)
    requires k < |events| && SetsItself(Reached(events[..k]), events[k], n)
    ensures j <= k && SetsItself(Reached(events[..j]), events[j], n)
    ensures forall i :: 0 <= i < j ==> !SetsItself(Reached(events[..i]), events[i], n)
    decreases k
  {
    hide Reached, SetsItself;
    if i :| 0 <= i < k && SetsItself(Reached(events[..i]), events[i], n) {
      j := FirstSelfSet(events, n, i);
    } else {
      j := k;
    }
  }

  // Such a run: the boundary calls the implementation of a behavior, which sets the behavior, and revert
  // is called although nothing has returned yet.
  lemma RevertBeforeReturn()
    ensures exists events ::
              var l := Reached(events).log;
              l != [] && l[|l| - 1].RevertCalled? && LastReturned(l[..|l| - 1], l[|l| - 1].name) == None
  {
    hide Inv, Step, Run, Reaches, LastReturned, RefAt, BuiltValue;
    var s := FirstInvocation(true);
    var n := NameOf(0);
    var s1 := BuildOne(Init(), s);
    StepKeeps(s, Build(Obj(1), 0));
    RevertStands(s, s1, n);
    var e := Set(n, s.nextHandle, "", "", false, 0, PLAIN);
    assert TogglesInline(s1, e) by { ReadyInDrain(s1, e); }
    OneStep(Init(), s1, e);
    SelfSetLog(s1, e, n);
    NothingReturned(s1.log, n);
    var t := Step(s1, e);
    assert t.log[..|t.log| - 1] == s1.log;
    ReachedBy(t);
    var events :| Reached(events) == t;
    assert Reached(events).log[|t.log| - 1].name == n;
  }

  lemma ReadyInDrain(s: State, e: Event)
    requires UserOnTop(s) && e.Set? && !e.earlyStop && e.n in s.store && s.store[e.n].applied && BuiltValue(s, e.h)
    requires RefAt(s, RevertOf(e.n)) != NO_REF
    ensures TogglesInline(s, e)
  {
    hide BuiltValue, RefAt;
  }

  lemma ReachedBy(t: State)
    requires Reaches(Init(), t)
    ensures exists events :: Reached(events) == t
  {
    hide Run;
    var events :| Run(Init(), events) == t;
    assert Reached(events) == t;
  }

  lemma SelfSetLog(s: State, e: Event, n: string)
    requires Inv(s) && TogglesInline(s, e) && e.n == n && s.store[n].applied
    ensures exists v :: Step(s, e).log == s.log + [RevertCalled(n, v)]
  {
    hide Inv, Core, Ledger, Pin, BeginToggle, RefAt, ValueAt, BuiltValue;
    PinnedToggle(s, e.h, e.hint);
    PinnedRecord(s, e.h, e.hint, n);
    ToggleLog(Pin(s, e.h, e.hint), n, None, e.entering);
  }

  lemma NothingReturned(l: seq<Entry>, n: string)
    requires exists v, p :: l == [DrainCalled(n, v, p), ImplCalled(n, v)]
    ensures LastReturned(l, n) == None
  {
    assert l[..1][..0] == [];
    assert LastReturned(l[..1], n) == None;
  }
}
