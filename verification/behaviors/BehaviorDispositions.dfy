/**
 What the end of a callback leaves behind: the four dispositions of a toggle.
 */
module BehaviorDispositions {
  import opened Options
  import opened RefLedger
  import opened BehaviorSteps
  import opened BehaviorEffects
  import opened BehaviorInvariant
  import opened BehaviorPreservation
  import opened BehaviorRuns
  import opened BehaviorTheorems
  import opened BehaviorScripts

  // The behavior itself and its answer are as they were.
  ghost predicate Untouched(s: State, t: State, n: string) {
    n in s.store && n in t.store && t.store[n] == s.store[n] &&
    RefAt(t, RecordOf(n)) == RefAt(s, RecordOf(n)) && CurrentValue(t, n) == CurrentValue(s, n)
  }

  // Unset and not applied; the answer is the default again, under a new generation.
  ghost predicate BackToDefault(s: State, t: State, n: string) {
    n in s.store && n in t.store && !t.store[n].applied && RefAt(t, RecordOf(n)) == NO_REF &&
    CurrentValue(t, n) == ValueAt(s, DefaultOf(n)) && t.store[n].valueGeneration == s.store[n].valueGeneration + 1
  }

  // Applied with v on record, under a new generation.
  ghost predicate NowAnswers(s: State, t: State, n: string, v: Value) {
    n in s.store && n in t.store && t.store[n].applied && RefAt(t, RecordOf(n)) != NO_REF &&
    CurrentValue(t, n) == v && t.store[n].valueGeneration == s.store[n].valueGeneration + 1
  }

  // The state in which a toggle gets the stack back from its callback.
  lemma Resumed(s: State, raised: bool, e: Entering)
    requires Inv(s) && |s.frames| > 1 && Top(s).User? && s.frames[|s.frames| - 2].Toggle?
    ensures var t := Leave(s, raised);
            Ledger(t) && t.frames != [] && Top(t) == s.frames[|s.frames| - 2] && Top(t).name in t.store &&
            DoReturn(s, raised, e) == ResumeToggle(t, raised, e) && t.log == s.log &&
            t.frames == s.frames[..|s.frames| - 1] && RefAt(t, HandleOf(t.nextHandle)) == NO_REF &&
            (forall m :: m in s.store ==> Untouched(s, t, m) && ValueAt(t, DefaultOf(m)) == ValueAt(s, DefaultOf(m))) &&
            ValueAt(t, FrameOf(|s.frames| - 2)) == Top(t).stage.value && RefAt(t, FrameOf(|s.frames| - 2)) != NO_REF
  {
    hide Inv, Leave, ResumeToggle, DoReturn, Ledger, Placed, Stack, Truth, Fresh, History, RefAt, ValueAt;
    ReturnToToggle(s, raised, e);
    assert RefAt(Leave(s, raised), HandleOf(Leave(s, raised).nextHandle)) == NO_REF by { NoHandle(Leave(s, raised)); }
    LeaveAnswers(s, raised);
    StageValue(s, |s.frames| - 2);
    LeaveCells(s, raised, |s.frames| - 2);
  }

  lemma NoHandle(s: State)
    requires Core(s)
    ensures RefAt(s, HandleOf(s.nextHandle)) == NO_REF && Ledger(s)
  {
    NoHandleYet(s);
  }

  lemma LeaveAnswers(s: State, raised: bool)
    requires Inv(s) && s.frames != [] && Top(s).User?
    ensures var t := Leave(s, raised);
            t.store == s.store &&
            forall m :: RefAt(t, RecordOf(m)) == RefAt(s, RecordOf(m)) && CurrentValue(t, m) == CurrentValue(s, m) &&
                        ValueAt(t, DefaultOf(m)) == ValueAt(s, DefaultOf(m))
  {
    hide Ledger, Placed, Stack, Truth, Fresh, History, RefAt, Deref, ReleaseTransient;
    SameCellsKeepsLedger(s, Pop(s));
    if Top(s).transient.Some? {
      ReleaseTransientCells(Pop(s), Top(s).transient.value);
    }
  }

  // How a toggle goes on when its callback has ended: revert raised -- nothing changes; revert
  // returned -- the implementation is called with the new value; implementation raised -- unset;
  // implementation returned -- the new value is the answer.
  ghost predicate Disposed(s: State, t: State, raised: bool)
    requires |s.frames| > 1 && s.frames[|s.frames| - 2].Toggle?
  {
    var n := s.frames[|s.frames| - 2].name;
    match s.frames[|s.frames| - 2].stage
    case Reverting(v) =>
      Untouched(s, t, n) &&
      if raised then t.frames == s.frames[..|s.frames| - 2] && t.log == s.log
      else t.frames != [] && Top(t).User? && t.log == s.log + [ImplCalled(n, v)]
    case Implementing(v) =>
      t.frames == s.frames[..|s.frames| - 2] &&
      if raised then BackToDefault(s, t, n) && t.log == s.log
      else NowAnswers(s, t, n, v) && t.log == s.log + [ImplReturned(n, v)]
  }

  // So it is in every state of every run, and wherever in the stack the toggle sits.
  lemma ToggleDispositions(events: seq<Event>, raised: bool, e: Entering)
    requires var s := Reached(events); |s.frames| > 1 && Top(s).User? && s.frames[|s.frames| - 2].Toggle?
    ensures Disposed(Reached(events), Step(Reached(events), Return(raised, e)), raised)
  {
    hide Inv, Disposed, Reached, DoReturn;
    ReachedInv(events);
    DisposedByReturn(Reached(events), raised, e);
  }

  lemma DisposedByReturn(s: State, raised: bool, e: Entering)
    requires Inv(s) && |s.frames| > 1 && Top(s).User? && s.frames[|s.frames| - 2].Toggle?
    ensures Disposed(s, DoReturn(s, raised, e), raised)
  {
    hide Inv, DoReturn, Leave, Untouched, BackToDefault, NowAnswers;
    hide DropToggle, CommitToggle, ClearRecord, CallImplementation, RefAt, ValueAt, Ledger;
    Resumed(s, raised, e);
    var t := Leave(s, raised);
    InvToggleKnown(s, |s.frames| - 2);
    match Top(t).stage {
      case Reverting(v) => if raised { RevertRaisedKeeps(s, t); } else { RevertReturned(s, t, e); }
      case Implementing(v) => if raised { ImplementationRaisedClears(s, t); } else { ImplementationReturned(s, t); }
    }
  }

  lemma InvToggleKnown(s: State, i: nat)
    requires Inv(s) && i < |s.frames| && s.frames[i].Toggle?
    ensures s.frames[i].name in s.store
  {
    hide Ledger, Placed, Truth, Fresh, History;
    assert FrameOk(s, i);
  }

  // s is the state before the callback ended, t the one in which the toggle resumes.
  lemma RevertRaisedKeeps(s: State, t: State)
    requires Ledger(t) && t.frames != [] && Top(t).Toggle? && Untouched(s, t, Top(t).name)
    ensures var u := DropToggle(t);
            Untouched(s, u, Top(t).name) && u.frames == t.frames[..|t.frames| - 1] && u.log == t.log
  {
    hide Ledger, DropToggle, RefAt, ValueAt;
    DropToggleCells(t);
  }

  lemma RevertReturned(s: State, t: State, e: Entering)
    requires Ledger(t) && t.frames != [] && Top(t).Toggle? && Untouched(s, t, Top(t).name)
    requires ValueAt(t, FrameOf(|t.frames| - 1)) == Top(t).stage.value
    requires RefAt(t, HandleOf(t.nextHandle)) == NO_REF
    ensures var u := CallImplementation(t, e);
            Untouched(s, u, Top(t).name) && u.log == t.log + [ImplCalled(Top(t).name, Top(t).stage.value)] &&
            u.frames != [] && Top(u).User?
  {
    hide Ledger, Enter;
    var Toggle(n, _, queuedBy) := Top(t);
    var v := ValueAt(t, FrameOf(|t.frames| - 1));
    var t1 := Log(SetTop(t, Toggle(n, Implementing(v), queuedBy)), ImplCalled(n, v));
    SameCellsKeepsLedger(t, t1);
    EnterCells(t1, ImplOf(n), [v], e);
  }

  lemma ImplementationRaisedClears(s: State, t: State)
    requires Ledger(t) && t.frames != [] && Top(t).Toggle? && Untouched(s, t, Top(t).name)
    requires ValueAt(t, DefaultOf(Top(t).name)) == ValueAt(s, DefaultOf(Top(t).name))
    ensures var u := ClearRecord(DropToggle(t), Top(t).name);
            BackToDefault(s, u, Top(t).name) && u.frames == t.frames[..|t.frames| - 1] && u.log == t.log
  {
    hide Ledger, DropToggle, ClearRecord, RefAt, ValueAt;
    DropToggleCells(t);
    ClearRecordCells(DropToggle(t), Top(t).name);
  }

  lemma ImplementationReturned(s: State, t: State)
    requires Ledger(t) && t.frames != [] && Top(t).Toggle? && Top(t).stage.Implementing? && Untouched(s, t, Top(t).name)
    requires ValueAt(t, FrameOf(|t.frames| - 1)) == Top(t).stage.value && RefAt(t, FrameOf(|t.frames| - 1)) != NO_REF
    ensures var n := Top(t).name; var v := Top(t).stage.value; var u := CommitToggle(Log(t, ImplReturned(n, v)));
            NowAnswers(s, u, n, v) && u.frames == t.frames[..|t.frames| - 1] && u.log == t.log + [ImplReturned(n, v)]
  {
    hide Ledger, CommitToggle, RefAt, Deref;
    var t1 := Log(t, ImplReturned(Top(t).name, Top(t).stage.value));
    SameCellsKeepsLedger(t, t1);
    CommitToggleCells(t1);
  }
}
