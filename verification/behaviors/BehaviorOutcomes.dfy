/**
 How a toggle ends, in terms of the state in which its last callback was about to leave: what the
 callbacks did on their way is theirs, and what the toggle itself adds is said here.
 */
module BehaviorOutcomes {
  import opened Options
  import opened RefLedger
  import opened BehaviorSteps
  import opened BehaviorEffects
  import opened BehaviorInvariant
  import opened BehaviorPreservation
  import opened BehaviorRuns
  import opened BehaviorScripts
  import opened BehaviorDispositions
  import opened BehaviorEdges

  // The toggle of a behavior to a value: `start` is the state in which its first callback is entered.
  datatype Toggling = Toggling(start: State, name: string, value: Value, queuedBy: Option<Edge>)

  // A callback of the toggle was entered on the way and has run its script; it is about to leave in
  // state u, and nothing of the toggle is above it.
  ghost predicate LastCallback(start: State, u: State, script: Script) {
    exists e :: Reaches(start, e) && CalledBack(e, u, script)
  }

  // The user code on top is n's revert.
  predicate RevertRan(u: State, n: string) {
    u.frames != [] && Top(u).User? && Top(u).fn == RevertOf(n)
  }

  // The callback that ran last was the behavior's own, and an implementation had the new value.
  // After a raising revert the behavior is as revert left it, and only the new value is gone; after a
  // raising implementation it is unset; after a returning one it answers the new value.  An edge is left
  // by the last of these only, and by a queued set only.
  ghost predicate Ended(outcome: Outcome, g: Toggling, u: State, t: State, onRevert: Script, onImplementation: Script) {
    match outcome
    case NoRevert => true
    case RevertRaised =>
      LastCallback(g.start, u, onRevert) && RevertRan(u, g.name) && Untouched(u, t, g.name) &&
      t.store == u.store && t.log == u.log && t.edges == u.edges
    case ImplementationRaised =>
      LastCallback(g.start, u, onImplementation) && RanWith(u, ImplOf(g.name), [g.value]) &&
      BackToDefault(u, t, g.name) && t.log == u.log && t.edges == u.edges
    case Toggled =>
      LastCallback(g.start, u, onImplementation) && RanWith(u, ImplOf(g.name), [g.value]) &&
      NowAnswers(u, t, g.name, g.value) &&
      t.log == u.log + [ImplReturned(g.name, g.value)] && t.edges == EdgesAfter(u.edges, g.queuedBy)
  }

  lemma NoRevertEnds(g: Toggling, u: State, t: State, onRevert: Script, onImplementation: Script)
    ensures Ended(NoRevert, g, u, t, onRevert, onImplementation)
  {}

  // The frame below the callback on top is this toggle's, in this stage.
  predicate Below(u: State, toggle: Frame) {
    |u.frames| > 1 && Top(u).User? && u.frames[|u.frames| - 2] == toggle
  }

  lemma RevertRaisedEnds(g: Toggling, u: State, e: Entering, onRevert: Script, onImplementation: Script)
    requires Inv(u) && Below(u, Toggle(g.name, Reverting(g.value), g.queuedBy)) && LastCallback(g.start, u, onRevert)
    requires RevertRan(u, g.name)
    ensures Ended(RevertRaised, g, u, DoReturn(u, true, e), onRevert, onImplementation)
  {
    hide Inv, DoReturn, LastCallback, Untouched, TogglesGo;
    DisposedByReturn(u, true, e);
    ReturnGoes(u, true, e);
    DropStore(u, e);
  }

  lemma DropStore(u: State, e: Entering)
    requires Inv(u) && |u.frames| > 1 && Top(u).User? && u.frames[|u.frames| - 2].Toggle?
    requires u.frames[|u.frames| - 2].stage.Reverting?
    ensures DoReturn(u, true, e).store == u.store
  {
    hide Inv, Core, DoReturn, Leave, DropToggle, RefAt, ValueAt;
    ReturnToToggle(u, true, e);
    DropGoes(Leave(u, true));
  }

  lemma ImplementationEnds(g: Toggling, u: State, e: Entering, raised: bool, onRevert: Script, onImplementation: Script)
    requires Inv(u) && Below(u, Toggle(g.name, Implementing(g.value), g.queuedBy))
    requires LastCallback(g.start, u, onImplementation) && RanWith(u, ImplOf(g.name), [g.value])
    ensures Ended(if raised then ImplementationRaised else Toggled, g, u, DoReturn(u, raised, e), onRevert,
                  onImplementation)
  {
    hide Inv, DoReturn, LastCallback, BackToDefault, NowAnswers, TogglesGo;
    DisposedByReturn(u, raised, e);
    ReturnGoes(u, raised, e);
  }

  lemma CalledLast(start: State, e: State, u: State, script: Script)
    requires Reaches(start, e) && CalledBack(e, u, script)
    ensures LastCallback(start, u, script)
  {
    hide Reaches, CalledBack;
  }
}
