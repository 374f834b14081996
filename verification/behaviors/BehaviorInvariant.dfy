/**
 What every state of every run satisfies.

 `Core` also holds between the C++ statements of one engine segment, when a local may hold a
 reference and the engine may be on top of the stack; `Inv` holds whenever a step is over.
 */
module BehaviorInvariant {
  import opened Options
  import opened RefLedger
  import opened BehaviorSteps

  // The object a cell belongs to exists.
  predicate Home(s: State, c: Cell) {
    match c
    case DefaultOf(n) => n in s.store
    case ImplOf(n) => n in s.store
    case RevertOf(n) => n in s.store
    case RecordOf(n) => n in s.store
    case HandleOf(h) => h in s.handles && s.handles[h].BuiltHandle? && !s.handles[h].consumed
    case FrameOf(i) => i < |s.frames| && s.frames[i].Toggle?
    case Local(_) => true
  }

  ghost predicate Placed(s: State) {
    && (forall c :: RefAt(s, c) != NO_REF ==> Home(s, c))
    && (forall h :: h in s.handles ==> h < s.nextHandle)
    && (s.queue != [] ==> s.boundaryDone)
    && (forall n :: n in s.store ==> RefAt(s, DefaultOf(n)) != NO_REF && s.store[n].declareSeq <= s.nextSeq)
    && (forall n, m :: n in s.store && m in s.store && s.store[n].declareSeq == s.store[m].declareSeq ==> n == m)
  }

  // ---- The call stack --------------------------------------------------------

  predicate Draining(s: State) {
    |s.frames| > 1 && s.frames[1].Drain?
  }

  ghost predicate FrameOk(s: State, i: nat)
    requires i < |s.frames|
  {
    match s.frames[i]
    case Main => i == 0
    case Drain(invoked, pass, calling, _, _) =>
      i == 1 && !s.boundaryDone && (forall n :: n in invoked ==> n in s.store) &&
      (|s.frames| > 2 ==> calling.Some?) &&
      (calling.Some? ==> calling.value in invoked) &&
      (forall n :: n in pass ==> Pending(s, n) && n !in invoked) &&
      (forall j, k :: 0 <= j < k < |pass| ==>
         pass[j] in s.store && pass[k] in s.store && s.store[pass[j]].declareSeq < s.store[pass[k]].declareSeq)
    case Toggle(n, stage, _) =>
      i % 2 == 1 && n in s.store && RefAt(s, FrameOf(i)) != NO_REF &&
      stage.value == ValueAt(s, FrameOf(i)) && (stage.Implementing? ==> ImplCalled(n, stage.value) in s.log) &&
      (s.boundaryDone || (Draining(s) && n in s.frames[1].invoked))
    case Calling => i % 2 == 1
    case User(_, _, _) => i % 2 == 0 && i > 0
  }

  ghost predicate Stack(s: State) {
    && s.frames != []
    && (forall i :: 0 <= i < |s.frames| ==> FrameOk(s, i))
  }

  // ---- The record ------------------------------------------------------------

  predicate BeingCalled(s: State, n: string, v: Value) {
    Draining(s) && s.frames[1].calling == Some(n) && s.frames[1].callingValue == v
  }

  ghost predicate TruthOf(s: State, n: string)
    requires n in s.store
  {
    && (s.store[n].applied ==>
          RefAt(s, RecordOf(n)) != NO_REF &&
          ImplCalled(n, ValueAt(s, RecordOf(n))) in s.log &&
          (ImplReturned(n, ValueAt(s, RecordOf(n))) in s.log || BeingCalled(s, n, ValueAt(s, RecordOf(n)))))
    && (s.boundaryDone && RefAt(s, RecordOf(n)) != NO_REF ==> s.store[n].applied)
    && (!s.boundaryDone && s.store[n].applied ==> Draining(s) && n in s.frames[1].invoked)
  }

  ghost predicate Truth(s: State) {
    forall n :: n in s.store ==> TruthOf(s, n)
  }

  // ---- The value handles -----------------------------------------------------

  ghost predicate HandleOk(s: State, h: nat)
    requires h in s.handles
  {
    s.handles[h].BehaviorHandle? ==>
      var n := s.handles[h].fullName;
      n in s.store &&
      s.handles[h].mintedGeneration <= s.store[n].valueGeneration &&
      (s.handles[h].mintedGeneration == s.store[n].valueGeneration ==>
         CurrentValue(s, n) == s.handles[h].mintedValue)
  }

  ghost predicate Fresh(s: State) {
    forall h :: h in s.handles ==> HandleOk(s, h)
  }

  // ---- The history -----------------------------------------------------------

  ghost predicate EntryOk(s: State, i: nat)
    requires i < |s.log|
  {
    match s.log[i]
    case RevertCalled(n, v) => ImplCalled(n, v) in s.log[..i]
    case DrainCalled(n, _, p) =>
      n in s.store && (s.boundaryDone || Draining(s)) &&
      (Draining(s) ==>
         n in s.frames[1].invoked && p <= s.frames[1].passNo &&
         (p == s.frames[1].passNo ==>
            forall m :: m in s.frames[1].pass && m in s.store ==> s.store[n].declareSeq < s.store[m].declareSeq))
    case ImplCalled(_, _) => true
    case ImplReturned(_, _) => true
  }

  ghost predicate History(s: State) {
    && (forall i :: 0 <= i < |s.log| ==> EntryOk(s, i))
    && (forall i, j :: 0 <= i < j < |s.log| && s.log[i].DrainCalled? && s.log[j].DrainCalled? ==>
          s.log[i].name != s.log[j].name && s.log[i].pass <= s.log[j].pass &&
          (s.log[i].pass == s.log[j].pass && s.log[i].name in s.store && s.log[j].name in s.store ==>
             s.store[s.log[i].name].declareSeq < s.store[s.log[j].name].declareSeq))
  }

  ghost predicate Core(s: State) {
    Ledger(s) && Placed(s) && Stack(s) && Truth(s) && Fresh(s) && History(s)
  }

  // No engine segment is running.
  ghost predicate AtRest(s: State) {
    && (forall k :: RefAt(s, Local(k)) == NO_REF)
    && s.frames != []
    && (Top(s).Main? || Top(s).User? || (Top(s).Drain? && Top(s).calling.None?))
  }

  ghost predicate Inv(s: State) {
    Core(s) && AtRest(s)
  }

  // What no step undoes: generations only grow, and while a behavior's generation stands its
  // record stands, by reference and by value.
  ghost predicate AdvancesOn(s: State, t: State, n: string)
    requires n in s.store
  {
    && n in t.store
    && t.store[n].declareSeq == s.store[n].declareSeq && t.store[n].tier == s.store[n].tier
    && t.store[n].valueGeneration >= s.store[n].valueGeneration
    && RefAt(t, DefaultOf(n)) == RefAt(s, DefaultOf(n)) && ValueAt(t, DefaultOf(n)) == ValueAt(s, DefaultOf(n))
    && RefAt(t, ImplOf(n)) == RefAt(s, ImplOf(n)) && RefAt(t, RevertOf(n)) == RefAt(s, RevertOf(n))
    && ValueAt(t, ImplOf(n)) == ValueAt(s, ImplOf(n)) && ValueAt(t, RevertOf(n)) == ValueAt(s, RevertOf(n))
    && (t.store[n].valueGeneration == s.store[n].valueGeneration ==>
          RefAt(t, RecordOf(n)) == RefAt(s, RecordOf(n)) && ValueAt(t, RecordOf(n)) == ValueAt(s, RecordOf(n)))
  }

  ghost predicate Advances(s: State, t: State) {
    forall n :: n in s.store ==> AdvancesOn(s, t, n)
  }

  lemma AdvancesTransitive(s: State, t: State, u: State)
    requires Advances(s, t) && Advances(t, u)
    ensures Advances(s, u)
  {
    forall n | n in s.store ensures AdvancesOn(s, u, n) {
      assert AdvancesOn(s, t, n) && AdvancesOn(t, u, n);
    }
  }

  // Handles that a step keeps stay truthful when the step advances.
  lemma FreshAdvances(s: State, t: State)
    requires Fresh(s) && Advances(s, t)
    requires forall h :: h in t.handles && t.handles[h].BehaviorHandle? ==>
               h in s.handles && t.handles[h] == s.handles[h]
    ensures Fresh(t)
  {
    forall h | h in t.handles ensures HandleOk(t, h) {
      if t.handles[h].BehaviorHandle? {
        assert HandleOk(s, h);
        assert AdvancesOn(s, t, s.handles[h].fullName);
      }
    }
  }
}
