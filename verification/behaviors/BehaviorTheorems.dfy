/**
 What holds of every run of the behavior layer, callbacks that set, toggle, declare, build and
 raise included.  All statements quantify over every sequence of events from the start.
 */
module BehaviorTheorems {
  import opened Options
  import opened RefLedger
  import opened BehaviorSteps
  import opened BehaviorInvariant
  import opened BehaviorPreservation
  import opened BehaviorRuns

  ghost function Reached(events: seq<Event>): State {
    Run(Init(), events)
  }

  lemma ReachedInv(events: seq<Event>)
    ensures Inv(Reached(events))
  {
    hide Inv;
    InitInv();
    RunKeeps(Init(), events);
  }

  lemma {:induction false} RunAppend(s: State, es: seq<Event>, fs: seq<Event>)
    ensures Run(s, es + fs) == Run(Run(s, es), fs)
    decreases |es|
  {
    hide Step;
    if es == [] {
      assert es + fs == fs;
    } else {
      assert (es + fs)[0] == es[0] && (es + fs)[1..] == es[1..] + fs;
      RunAppend(Step(s, es[0]), es[1..], fs);
    }
  }

  // ---- Conservation of references --------------------------------------------

  // At every step of every run a live registry slot has exactly one owner, which exists (a
  // field of a declared behavior, an unconsumed built handle or a toggle on the stack, and no
  // stray local); a held reference is live; and no freed slot was ever released or read again.
  lemma RefConservation(events: seq<Event>)
    ensures var s := Reached(events);
            !s.fault &&
            (forall r :: r in s.slots ==>
              RefAt(s, s.slots[r].owner) == r && Home(s, s.slots[r].owner) && !s.slots[r].owner.Local?) &&
            (forall c :: RefAt(s, c) >= 0 ==> RefAt(s, c) in s.slots) &&
            (forall c, d :: RefAt(s, c) >= 0 && RefAt(s, c) == RefAt(s, d) ==> c == d)
  {
    hide Stack, Truth, Fresh, History;
    var s := Reached(events);
    ReachedInv(events);
    forall r | r in s.slots
      ensures RefAt(s, s.slots[r].owner) == r && Home(s, s.slots[r].owner) && !s.slots[r].owner.Local?
    {
      assert RefAt(s, s.slots[r].owner) != NO_REF;
    }
  }

  // ---- The engine never lies -------------------------------------------------

  // Once the boundary has completed, even while callbacks run, get() answers the default or a
  // value the implementation was called with and returned from; and it is on record exactly
  // when the behavior counts as applied.
  lemma NeverLies(events: seq<Event>, n: string)
    requires Reached(events).boundaryDone && n in Reached(events).store
    ensures var s := Reached(events);
            (s.store[n].applied <==> RefAt(s, RecordOf(n)) != NO_REF) &&
            (!s.store[n].applied ==> CurrentValue(s, n) == ValueAt(s, DefaultOf(n))) &&
            (s.store[n].applied ==>
              ImplCalled(n, CurrentValue(s, n)) in s.log && ImplReturned(n, CurrentValue(s, n)) in s.log)
  {
    hide Ledger, Placed, Fresh, History;
    var s := Reached(events);
    ReachedInv(events);
    assert TruthOf(s, n);
    DoneMeansNoDrain(s);
  }

  lemma DoneMeansNoDrain(s: State)
    requires Stack(s) && s.boundaryDone
    ensures !Draining(s)
  {
    assert |s.frames| > 1 ==> FrameOk(s, 1);
  }

  // A value handed to revert was handed to the same behavior's implementation before.
  lemma RevertUndoesTheImplementation(events: seq<Event>, i: nat)
    requires i < |Reached(events).log| && Reached(events).log[i].RevertCalled?
    ensures var l := Reached(events).log; exists j :: 0 <= j < i && l[j] == ImplCalled(l[i].name, l[i].value)
  {
    hide Ledger, Placed, Stack, Truth, Fresh;
    var s := Reached(events);
    ReachedInv(events);
    assert EntryOk(s, i);
    var j :| 0 <= j < i && s.log[..i][j] == ImplCalled(s.log[i].name, s.log[i].value);
  }

  // ---- The drain -------------------------------------------------------------

  // The drain invokes a behavior once at most, pass after pass, and in ascending declare order
  // within a pass.
  lemma DrainOrder(events: seq<Event>, i: nat, j: nat)
    requires i < j < |Reached(events).log| && Reached(events).log[i].DrainCalled? && Reached(events).log[j].DrainCalled?
    ensures var s := Reached(events); var a, b := s.log[i], s.log[j];
            a.name in s.store && b.name in s.store && a.name != b.name && a.pass <= b.pass &&
            (a.pass == b.pass ==> s.store[a.name].declareSeq < s.store[b.name].declareSeq)
  {
    hide Ledger, Placed, Stack, Truth, Fresh;
    var s := Reached(events);
    ReachedInv(events);
    assert EntryOk(s, i) && EntryOk(s, j);
  }

  // The names the drain has invoked, in order.
  function DrainCalls(l: seq<Entry>): (names: seq<string>)
    ensures forall n :: n in names ==> exists i :: 0 <= i < |l| && l[i].DrainCalled? && l[i].name == n
  {
    if l == [] then [] else
    var rest := DrainCalls(l[..|l| - 1]);
    if l[|l| - 1].DrainCalled? then rest + [l[|l| - 1].name] else rest
  }

  ghost predicate NoRepeats(names: seq<string>) {
    forall i, j :: 0 <= i < j < |names| ==> names[i] != names[j]
  }

  lemma {:induction false} NoRepeatsBound(names: seq<string>, within: set<string>)
    requires NoRepeats(names) && forall n :: n in names ==> n in within
    ensures |names| <= |within|
    decreases |names|
  {
    if names != [] {
      var last := names[|names| - 1];
      NoRepeatsBound(names[..|names| - 1], within - {last});
    }
  }

  lemma {:induction false} DrainCallsNoRepeats(l: seq<Entry>)
    requires forall i, j :: 0 <= i < j < |l| && l[i].DrainCalled? && l[j].DrainCalled? ==> l[i].name != l[j].name
    ensures NoRepeats(DrainCalls(l))
    decreases |l|
  {
    if l != [] {
      var k := |l| - 1;
      DrainCallsNoRepeats(l[..k]);
      forall n | n in DrainCalls(l[..k]) ensures l[k].DrainCalled? ==> n != l[k].name {
        var i :| 0 <= i < k && l[..k][i].DrainCalled? && l[..k][i].name == n;
        assert l[i].DrainCalled?;
      }
      var rest, names := DrainCalls(l[..k]), DrainCalls(l);
      forall i, j | 0 <= i < j < |names| ensures names[i] != names[j] {
        assert names[i] == rest[i] && rest[i] in rest;
      }
    }
  }

  // However the implementations behave, the drain has invoked no more implementations than
  // there are behaviors: with no declare on the way, the number is fixed when it starts.
  lemma DrainBound(events: seq<Event>)
    ensures var s := Reached(events);
            |DrainCalls(s.log)| <= |s.store| && forall n :: n in DrainCalls(s.log) ==> n in s.store
  {
    hide Ledger, Placed, Stack, Truth, Fresh;
    var s := Reached(events);
    ReachedInv(events);
    forall n | n in DrainCalls(s.log) ensures n in s.store {
      var i :| 0 <= i < |s.log| && s.log[i].DrainCalled? && s.log[i].name == n;
      assert EntryOk(s, i);
    }
    DrainCallsNoRepeats(s.log);
    NoRepeatsBound(DrainCalls(s.log), s.store.Keys);
  }

  // What the drain does next: the next name of the pass is set and not applied (the re-check at
  // the head of the loop never fires), it has the least declare sequence of those left, and its
  // implementation is called with the value on record at that moment.
  lemma DrainInvokesTheRecord(events: seq<Event>, entering: Entering)
    requires DrainOnTop(Reached(events)) && Top(Reached(events)).pass != []
    ensures var s := Reached(events); var t := Step(s, DrainNext(entering)); var n := Top(s).pass[0];
            Pending(s, n) && n !in DrainCalls(s.log) &&
            (forall m :: m in Top(s).pass && m != n ==>
              m in s.store && s.store[n].declareSeq < s.store[m].declareSeq) &&
            t.log == s.log + [DrainCalled(n, CurrentValue(s, n), Top(s).passNo), ImplCalled(n, CurrentValue(s, n))]
  {
    hide Ledger, Placed, Truth, Fresh, Enter;
    var s := Reached(events);
    ReachedInv(events);
    HeadPending(s);
    DrainAtBottom(s);
    DrainNextEnters(s, entering);
    var n := Top(s).pass[0];
    forall m | m in DrainCalls(s.log) ensures m in Top(s).invoked {
      var i :| 0 <= i < |s.log| && s.log[i].DrainCalled? && s.log[i].name == m;
      assert EntryOk(s, i);
    }
    PassPending(s);
    assert n in Top(s).pass;
    EnterLog(Invoked(s), ImplOf(n), [ValueAt(s, RecordOf(n))], entering);
  }

  predicate DrainOnTop(s: State) {
    s.frames != [] && Top(s).Drain?
  }

  lemma EnterLog(s: State, fn: Cell, args: seq<Value>, entering: Entering)
    ensures Enter(s, fn, args, entering).log == s.log
  {}

  // ---- Generations -----------------------------------------------------------

  // Over any stretch of any run a generation never falls, and while it stands get() answers the
  // same slot and the same value: a changed answer always shows in the generation.
  lemma GenerationTracksTheAnswer(before: seq<Event>, after: seq<Event>, n: string)
    requires n in Reached(before).store
    ensures var s := Reached(before); var t := Reached(before + after);
            n in t.store && s.store[n].valueGeneration <= t.store[n].valueGeneration &&
            (s.store[n].valueGeneration == t.store[n].valueGeneration ==>
               RefAt(t, CurrentCell(t, n)) == RefAt(s, CurrentCell(s, n)) && CurrentValue(t, n) == CurrentValue(s, n))
  {
    hide Inv, Run;
    ReachedInv(before);
    RunAppend(Init(), before, after);
    RunKeeps(Reached(before), after);
    assert AdvancesOn(Reached(before), Reached(before + after), n);
  }
}
