/**
 The read-copy-update stores, as steps of interleaved threads: a write loads the current
 snapshot, builds a copy with its one change and publishes it; a read loads the current snapshot
 and looks a key up in it.  Every atomic load or store is one step.
 */
module SnapshotStore {
  import opened Options

  type Key = string
  datatype Item = Item(owner: string, disk: string)
  type Snapshot = map<Key, Item>

  // `seen` and `answer` are what a read is about: the map that was current when it loaded.
  datatype Thread =
    | Idle
    | Loaded(key: Key, item: Item, base: nat)
    | Built(key: Key, item: Item, base: nat, next: nat)
    | Reading(key: Key, snap: nat, seen: Snapshot)
    | Answered(key: Key, seen: Snapshot, answer: Option<Item>)

  datatype Write = Write(key: Key, item: Item)

  // Snapshots are addresses: the index is the pointer, and none is ever freed.
  datatype Store = Store(snapshots: seq<Snapshot>, current: nat, threads: map<nat, Thread>, writes: seq<Write>) {
    ghost predicate Valid() {
      current < |snapshots| &&
      forall t :: t in threads ==>
        match threads[t]
        case Loaded(_, _, base) => base < |snapshots|
        case Built(key, item, base, next) =>
          base < |snapshots| && next < |snapshots| && snapshots[next] == snapshots[base][key := item]
        case Reading(_, snap, seen) => snap < |snapshots| && snapshots[snap] == seen
        case Answered(key, seen, answer) => answer == Find(seen, key)
        case Idle => true
    }

    function At(t: nat): Thread {
      if t in threads then threads[t] else Idle
    }

    function Set(t: nat, th: Thread): Store {
      this.(threads := threads[t := th])
    }
  }

  function Find(m: Snapshot, k: Key): Option<Item> {
    if k in m then Some(m[k]) else None
  }

  function Init(): Store {
    Store([map[]], 0, map[], [])
  }

  datatype Event =
    | WriteLoad(t: nat, key: Key, item: Item)
    | WriteBuild(t: nat)
    | WriteStore(t: nat)
    | ReadLoad(t: nat, key: Key)
    | ReadFind(t: nat)

  // An event its thread is not ready for changes nothing.
  function Step(s: Store, e: Event): Store {
    match e
    case WriteLoad(t, key, item) =>
      if s.At(t).Idle? || s.At(t).Answered? then s.Set(t, Loaded(key, item, s.current)) else s
    case WriteBuild(t) =>
      if s.At(t).Loaded? && s.At(t).base < |s.snapshots| then
        var th := s.At(t);
        s.(snapshots := s.snapshots + [s.snapshots[th.base][th.key := th.item]]).Set(t,
            Built(th.key, th.item, th.base, |s.snapshots|))
      else s
    case WriteStore(t) =>
      if s.At(t).Built? then
        s.(current := s.At(t).next, writes := s.writes + [Write(s.At(t).key, s.At(t).item)]).Set(t, Idle)
      else s
    case ReadLoad(t, key) =>
      if (s.At(t).Idle? || s.At(t).Answered?) && s.current < |s.snapshots| then
        s.Set(t, Reading(key, s.current, s.snapshots[s.current]))
      else s
    case ReadFind(t) =>
      if s.At(t).Reading? && s.At(t).snap < |s.snapshots| then
        s.Set(t, Answered(s.At(t).key, s.At(t).seen, Find(s.snapshots[s.At(t).snap], s.At(t).key)))
      else s
  }

  function Run(s: Store, events: seq<Event>): Store
    decreases |events|
  {
    if events == [] then s else Run(Step(s, events[0]), events[1..])
  }

  // ---- Snapshots are never changed, reads answer from one of them -------------

  lemma StepKeeps(s: Store, e: Event)
    requires s.Valid()
    ensures Step(s, e).Valid() && s.snapshots <= Step(s, e).snapshots
  {}

  lemma {:induction false} RunKeeps(s: Store, events: seq<Event>)
    requires s.Valid()
    ensures Run(s, events).Valid() && s.snapshots <= Run(s, events).snapshots
    decreases |events|
  {
    hide Step;
    if events != [] {
      StepKeeps(s, events[0]);
      RunKeeps(Step(s, events[0]), events[1..]);
    }
  }

  // While its load and its find have any other steps in between, a read answers from the map that
  // was current at its load step.
  lemma ReadsOneSnapshot(before: seq<Event>, t: nat, key: Key, between: seq<Event>)
    requires var s := Run(Init(), before); s.At(t).Idle? || s.At(t).Answered?
    requires forall e :: e in between ==> e.t != t
    ensures var s := Run(Init(), before);
            s.current < |s.snapshots| &&
            var u := Run(Step(s, ReadLoad(t, key)), between);
            Step(u, ReadFind(t)).At(t) == Answered(key, s.snapshots[s.current], Find(s.snapshots[s.current], key))
  {
    hide Run;
    RunKeeps(Init(), before);
    var s := Run(Init(), before);
    StepKeeps(s, ReadLoad(t, key));
    OthersDoNotTouch(Step(s, ReadLoad(t, key)), between, t);
    RunKeeps(Step(s, ReadLoad(t, key)), between);
  }

  lemma {:induction false} OthersDoNotTouch(s: Store, events: seq<Event>, t: nat)
    requires forall e :: e in events ==> e.t != t
    ensures Run(s, events).At(t) == s.At(t)
    decreases |events|
  {
    if events != [] {
      assert events[0] in events;
      forall e | e in events[1..] ensures e.t != t { assert e in events; }
      OthersDoNotTouch(Step(s, events[0]), events[1..], t);
    }
  }

  // ---- No update is lost -----------------------------------------------------

  function Applied(writes: seq<Write>): Snapshot {
    if writes == [] then map[] else
    var n := |writes| - 1;
    Applied(writes[..n])[writes[n].key := writes[n].item]
  }

  predicate Busy(th: Thread) {
    th.Loaded? || th.Built?
  }

  predicate Free(s: Store, t: nat) {
    forall u :: u in s.threads && Busy(s.threads[u]) ==> u == t
  }

  // A write begins only while no other is under way.
  ghost predicate Disjoint(events: seq<Event>) {
    forall k :: 0 <= k < |events| && events[k].WriteLoad? ==> Free(Run(Init(), events[..k]), events[k].t)
  }

  // One writer at most, and what it works on is the current map.
  ghost predicate Serial(s: Store) {
    && s.Valid()
    && (forall t, u :: t in s.threads && u in s.threads && Busy(s.threads[t]) && Busy(s.threads[u]) ==> t == u)
    && (forall t :: t in s.threads && Busy(s.threads[t]) ==> s.threads[t].base == s.current)
  }

  lemma AppliedSnoc(writes: seq<Write>, w: Write)
    ensures Applied(writes + [w]) == Applied(writes)[w.key := w.item]
  {
    assert (writes + [w])[..|writes|] == writes;
  }

  lemma SerialStep(s: Store, e: Event)
    requires Serial(s)
    requires e.WriteLoad? ==> Free(s, e.t)
    ensures Serial(Step(s, e))
  {
    StepKeeps(s, e);
  }

  lemma {:induction false} RunSnoc(s: Store, events: seq<Event>, e: Event)
    ensures Run(s, events + [e]) == Step(Run(s, events), e)
    decreases |events|
  {
    hide Step;
    if events == [] {
      assert events + [e] == [e] && [e][1..] == [];
    } else {
      assert (events + [e])[0] == events[0] && (events + [e])[1..] == events[1..] + [e];
      RunSnoc(Step(s, events[0]), events[1..], e);
    }
  }

  lemma {:induction false} SerialPrefix(events: seq<Event>, k: nat)
    requires Disjoint(events) && k <= |events|
    ensures Serial(Run(Init(), events[..k]))
    decreases k
  {
    hide Step, Serial, Run;
    if k == 0 {
      SerialStart(events);
    } else {
      SerialPrefix(events, k - 1);
      assert events[..k] == events[..k - 1] + [events[k - 1]];
      RunSnoc(Init(), events[..k - 1], events[k - 1]);
      SerialStep(Run(Init(), events[..k - 1]), events[k - 1]);
    }
  }

  lemma SerialStart(events: seq<Event>)
    ensures Serial(Run(Init(), events[..0]))
  {}

  // ---- Exactly when an update is lost ----------------------------------------

  // The current map is the fold of all writes published so far.
  ghost predicate Folded(s: Store) {
    s.current < |s.snapshots| && s.snapshots[s.current] == Applied(s.writes)
  }

  // A copy is published over a map that differs from the one it was made of at the written key only.
  ghost predicate Faithful(s: Store, e: Event) {
    e.WriteStore? && s.At(e.t).Built? ==>
      var th := s.At(e.t);
      th.base < |s.snapshots| && s.current < |s.snapshots| &&
      forall k :: k != th.key ==> Find(s.snapshots[th.base], k) == Find(s.snapshots[s.current], k)
  }

  lemma FoldedStep(s: Store, e: Event)
    requires s.Valid() && Folded(s)
    ensures Folded(Step(s, e)) <==> Faithful(s, e)
  {
    hide Applied;
    StepKeeps(s, e);
    if e.WriteStore? && s.At(e.t).Built? {
      var th := s.At(e.t);
      AppliedSnoc(s.writes, Write(th.key, th.item));
      SameWrite(s.snapshots[th.base], s.snapshots[s.current], th.key, th.item);
    }
  }

  lemma SameWrite(a: Snapshot, b: Snapshot, key: Key, item: Item)
    ensures a[key := item] == b[key := item] <==> forall k :: k != key ==> Find(a, k) == Find(b, k)
  {
    var a1, b1 := a[key := item], b[key := item];
    if a1 == b1 {
      forall k | k != key ensures Find(a, k) == Find(b, k) {
        assert Find(a, k) == Find(a1, k) && Find(b, k) == Find(b1, k);
      }
    }
    if forall k :: k != key ==> Find(a, k) == Find(b, k) {
      forall k ensures (k in a1 <==> k in b1) && (k in a1 ==> a1[k] == b1[k]) {
        if k != key { assert Find(a, k) == Find(b, k); }
      }
    }
  }

  // Whatever the interleaving: at every point of a run the current map is the fold of all writes if
  // and only if every copy was published over a map that agrees with its original off the written key.
  lemma NoUpdateLostIff(events: seq<Event>)
    ensures (forall k :: 0 <= k <= |events| ==> Folded(Run(Init(), events[..k]))) <==>
            (forall k :: 0 <= k < |events| ==> Faithful(Run(Init(), events[..k]), events[k]))
  {
    hide Run, Step, Folded, Faithful;
    if forall k :: 0 <= k <= |events| ==> Folded(Run(Init(), events[..k])) {
      forall k | 0 <= k < |events| ensures Faithful(Run(Init(), events[..k]), events[k]) {
        assert Folded(Run(Init(), events[..k])) && Folded(Run(Init(), events[..k + 1]));
        PrefixStep(events, k);
      }
    }
    if forall k :: 0 <= k < |events| ==> Faithful(Run(Init(), events[..k]), events[k]) {
      forall k | 0 <= k <= |events| ensures Folded(Run(Init(), events[..k])) {
        FoldedPrefix(events, k);
      }
    }
  }

  lemma PrefixStep(events: seq<Event>, k: nat)
    requires k < |events| && Folded(Run(Init(), events[..k]))
    ensures Folded(Run(Init(), events[..k + 1])) <==> Faithful(Run(Init(), events[..k]), events[k])
  {
    hide Run, Step, Folded, Faithful;
    RunKeeps(Init(), events[..k]);
    FoldedStep(Run(Init(), events[..k]), events[k]);
    assert events[..k + 1] == events[..k] + [events[k]];
    RunSnoc(Init(), events[..k], events[k]);
  }

  lemma {:induction false} FoldedPrefix(events: seq<Event>, k: nat)
    requires k <= |events| && forall j :: 0 <= j < k ==> Faithful(Run(Init(), events[..j]), events[j])
    ensures Folded(Run(Init(), events[..k]))
    decreases k
  {
    hide Run, Step, Folded, Faithful;
    if k == 0 {
      FoldedStart(events);
    } else {
      FoldedPrefix(events, k - 1);
      PrefixStep(events, k - 1);
    }
  }

  lemma FoldedStart(events: seq<Event>)
    ensures Folded(Run(Init(), events[..0]))
  {}

  // With writers in disjoint phases and readers wherever they like that is so: the current map is the
  // fold of all writes in the order they were published.
  lemma NoLostUpdate(events: seq<Event>)
    requires Disjoint(events)
    ensures var s := Run(Init(), events); s.current < |s.snapshots| && s.snapshots[s.current] == Applied(s.writes)
  {
    hide Run, Disjoint, Faithful, Serial;
    forall j | 0 <= j < |events| ensures Faithful(Run(Init(), events[..j]), events[j]) {
      SerialPrefix(events, j);
      SerialIsFaithful(Run(Init(), events[..j]), events[j]);
    }
    FoldedPrefix(events, |events|);
    assert events[..|events|] == events;
  }

  lemma SerialIsFaithful(s: Store, e: Event)
    requires Serial(s)
    ensures Faithful(s, e)
  {}

  // Two writers that load the same snapshot, though, lose the first one's update.
  function Overlap(x: Item): seq<Event> {
    [WriteLoad(1, "a", x), WriteLoad(2, "b", x), WriteBuild(1), WriteBuild(2), WriteStore(1), WriteStore(2)]
  }

  lemma OverlappingWritersLose(x: Item)
    ensures var s := Run(Init(), Overlap(x));
            s.current < |s.snapshots| && "a" !in s.snapshots[s.current] && "a" in Applied(s.writes)
  {
    hide Step, Run;
    var s2, s4, s6 := BothLoaded(x), BothBuilt(x), BothStored(x);
    TwoLoads(x);
    TwoBuilds(x);
    TwoStores(x);
    var es := Overlap(x);
    RunTwo(Init(), es[0], es[1], es[2..]);
    RunTwo(s2, es[2], es[3], es[4..]);
    RunTwo(s4, es[4], es[5], []);
    assert es == [es[0], es[1]] + es[2..] && es[2..] == [es[2], es[3]] + es[4..] && es[4..] == [es[4], es[5]] + [];
    RunNothing(s6);
    AppliedSnoc([Write("a", x)], Write("b", x));
    AppliedSnoc([], Write("a", x));
    assert [] + [Write("a", x)] == [Write("a", x)] && [Write("a", x)] + [Write("b", x)] == s6.writes;
  }

  function BothLoaded(x: Item): Store {
    Store([map[]], 0, map[1 := Loaded("a", x, 0), 2 := Loaded("b", x, 0)], [])
  }

  function BothBuilt(x: Item): Store {
    Store([map[], map["a" := x], map["b" := x]], 0, map[1 := Built("a", x, 0, 1), 2 := Built("b", x, 0, 2)], [])
  }

  function BothStored(x: Item): Store {
    Store([map[], map["a" := x], map["b" := x]], 2, map[1 := Idle, 2 := Idle], [Write("a", x), Write("b", x)])
  }

  lemma TwoLoads(x: Item)
    ensures Step(Step(Init(), WriteLoad(1, "a", x)), WriteLoad(2, "b", x)) == BothLoaded(x)
  {}

  lemma TwoBuilds(x: Item)
    ensures Step(Step(BothLoaded(x), WriteBuild(1)), WriteBuild(2)) == BothBuilt(x)
  {}

  lemma TwoStores(x: Item)
    ensures Step(Step(BothBuilt(x), WriteStore(1)), WriteStore(2)) == BothStored(x)
  {}

  lemma RunTwo(s: Store, e: Event, f: Event, es: seq<Event>)
    ensures Run(s, [e, f] + es) == Run(Step(Step(s, e), f), es)
  {
    hide Step;
    var all := [e, f] + es;
    assert all[0] == e && all[1..][0] == f && all[1..][1..] == es;
  }

  lemma RunNothing(s: Store)
    ensures Run(s, []) == s
  {}
}
