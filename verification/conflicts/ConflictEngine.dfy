/**
 Pairwise conflict detection between the byte ranges that entries write and verify, and what the
 absence of a record means for the order in which patches are applied.
 */
module ConflictEngine {
  import opened Options
  import Strings

  datatype WriteKind = Patch | HookPrologue

  datatype Write = Write(name: string, kind: WriteKind, priority: int, begin: int, end: int)

  datatype Read = Read(name: string, priority: int, begin: int, end: int)

  datatype Category =
    | WriteOnOriginal
    | WriteOnWriteFull
    | WriteOnWritePartial
    | HookOnHook
    | HookOverlapsEarlierPatch
    | PatchOverlapsEarlierHook

  datatype Conflict = Conflict(category: Category, earlier: Write, later: Write, overlapBegin: int, overlapEnd: int)

  // ---- Order and overlap -----------------------------------------------------

  predicate IsEarlier(pa: int, na: string, pb: int, nb: string) {
    if pa != pb then pa < pb else Strings.Before(na, nb)
  }

  predicate Earlier(a: Write, b: Write) {
    IsEarlier(a.priority, a.name, b.priority, b.name)
  }

  predicate Overlaps(a1: int, a2: int, b1: int, b2: int) {
    a1 < b2 && b1 < a2
  }

  predicate In(a: int, begin: int, end: int) {
    begin <= a < end
  }

  // For ranges that hold a byte the test says that they share one, and the intersection is exactly
  // what they share.  (An empty range inside another passes the test and shares nothing.)
  lemma OverlapMeansSharedBytes(a1: int, a2: int, b1: int, b2: int)
    ensures (Overlaps(a1, a2, b1, b2) && a1 < a2 && b1 < b2) <==> exists x :: In(x, a1, a2) && In(x, b1, b2)
    ensures forall x :: In(x, Max(a1, b1), Min(a2, b2)) <==> In(x, a1, a2) && In(x, b1, b2)
  {
    if Overlaps(a1, a2, b1, b2) && a1 < a2 && b1 < b2 {
      assert In(Max(a1, b1), a1, a2) && In(Max(a1, b1), b1, b2);
    }
  }

  // The test passes for the empty range at 5 inside the ten bytes from 0, which share nothing.
  lemma EmptyRangeOverlaps()
    ensures Overlaps(0, 10, 5, 5) && !exists x :: In(x, 0, 10) && In(x, 5, 5)
  {
    OverlapMeansSharedBytes(0, 10, 5, 5);
  }

  function Max(a: int, b: int): int {
    if a > b then a else b
  }

  function Min(a: int, b: int): int {
    if a < b then a else b
  }

  // ---- Collecting footprints -------------------------------------------------

  // A patch as resolved: the range it writes, with the bytes, and the range it verifies.
  datatype Resolved = Resolved(name: string, priority: int, ok: bool, begin: int, bytes: seq<int>, originalBegin: int,
                               originalEnd: int)

  function WriteOf(p: Resolved): Write {
    Write(p.name, Patch, p.priority, p.begin, p.begin + |p.bytes|)
  }

  function ReadOf(p: Resolved): Read {
    Read(p.name, p.priority, p.originalBegin, p.originalEnd)
  }

  function Usable(patches: seq<Resolved>): (r: seq<Resolved>)
    ensures forall p :: p in r <==> p in patches && p.ok
  {
    if patches == [] then [] else
    var n := |patches| - 1;
    assert patches == patches[..n] + [patches[n]];
    Usable(patches[..n]) + if patches[n].ok then [patches[n]] else []
  }

  function WritesOf(ps: seq<Resolved>): (w: seq<Write>)
    ensures |w| == |ps| && forall i :: 0 <= i < |w| ==> w[i] == WriteOf(ps[i])
  {
    seq(|ps|, i requires 0 <= i < |ps| => WriteOf(ps[i]))
  }

  function ReadsOf(ps: seq<Resolved>): (r: seq<Read>)
    ensures |r| == |ps| && forall i :: 0 <= i < |r| ==> r[i] == ReadOf(ps[i])
  {
    seq(|ps|, i requires 0 <= i < |ps| => ReadOf(ps[i]))
  }

  lemma NothingUsable()
    ensures Usable([]) == []
  {}

  lemma UsableSnoc(patches: seq<Resolved>, p: Resolved)
    ensures Usable(patches + [p]) == if p.ok then Usable(patches) + [p] else Usable(patches)
  {
    assert (patches + [p])[..|patches|] == patches;
  }

  lemma FootprintsSnoc(ps: seq<Resolved>, p: Resolved)
    ensures WritesOf(ps + [p]) == WritesOf(ps) + [WriteOf(p)] && ReadsOf(ps + [p]) == ReadsOf(ps) + [ReadOf(p)]
  {
    hide WriteOf, ReadOf;
  }

  // ---- The records that are due ----------------------------------------------

  // A record's source: a write and a read, or two writes in the order of the list.
  datatype Source = OnRead(w: nat, r: nat) | OnWrite(a: nat, b: nat)

  predicate Due(writes: seq<Write>, verifies: seq<Read>, s: Source) {
    match s
    case OnRead(w, r) =>
      w < |writes| && r < |verifies| && writes[w].name != verifies[r].name &&
      Overlaps(writes[w].begin, writes[w].end, verifies[r].begin, verifies[r].end) &&
      IsEarlier(writes[w].priority, writes[w].name, verifies[r].priority, verifies[r].name)
    case OnWrite(a, b) =>
      a < b < |writes| && Overlaps(writes[a].begin, writes[a].end, writes[b].begin, writes[b].end)
  }

  function CategoryOf(earlier: Write, later: Write): Category {
    if earlier.kind.HookPrologue? && later.kind.HookPrologue? then HookOnHook
    else if earlier.kind.HookPrologue? then PatchOverlapsEarlierHook
    else if later.kind.HookPrologue? then HookOverlapsEarlierPatch
    else if earlier.begin == later.begin && earlier.end == later.end then WriteOnWriteFull
    else WriteOnWritePartial
  }

  function RecordOf(writes: seq<Write>, verifies: seq<Read>, s: Source): Conflict
    requires Due(writes, verifies, s)
  {
    match s
    case OnRead(w, r) =>
      Conflict(WriteOnOriginal, writes[w],
               Write(verifies[r].name, Patch, verifies[r].priority, verifies[r].begin, verifies[r].end),
               Max(writes[w].begin, verifies[r].begin), Min(writes[w].end, verifies[r].end))
    case OnWrite(a, b) =>
      var earlier := if Earlier(writes[a], writes[b]) then writes[a] else writes[b];
      var later := if Earlier(writes[a], writes[b]) then writes[b] else writes[a];
      Conflict(CategoryOf(earlier, later), earlier, later,
               Max(writes[a].begin, writes[b].begin), Min(writes[a].end, writes[b].end))
  }

  // The records are those of the listed sources, one each.
  ghost predicate Recorded(writes: seq<Write>, verifies: seq<Read>, sources: seq<Source>, conflicts: seq<Conflict>) {
    && |sources| == |conflicts|
    && (forall i, j :: 0 <= i < j < |sources| ==> sources[i] != sources[j])
    && (forall i :: 0 <= i < |sources| ==>
          Due(writes, verifies, sources[i]) && conflicts[i] == RecordOf(writes, verifies, sources[i]))
  }

  // Every due source has its record.
  ghost predicate Complete(writes: seq<Write>, verifies: seq<Read>, conflicts: seq<Conflict>) {
    exists sources :: Recorded(writes, verifies, sources, conflicts) &&
                      forall s :: Due(writes, verifies, s) ==> s in sources
  }

  class Engine {
    var writes: seq<Write>
    var verifies: seq<Read>
    var conflicts: seq<Conflict>

    constructor ()
      ensures writes == [] && verifies == [] && conflicts == []
    {
      writes, verifies, conflicts := [], [], [];
    }

    method CollectFootprints(patches: seq<Resolved>)
      modifies `writes, `verifies
      ensures writes == WritesOf(Usable(patches)) && verifies == ReadsOf(Usable(patches))
    {
      hide Usable, WriteOf, ReadOf;
      writes, verifies := [], [];
      NothingUsable();
      for i := 0 to |patches|
        invariant writes == WritesOf(Usable(patches[..i])) && verifies == ReadsOf(Usable(patches[..i]))
      {
        var p := patches[i];
        assert patches[..i + 1] == patches[..i] + [p];
        UsableSnoc(patches[..i], p);
        FootprintsSnoc(Usable(patches[..i]), p);
        if p.ok {
          writes := writes + [WriteOf(p)];
          verifies := verifies + [ReadOf(p)];
        }
      }
      assert patches[..|patches|] == patches;
    }

    // Each due pair yields exactly one record, with the exact intersection, and nothing else does.
    method DetectConflicts()
      modifies `conflicts
      ensures Complete(writes, verifies, conflicts)
    {
      conflicts := [];
      ghost var sources: seq<Source> := [];
      for i := 0 to |writes|
        invariant Recorded(writes, verifies, sources, conflicts)
        invariant forall s :: s in sources <==> s.OnRead? && s.w < i && Due(writes, verifies, s)
      {
        sources := DetectReads(i, sources);
      }
      for i := 0 to |writes|
        invariant Recorded(writes, verifies, sources, conflicts)
        invariant forall s :: s in sources <==> Due(writes, verifies, s) && (s.OnWrite? ==> s.a < i)
      {
        sources := DetectWrites(i, sources);
      }
    }

    // The writes into other entries' verify ranges.
    method DetectReads(i: nat, ghost sources: seq<Source>) returns (ghost sources': seq<Source>)
      requires i < |writes| && Recorded(writes, verifies, sources, conflicts)
      requires forall s :: s in sources ==> s.OnRead? && s.w < i
      modifies `conflicts
      ensures Recorded(writes, verifies, sources', conflicts)
      ensures forall s :: s in sources' <==> s in sources || (s.OnRead? && s.w == i && Due(writes, verifies, s))
    {
      hide Overlaps, IsEarlier, Max, Min;
      sources' := sources;
      var w := writes[i];
      for j := 0 to |verifies|
        invariant Recorded(writes, verifies, sources', conflicts)
        invariant forall s :: s in sources' <==>
                    s in sources || (s.OnRead? && s.w == i && s.r < j && Due(writes, verifies, s))
      {
        var rd := verifies[j];
        if w.name == rd.name { continue; }
        if !Overlaps(w.begin, w.end, rd.begin, rd.end) { continue; }
        if !IsEarlier(w.priority, w.name, rd.priority, rd.name) { continue; }
        var c := Conflict(WriteOnOriginal, w, Write(rd.name, Patch, rd.priority, rd.begin, rd.end),
                          Max(w.begin, rd.begin), Min(w.end, rd.end));
        OneMore(writes, verifies, sources', conflicts, OnRead(i, j));
        conflicts := conflicts + [c];
        sources' := sources' + [OnRead(i, j)];
      }
    }

    // The writes over other writes.
    method DetectWrites(i: nat, ghost sources: seq<Source>) returns (ghost sources': seq<Source>)
      requires i < |writes| && Recorded(writes, verifies, sources, conflicts)
      requires forall s :: s in sources ==> s.OnWrite? ==> s.a < i
      modifies `conflicts
      ensures Recorded(writes, verifies, sources', conflicts)
      ensures forall s :: s in sources' <==> s in sources || (s.OnWrite? && s.a == i && Due(writes, verifies, s))
    {
      hide Overlaps, IsEarlier, Max, Min;
      sources' := sources;
      for j := i + 1 to |writes|
        invariant Recorded(writes, verifies, sources', conflicts)
        invariant forall s :: s in sources' <==>
                    s in sources || (s.OnWrite? && s.a == i && s.b < j && Due(writes, verifies, s))
      {
        var a, b := writes[i], writes[j];
        if !Overlaps(a.begin, a.end, b.begin, b.end) { continue; }
        var earlier, later := a, b;
        if !Earlier(a, b) {
          earlier, later := b, a;
        }
        var c := Conflict(CategoryOf(earlier, later), earlier, later, Max(a.begin, b.begin), Min(a.end, b.end));
        OneMore(writes, verifies, sources', conflicts, OnWrite(i, j));
        conflicts := conflicts + [c];
        sources' := sources' + [OnWrite(i, j)];
      }
    }

    // The first record that says the named patch's verify bytes are overwritten before it runs.
    method FindWriteOnOriginalAffecting(name: string) returns (r: Option<Conflict>)
      ensures r.Some? ==> r.value in conflicts && OnOriginalOf(r.value, name)
      ensures r.None? ==> forall c :: c in conflicts ==> !OnOriginalOf(c, name)
    {
      for i := 0 to |conflicts|
        invariant forall k :: 0 <= k < i ==> !OnOriginalOf(conflicts[k], name)
      {
        if OnOriginalOf(conflicts[i], name) { return Some(conflicts[i]); }
      }
      return None;
    }

    // Every record in which the named patch overwrites another.
    method FindWriteOnWriteAffecting(name: string) returns (r: seq<Conflict>)
      ensures forall c :: c in r <==> c in conflicts && BetweenWrites(c) && c.later.name == name
    {
      r := [];
      for i := 0 to |conflicts|
        invariant forall c :: c in r <==> c in conflicts[..i] && BetweenWrites(c) && c.later.name == name
      {
        assert conflicts[..i + 1] == conflicts[..i] + [conflicts[i]];
        if BetweenWrites(conflicts[i]) && conflicts[i].later.name == name {
          r := r + [conflicts[i]];
        }
      }
      assert conflicts[..|conflicts|] == conflicts;
    }
  }

  predicate OnOriginalOf(c: Conflict, name: string) {
    c.category.WriteOnOriginal? && c.later.name == name
  }

  predicate BetweenWrites(c: Conflict) {
    c.category.WriteOnWriteFull? || c.category.WriteOnWritePartial?
  }

  lemma OneMore(writes: seq<Write>, verifies: seq<Read>, sources: seq<Source>, conflicts: seq<Conflict>, s: Source)
    requires Recorded(writes, verifies, sources, conflicts) && Due(writes, verifies, s) && s !in sources
    ensures Recorded(writes, verifies, sources + [s], conflicts + [RecordOf(writes, verifies, s)])
  {
    hide Due, RecordOf;
  }

  lemma RecordOfSource(writes: seq<Write>, verifies: seq<Read>, sources: seq<Source>, conflicts: seq<Conflict>,
                       s: Source)
    returns (k: nat)
    requires Recorded(writes, verifies, sources, conflicts) && s in sources
    ensures Due(writes, verifies, s)
    ensures k < |conflicts| && conflicts[k] == RecordOf(writes, verifies, s) && conflicts[k] in conflicts
  {
    hide Due, RecordOf;
    k :| 0 <= k < |sources| && sources[k] == s;
  }

  lemma SourceOfRecord(writes: seq<Write>, verifies: seq<Read>, sources: seq<Source>, conflicts: seq<Conflict>,
                       c: Conflict)
    returns (s: Source)
    requires Recorded(writes, verifies, sources, conflicts) && c in conflicts
    ensures Due(writes, verifies, s) && c == RecordOf(writes, verifies, s)
  {
    hide Due, RecordOf;
    var m :| 0 <= m < |conflicts| && conflicts[m] == c;
    s := sources[m];
  }

  // ---- Applying patches ------------------------------------------------------

  predicate Covers(p: Resolved, a: int) {
    In(a, p.begin, p.begin + |p.bytes|)
  }

  // What is at an address once the patches have been applied in order.
  function ByteAt(ps: seq<Resolved>, a: int, original: int): int {
    if ps == [] then original else
    var n := |ps| - 1;
    if Covers(ps[n], a) then ps[n].bytes[a - ps[n].begin] else ByteAt(ps[..n], a, original)
  }

  lemma {:induction false} Uncovered(ps: seq<Resolved>, a: int, original: int)
    requires forall p :: p in ps ==> !Covers(p, a)
    ensures ByteAt(ps, a, original) == original
    decreases |ps|
  {
    if ps != [] {
      var n := |ps| - 1;
      assert ps[n] in ps;
      Uncovered(ps[..n], a, original);
    }
  }

  lemma {:induction false} CoveredByOne(ps: seq<Resolved>, a: int, original: int, p: Resolved)
    requires p in ps && Covers(p, a) && forall q :: q in ps && Covers(q, a) ==> q == p
    ensures ByteAt(ps, a, original) == p.bytes[a - p.begin]
    decreases |ps|
  {
    var n := |ps| - 1;
    assert ps == ps[..n] + [ps[n]] && ps[n] in ps;
    if !Covers(ps[n], a) { CoveredByOne(ps[..n], a, original, p); }
  }

  // No record between two writes: then no two patches share a byte.
  lemma NoRecordMeansDisjoint(ps: seq<Resolved>, conflicts: seq<Conflict>, i: nat, j: nat, a: int)
    requires Complete(WritesOf(ps), ReadsOf(ps), conflicts) && forall c :: c in conflicts ==> !BetweenWrites(c)
    requires i < j < |ps|
    ensures !(Covers(ps[i], a) && Covers(ps[j], a))
  {
    hide Recorded;
    var writes, verifies := WritesOf(ps), ReadsOf(ps);
    var sources :| Recorded(writes, verifies, sources, conflicts) &&
                   forall s :: Due(writes, verifies, s) ==> s in sources;
    if Covers(ps[i], a) && Covers(ps[j], a) {
      var k := RecordOfSource(writes, verifies, sources, conflicts, OnWrite(i, j));
    }
  }

  // So the order of application does not matter: every permutation leaves the same memory.
  lemma NoConflictMeansAnyOrder(ps: seq<Resolved>, qs: seq<Resolved>, conflicts: seq<Conflict>, a: int, original: int)
    requires Complete(WritesOf(ps), ReadsOf(ps), conflicts) && forall c :: c in conflicts ==> !BetweenWrites(c)
    requires multiset(ps) == multiset(qs)
    ensures ByteAt(ps, a, original) == ByteAt(qs, a, original)
  {
    hide Complete, Covers;
    forall p ensures p in ps <==> p in qs { assert p in multiset(ps) <==> p in multiset(qs); }
    if p :| p in ps && Covers(p, a) {
      forall q | q in ps && Covers(q, a) ensures q == p { OnlyCover(ps, conflicts, p, q, a); }
      CoveredByOne(ps, a, original, p);
      CoveredByOne(qs, a, original, p);
    } else {
      Uncovered(ps, a, original);
      Uncovered(qs, a, original);
    }
  }

  lemma OnlyCover(ps: seq<Resolved>, conflicts: seq<Conflict>, p: Resolved, q: Resolved, a: int)
    requires Complete(WritesOf(ps), ReadsOf(ps), conflicts) && forall c :: c in conflicts ==> !BetweenWrites(c)
    requires p in ps && q in ps && Covers(p, a) && Covers(q, a)
    ensures p == q
  {
    hide Complete, Covers;
    var i :| 0 <= i < |ps| && ps[i] == p;
    var j :| 0 <= j < |ps| && ps[j] == q;
    if i < j { NoRecordMeansDisjoint(ps, conflicts, i, j, a); }
    if j < i { NoRecordMeansDisjoint(ps, conflicts, j, i, a); }
  }

  // Load order: ascending in priority, then name.
  ghost predicate InLoadOrder(ps: seq<Resolved>) {
    forall i, j :: 0 <= i < j < |ps| ==>
      ps[i].priority < ps[j].priority || (ps[i].priority == ps[j].priority && Strings.Before(ps[i].name, ps[j].name))
  }

  // No record sets an entry's write against its own verify range.
  lemma OwnBytesAreNoConflict(writes: seq<Write>, verifies: seq<Read>, conflicts: seq<Conflict>, c: Conflict)
    requires Complete(writes, verifies, conflicts) && c in conflicts && c.category.WriteOnOriginal?
    ensures c.earlier.name != c.later.name && c.earlier in writes && exists r :: r in verifies && r.name == c.later.name
  {
    hide Recorded, Overlaps, IsEarlier, Max, Min;
    var sources :| Recorded(writes, verifies, sources, conflicts) &&
                   forall s :: Due(writes, verifies, s) ==> s in sources;
    var s := SourceOfRecord(writes, verifies, sources, conflicts, c);
    assert verifies[s.r] in verifies;
  }

  // Two overlapping writes have a record: it names both, the one that loads earlier first, says what they
  // share, and whether they are patches or hooks.
  lemma OverlapIsRecorded(writes: seq<Write>, verifies: seq<Read>, conflicts: seq<Conflict>, i: nat, j: nat)
    returns (c: Conflict)
    requires Complete(writes, verifies, conflicts) && i < |writes| && j < |writes| && i != j
    requires Overlaps(writes[i].begin, writes[i].end, writes[j].begin, writes[j].end)
    requires writes[i].priority < writes[j].priority ||
             (writes[i].priority == writes[j].priority && Strings.Before(writes[i].name, writes[j].name))
    ensures c in conflicts && c.earlier == writes[i] && c.later == writes[j]
    ensures forall a :: In(a, c.overlapBegin, c.overlapEnd) <==>
              In(a, writes[i].begin, writes[i].end) && In(a, writes[j].begin, writes[j].end)
    ensures match (writes[i].kind, writes[j].kind)
            case (HookPrologue, HookPrologue) => c.category.HookOnHook?
            case (HookPrologue, Patch) => c.category.PatchOverlapsEarlierHook?
            case (Patch, HookPrologue) => c.category.HookOverlapsEarlierPatch?
            case (Patch, Patch) =>
              if writes[i].begin == writes[j].begin && writes[i].end == writes[j].end then c.category.WriteOnWriteFull?
              else c.category.WriteOnWritePartial?
  {
    hide Recorded;
    var sources :| Recorded(writes, verifies, sources, conflicts) &&
                   forall s :: Due(writes, verifies, s) ==> s in sources;
    Strings.BeforeTotal(writes[i].name, writes[j].name);
    Strings.BeforeTotal(writes[j].name, writes[i].name);
    var k := RecordOfSource(writes, verifies, sources, conflicts, if i < j then OnWrite(i, j) else OnWrite(j, i));
    c := conflicts[k];
    OverlapMeansSharedBytes(writes[i].begin, writes[i].end, writes[j].begin, writes[j].end);
  }

  // Applied in load order, a patch without a WriteOnOriginal record still finds the original bytes
  // in its verify range; and it has a record if and only if some patch before it writes there.
  lemma VerifySeesPristineBytes(ps: seq<Resolved>, conflicts: seq<Conflict>, k: nat, a: int, original: int)
    requires Complete(WritesOf(ps), ReadsOf(ps), conflicts) && InLoadOrder(ps) && k < |ps|
    requires forall i, j :: 0 <= i < j < |ps| ==> ps[i].name != ps[j].name
    requires forall c :: c in conflicts ==> !OnOriginalOf(c, ps[k].name)
    requires In(a, ps[k].originalBegin, ps[k].originalEnd)
    ensures ByteAt(ps[..k], a, original) == original
  {
    hide Complete, InLoadOrder;
    forall p | p in ps[..k] ensures !Covers(p, a) {
      var i :| 0 <= i < k && ps[i] == p;
      if Covers(p, a) {
        assert Overlaps(p.begin, p.begin + |p.bytes|, ps[k].originalBegin, ps[k].originalEnd);
        RecordedWhenOverlapping(ps, conflicts, i, k);
      }
    }
    Uncovered(ps[..k], a, original);
  }

  lemma RecordedWhenOverlapping(ps: seq<Resolved>, conflicts: seq<Conflict>, i: nat, k: nat)
    requires Complete(WritesOf(ps), ReadsOf(ps), conflicts) && InLoadOrder(ps) && i < k < |ps| &&
             ps[i].name != ps[k].name
    requires Overlaps(ps[i].begin, ps[i].begin + |ps[i].bytes|, ps[k].originalBegin, ps[k].originalEnd)
    ensures exists c :: c in conflicts && OnOriginalOf(c, ps[k].name)
  {
    hide Overlaps, IsEarlier, Recorded, InLoadOrder;
    var writes, verifies := WritesOf(ps), ReadsOf(ps);
    var sources :| Recorded(writes, verifies, sources, conflicts) &&
                   forall s :: Due(writes, verifies, s) ==> s in sources;
    OrderAt(ps, i, k);
    var m := RecordOfSource(writes, verifies, sources, conflicts, OnRead(i, k));
  }

  // A WriteOnOriginal record is never idle: some patch applied before writes into the verify range.
  lemma RecordMeansOverwritten(ps: seq<Resolved>, conflicts: seq<Conflict>, k: nat, c: Conflict) returns (i: nat)
    requires Complete(WritesOf(ps), ReadsOf(ps), conflicts) && InLoadOrder(ps) && k < |ps|
    requires forall i, j :: 0 <= i < j < |ps| ==> ps[i].name != ps[j].name
    requires forall p :: p in ps ==> p.bytes != [] && p.originalBegin < p.originalEnd
    requires c in conflicts && OnOriginalOf(c, ps[k].name)
    ensures i < k && c.earlier == WriteOf(ps[i])
    ensures forall a :: In(a, c.overlapBegin, c.overlapEnd) <==>
              Covers(ps[i], a) && In(a, ps[k].originalBegin, ps[k].originalEnd)
    ensures c.overlapBegin < c.overlapEnd
  {
    hide IsEarlier, Recorded, InLoadOrder;
    var writes, verifies := WritesOf(ps), ReadsOf(ps);
    var sources :| Recorded(writes, verifies, sources, conflicts) &&
                   forall s :: Due(writes, verifies, s) ==> s in sources;
    var s := SourceOfRecord(writes, verifies, sources, conflicts, c);
    assert s.OnRead?;
    i := s.w;
    assert verifies[s.r].name == ps[s.r].name;
    assert ps[i] in ps && ps[k] in ps;
    EarlierComesFirst(ps, i, k);
    OverlapMeansSharedBytes(writes[i].begin, writes[i].end, verifies[k].begin, verifies[k].end);
  }

  lemma EarlierComesFirst(ps: seq<Resolved>, i: nat, k: nat)
    requires InLoadOrder(ps) && i < |ps| && k < |ps| && Earlier(WriteOf(ps[i]), WriteOf(ps[k])) &&
             ps[i].name != ps[k].name
    ensures i < k
  {
    hide InLoadOrder;
    Strings.BeforeTotal(ps[i].name, ps[k].name);
    if k < i { OrderAt(ps, k, i); }
  }

  lemma OrderAt(ps: seq<Resolved>, i: nat, j: nat)
    requires InLoadOrder(ps) && 0 <= i < j < |ps|
    ensures Earlier(WriteOf(ps[i]), WriteOf(ps[j]))
  {}
}
