/**
 The store of declared targets: entries keyed by their triple, a memo of scan outcomes, and the
 set of mismatches already warned about.  A lookup through the memo answers what a resolve
 without any memo would, over every series of calls.
 */
module DeclaredTargets {
  import opened Options
  import Strings
  import opened VersionKeys

  datatype VersionEntry = VersionEntry(
    versionKey: string, isPattern: bool, patternStr: string, signatureStr: string, kindTag: string,
    valueIsString: bool, valueInt: int, valueStr: string)

  datatype Triple = Triple(author: string, plugin: string, name: string)

  datatype Entry = Entry(triple: Triple, moduleName: string, versions: seq<VersionEntry>)

  // What a scan of a module for a pattern comes back with.
  datatype Scan = ParseError | ModuleNotLoaded | Matches(addresses: seq<nat>)

  type Scanner = (string, string) -> Scan

  datatype Resolved =
    | NoEntry
    | VersionMismatch(entry: Entry)
    | Pattern(entry: Entry, va: nat, signatureStr: string, kindTag: string)
    | Value(entry: Entry, isString: bool, valueInt: int, valueStr: string)

  datatype Memo = Memo(entryIdx: nat, runtimeVersion: string, va: nat)

  datatype Warned = Warned(triple: Triple, runtimeVersion: string)

  // ---- Resolving without a memo ----------------------------------------------

  // Only a single match gives an address; every failure gives 0.
  function ScannedAddress(scan: Scanner, e: Entry, v: VersionEntry): nat {
    match scan(e.moduleName, v.patternStr)
    case Matches(a) => if |a| == 1 then a[0] else 0
    case _ => 0
  }

  function Keys(versions: seq<VersionEntry>): (k: seq<string>)
    ensures |k| == |versions| && forall i :: 0 <= i < |k| ==> k[i] == versions[i].versionKey
  {
    seq(|versions|, i requires 0 <= i < |versions| => versions[i].versionKey)
  }

  ghost function ResolveEntry(scan: Scanner, e: Entry, version: string): Resolved {
    match Pick(Keys(e.versions), version)
    case None => VersionMismatch(e)
    case Some(i) =>
      var v := e.versions[i];
      if v.isPattern then Pattern(e, ScannedAddress(scan, e, v), v.signatureStr, v.kindTag)
      else Value(e, v.valueIsString, v.valueInt, v.valueStr)
  }

  // The declared entries as a map: what the store stands for.
  type Store = map<Triple, Entry>

  ghost function Resolve(scan: Scanner, store: Store, who: Triple, version: string): Resolved {
    if who in store then ResolveEntry(scan, store[who], version) else NoEntry
  }

  // What an answer says: an unknown triple, no version entry that matches, or the picked version entry
  // -- of a pattern the address where the module holds it, if it is there exactly once, and the fields
  // that go with it, and of a value its fields.
  ghost predicate Says(scan: Scanner, store: Store, who: Triple, version: string, r: Resolved) {
    && (r.NoEntry? <==> who !in store)
    && (!r.NoEntry? ==>
          r.entry == store[who] &&
          var keys := Keys(r.entry.versions);
          (IsPick(keys, version, None) <==> r.VersionMismatch?) &&
          forall i :: 0 <= i < |keys| && IsPick(keys, version, Some(i)) ==> AnswersWith(scan, r, r.entry.versions[i]))
  }

  ghost predicate AnswersWith(scan: Scanner, r: Resolved, v: VersionEntry) {
    && (r.Pattern? <==> v.isPattern) && (r.Value? <==> !v.isPattern)
    && (r.Pattern? ==>
          r.signatureStr == v.signatureStr && r.kindTag == v.kindTag &&
          forall x: nat :: x != 0 ==> (r.va == x <==> scan(r.entry.moduleName, v.patternStr) == Matches([x])))
    && (r.Value? ==> r.isString == v.valueIsString && r.valueInt == v.valueInt && r.valueStr == v.valueStr)
  }

  lemma ResolveSays(scan: Scanner, store: Store, who: Triple, version: string)
    ensures Says(scan, store, who, version, Resolve(scan, store, who, version))
  {
    hide IsPick;
    if who in store {
      var keys := Keys(store[who].versions);
      forall p | IsPick(keys, version, p) ensures p == Pick(keys, version) {
        PickUnique(keys, version, p, Pick(keys, version));
      }
    }
  }

  // ---- What Register accepts -------------------------------------------------

  predicate NameOk(name: string) {
    2 <= |name| <= 128 && forall i :: 0 <= i < |name| ==> Strings.NameChar(name[i])
  }

  predicate NeedsSignature(v: VersionEntry) {
    v.isPattern && v.signatureStr == "" && (v.kindTag == "" || v.kindTag == "function")
  }

  ghost predicate Acceptable(e: Entry) {
    && e.triple.author != "" && e.triple.plugin != "" && e.moduleName != ""
    && 2 <= |e.triple.name| <= 128
    && (forall i :: 0 <= i < |e.triple.name| ==>
          var c := e.triple.name[i]; 'a' <= c <= 'z' || '0' <= c <= '9' || c == '_')
    && forall i :: 0 <= i < |e.versions| ==>
         var v := e.versions[i];
         WellFormed(v.versionKey) && (v.isPattern && v.kindTag in {"", "function"} ==> v.signatureStr != "")
  }

  datatype Request = Register(entry: Entry) | Lookup(who: Triple, version: string) | Reset

  datatype Answer = Registered(ok: bool) | Found(resolved: Resolved) | Done

  // The answers of a store that has no memo at all.
  ghost function StoreAfter(store: Store, r: Request): Store {
    match r
    case Register(e) => if Acceptable(e) then store[e.triple := e] else store
    case Lookup(_, _) => store
    case Reset => map[]
  }

  ghost function AnswerOf(scan: Scanner, store: Store, r: Request): Answer {
    match r
    case Register(e) => Registered(Acceptable(e))
    case Lookup(who, version) => Found(Resolve(scan, store, who, version))
    case Reset => Done
  }

  ghost function Answers(scan: Scanner, store: Store, requests: seq<Request>): seq<Answer>
    decreases |requests|
  {
    if requests == [] then []
    else [AnswerOf(scan, store, requests[0])] + Answers(scan, StoreAfter(store, requests[0]), requests[1..])
  }

  // ---- What the store keeps --------------------------------------------------

  // Triples stay unique.
  ghost predicate Unique(entries: seq<Entry>) {
    forall i, j :: 0 <= i < j < |entries| ==> entries[i].triple != entries[j].triple
  }

  ghost function StoreOf(entries: seq<Entry>): Store
    requires Unique(entries)
  {
    map i | 0 <= i < |entries| :: entries[i].triple := entries[i]
  }

  lemma StoreReplaced(entries: seq<Entry>, i: nat, e: Entry)
    requires Unique(entries) && i < |entries| && entries[i].triple == e.triple
    ensures Unique(entries[i := e]) && StoreOf(entries[i := e]) == StoreOf(entries)[e.triple := e]
  {
    var a, b := StoreOf(entries[i := e]), StoreOf(entries)[e.triple := e];
    assert entries[i := e][i] == e;
    forall t | t in a ensures t in b && b[t] == a[t] {
      var k :| 0 <= k < |entries| && entries[i := e][k].triple == t;
      assert k != i ==> entries[k].triple == t;
    }
    forall t | t in b ensures t in a {
      if t != e.triple {
        var k :| 0 <= k < |entries| && entries[k].triple == t;
        assert entries[i := e][k].triple == t;
      }
    }
  }

  lemma StoreExtended(entries: seq<Entry>, e: Entry)
    requires Unique(entries) && forall k :: 0 <= k < |entries| ==> entries[k].triple != e.triple
    ensures Unique(entries + [e]) && StoreOf(entries + [e]) == StoreOf(entries)[e.triple := e]
  {
    var a, b := StoreOf(entries + [e]), StoreOf(entries)[e.triple := e];
    assert (entries + [e])[|entries|] == e;
    forall t | t in a ensures t in b && b[t] == a[t] {
      var k :| 0 <= k < |entries| + 1 && (entries + [e])[k].triple == t;
      assert k < |entries| ==> entries[k].triple == t;
    }
    forall t | t in b ensures t in a {
      if t != e.triple {
        var k :| 0 <= k < |entries| && entries[k].triple == t;
        assert (entries + [e])[k].triple == t;
      }
    }
  }

  // A memo row says what a scan would say now.
  ghost predicate RowCoherent(scan: Scanner, entries: seq<Entry>, m: Memo) {
    m.entryIdx < |entries| &&
    var e := entries[m.entryIdx];
    var pick := Pick(Keys(e.versions), m.runtimeVersion);
    pick.Some? && e.versions[pick.value].isPattern && m.va == ScannedAddress(scan, e, e.versions[pick.value])
  }

  ghost predicate MemoCoherent(scan: Scanner, entries: seq<Entry>, memo: seq<Memo>) {
    forall m :: m in memo ==> RowCoherent(scan, entries, m)
  }

  ghost predicate InMemo(memo: seq<Memo>, i: nat, version: string) {
    exists k :: 0 <= k < |memo| && memo[k].entryIdx == i && memo[k].runtimeVersion == version
  }

  // A scan: the slot, which of its registrations it was made under, and the version.
  datatype Made = Made(entryIdx: nat, registration: nat, version: string)

  // A slot is scanned for a version at most once per registration, and what was scanned under the
  // current registration is in the memo.
  ghost predicate ScannedOnce(memo: seq<Memo>, registrations: seq<nat>, scans: seq<Made>) {
    && (forall j, k :: 0 <= j < k < |scans| ==> scans[j] != scans[k])
    && (forall m :: m in scans ==> m.entryIdx < |registrations| && m.registration <= registrations[m.entryIdx] &&
                                   (m.registration == registrations[m.entryIdx] ==>
                                    InMemo(memo, m.entryIdx, m.version)))
  }

  lemma ScannedReplaced(memo: seq<Memo>, kept: seq<Memo>, registrations: seq<nat>, scans: seq<Made>, i: nat)
    requires ScannedOnce(memo, registrations, scans) && i < |registrations|
    requires forall m :: m in memo && m.entryIdx != i ==> m in kept
    ensures ScannedOnce(kept, registrations[i := registrations[i] + 1], scans)
  {
    forall m | m in scans && m.entryIdx != i && m.registration == registrations[m.entryIdx]
      ensures InMemo(kept, m.entryIdx, m.version)
    {
      var k :| 0 <= k < |memo| && memo[k].entryIdx == m.entryIdx && memo[k].runtimeVersion == m.version;
      assert memo[k] in kept;
    }
  }

  lemma ScannedExtended(memo: seq<Memo>, registrations: seq<nat>, scans: seq<Made>, row: Memo, made: Made)
    requires ScannedOnce(memo, registrations, scans) && !InMemo(memo, row.entryIdx, row.runtimeVersion)
    requires row.entryIdx < |registrations| &&
             made == Made(row.entryIdx, registrations[row.entryIdx], row.runtimeVersion)
    ensures ScannedOnce(memo + [row], registrations, scans + [made])
  {
    assert made !in scans;
    forall m | m in scans + [made] && m.registration == registrations[m.entryIdx]
      ensures InMemo(memo + [row], m.entryIdx, m.version)
    {
      if m in scans {
        var k :| 0 <= k < |memo| && memo[k].entryIdx == m.entryIdx && memo[k].runtimeVersion == m.version;
        assert (memo + [row])[k] == memo[k];
      } else {
        assert (memo + [row])[|memo|] == row;
      }
    }
  }

  // ---- The store -------------------------------------------------------------

  class DeclaredTargets {
    const scan: Scanner
    var entries: seq<Entry>
    var memo: seq<Memo>
    var warned: seq<Warned>

    // History: how often each slot has been registered over, and the scans made since the last
    // Reset.
    ghost var registrations: seq<nat>
    ghost var scans: seq<Made>

    constructor (scan: Scanner)
      ensures Valid() && this.scan == scan && Declared() == map[] && warned == []
    {
      this.scan := scan;
      entries, memo, warned := [], [], [];
      registrations, scans := [], [];
    }

    ghost predicate Valid()
      reads this
    {
      Unique(entries) && MemoCoherent(scan, entries, memo) && |registrations| == |entries| &&
      ScannedOnce(memo, registrations, scans)
    }

    ghost function Declared(): Store
      reads this
      requires Unique(entries)
    {
      StoreOf(entries)
    }

    method FindEntryIndex(who: Triple) returns (i: nat)
      requires Unique(entries)
      ensures i <= |entries|
      ensures i < |entries| ==> entries[i].triple == who && who in Declared() && Declared()[who] == entries[i]
      ensures i == |entries| ==> who !in Declared() && forall k :: 0 <= k < |entries| ==> entries[k].triple != who
    {
      i := 0;
      while i < |entries|
        invariant i <= |entries| && forall k :: 0 <= k < i ==> entries[k].triple != who
      {
        if entries[i].triple == who { return; }
        i := i + 1;
      }
    }

    method FindMemoIndex(idx: nat, version: string) returns (i: nat)
      ensures i <= |memo| && (i < |memo| ==> memo[i].entryIdx == idx && memo[i].runtimeVersion == version)
      ensures i == |memo| ==> !InMemo(memo, idx, version)
    {
      i := 0;
      while i < |memo|
        invariant i <= |memo| && forall k :: 0 <= k < i ==> memo[k].entryIdx != idx || memo[k].runtimeVersion != version
      {
        if memo[i].entryIdx == idx && memo[i].runtimeVersion == version { return; }
        i := i + 1;
      }
    }

    // What is left of the memo is exactly what concerns other entries.
    method DropMemoForEntry(idx: nat)
      modifies `memo
      ensures forall m :: m in memo <==> m in old(memo) && m.entryIdx != idx
    {
      var kept: seq<Memo> := [];
      var i := 0;
      while i < |memo|
        invariant i <= |memo| && memo == old(memo)
        invariant forall m :: m in kept <==> m in memo[..i] && m.entryIdx != idx
      {
        assert memo[..i + 1] == memo[..i] + [memo[i]];
        if memo[i].entryIdx != idx {
          kept := kept + [memo[i]];
        }
        i := i + 1;
      }
      assert memo[..i] == memo;
      memo := kept;
    }

    // True for the first mismatch of a triple under a version, false ever after.
    method TryClaimWarn(who: Triple, version: string) returns (first: bool)
      modifies `warned
      ensures first <==> Warned(who, version) !in old(warned)
      ensures warned == if first then old(warned) + [Warned(who, version)] else old(warned)
    {
      for i := 0 to |warned|
        invariant warned == old(warned) && Warned(who, version) !in warned[..i]
      {
        assert warned[..i + 1] == warned[..i] + [warned[i]];
        if warned[i] == Warned(who, version) { return false; }
      }
      assert warned[..|warned|] == warned;
      warned := warned + [Warned(who, version)];
      return true;
    }

    // An accepted entry takes the place of the one with the same triple, or joins; nothing else
    // changes in the store.
    method Register(e: Entry) returns (ok: bool)
      requires Valid()
      modifies this
      ensures Valid() && ok == Acceptable(e) && warned == old(warned)
      ensures Declared() == if ok then old(Declared())[e.triple := e] else old(Declared())
    {
      hide MemoCoherent, ScannedOnce, StoreOf, Unique, Acceptable;
      ok := Validate(e);
      if !ok { return; }
      var i := FindEntryIndex(e.triple);
      if i < |entries| {
        Overwrite(i, e);
      } else {
        Append(e);
      }
    }

    method Overwrite(i: nat, e: Entry)
      requires Valid() && i < |entries| && entries[i].triple == e.triple
      modifies this
      ensures Valid() && warned == old(warned) && Declared() == old(Declared())[e.triple := e]
    {
      hide ScannedOnce, StoreOf, Unique, Pick;
      StoreReplaced(entries, i, e);
      entries := entries[i := e];
      DropMemoForEntry(i);
      ScannedReplaced(old(memo), memo, registrations, scans, i);
      registrations := registrations[i := registrations[i] + 1];
      forall m | m in memo ensures RowCoherent(scan, entries, m) {
        assert RowCoherent(scan, old(entries), m);
      }
    }

    method Append(e: Entry)
      requires Valid() && forall k :: 0 <= k < |entries| ==> entries[k].triple != e.triple
      modifies this
      ensures Valid() && warned == old(warned) && Declared() == old(Declared())[e.triple := e]
    {
      hide StoreOf, Unique, Pick;
      StoreExtended(entries, e);
      entries := entries + [e];
      registrations := registrations + [0];
      forall m | m in memo ensures RowCoherent(scan, entries, m) {
        assert RowCoherent(scan, old(entries), m);
      }
    }

    method Validate(e: Entry) returns (ok: bool)
      ensures ok == Acceptable(e)
    {
      hide WellFormed;
      if e.triple.author == "" || e.triple.plugin == "" || e.moduleName == "" || !NameOk(e.triple.name) {
        return false;
      }
      for i := 0 to |e.versions|
        invariant forall k :: 0 <= k < i ==> WellFormed(e.versions[k].versionKey) && !NeedsSignature(e.versions[k])
      {
        var error := ValidateVersionKey(e.versions[i].versionKey);
        if error.Some? || NeedsSignature(e.versions[i]) { return false; }
      }
      return true;
    }

    // A lookup answers as if there were no memo.
    method LookupForCaller(who: Triple, version: string) returns (r: Resolved)
      requires Valid()
      modifies this
      ensures Valid() && Declared() == old(Declared())
      ensures r == Resolve(scan, Declared(), who, version) && Says(scan, Declared(), who, version, r)
      ensures warned == if r.VersionMismatch? && Warned(who, version) !in old(warned)
                        then old(warned) + [Warned(who, version)] else old(warned)
    {
      hide ScannedOnce, StoreOf, Unique, IsPick, Says;
      ResolveSays(scan, Declared(), who, version);
      var i := FindEntryIndex(who);
      if i == |entries| { return NoEntry; }
      var e := entries[i];
      var pick := FindPicked(Keys(e.versions), version);
      if pick.None? {
        var _ := TryClaimWarn(e.triple, version);
        return VersionMismatch(e);
      }
      PickInRange(Keys(e.versions), version);
      var v := e.versions[pick.value];
      if !v.isPattern { return Value(e, v.valueIsString, v.valueInt, v.valueStr); }
      var k := FindMemoIndex(i, version);
      var va;
      if k < |memo| {
        va := memo[k].va;
        assert RowCoherent(scan, entries, memo[k]);
      } else {
        va := ScanAndRemember(i, version, v);
      }
      return Pattern(e, va, v.signatureStr, v.kindTag);
    }

    lemma PickInRange(keys: seq<string>, version: string)
      ensures var p := Pick(keys, version); p.Some? ==> p.value < |keys|
    {}

    // A scan happens only when the memo has no row, and leaves one.
    method ScanAndRemember(i: nat, version: string, v: VersionEntry) returns (va: nat)
      requires Valid() && i < |entries| && !InMemo(memo, i, version)
      requires var p := Pick(Keys(entries[i].versions), version);
               p.Some? && v == entries[i].versions[p.value] && v.isPattern
      modifies this
      ensures Valid() && entries == old(entries) && warned == old(warned) && va == ScannedAddress(scan, entries[i], v)
    {
      hide ScannedOnce, StoreOf, Unique, IsPick;
      va := ScannedAddress(scan, entries[i], v);
      ScannedExtended(memo, registrations, scans, Memo(i, version, va), Made(i, registrations[i], version));
      memo := memo + [Memo(i, version, va)];
      scans := scans + [Made(i, registrations[i], version)];
    }

    method Clear()
      modifies this
      ensures Valid() && Declared() == map[] && warned == []
    {
      entries, memo, warned := [], [], [];
      registrations, scans := [], [];
    }

    method ServeOne(request: Request) returns (answer: Answer)
      requires Valid()
      modifies this
      ensures Valid() && answer == AnswerOf(scan, old(Declared()), request)
      ensures Declared() == StoreAfter(old(Declared()), request)
    {
      hide MemoCoherent, ScannedOnce, StoreOf, Unique, Acceptable, ResolveEntry;
      match request {
        case Register(e) =>
          var ok := Register(e);
          answer := Registered(ok);
        case Lookup(who, version) =>
          var r := LookupForCaller(who, version);
          answer := Found(r);
        case Reset =>
          Clear();
          answer := Done;
      }
    }

    // Over any series of calls the answers are those of a store without a memo.
    method Serve(requests: seq<Request>) returns (answers: seq<Answer>)
      requires Valid()
      modifies this
      ensures Valid() && answers == Answers(scan, old(Declared()), requests)
    {
      hide MemoCoherent, ScannedOnce, StoreOf, Unique, AnswerOf, StoreAfter;
      answers := [];
      var i := 0;
      assert requests[0..] == requests;
      while i < |requests|
        invariant i <= |requests| && Valid()
        invariant answers + Answers(scan, Declared(), requests[i..]) == Answers(scan, old(Declared()), requests)
      {
        ghost var store := Declared();
        var answer := ServeOne(requests[i]);
        assert requests[i..][1..] == requests[i + 1..];
        assert Answers(scan, store, requests[i..]) == [answer] + Answers(scan, Declared(), requests[i + 1..]);
        answers := answers + [answer];
        i := i + 1;
      }
    }
  }
}
