/**
 Version keys of declared targets: what a well-formed key is, what the raw prefix test of the
 matcher means for version components, and which key the picker picks.
 */
module VersionKeys {
  import opened Options

  // ---- Components ------------------------------------------------------------

  function FirstDot(s: string): (d: nat)
    ensures d <= |s| && (d < |s| ==> s[d] == '.') && '.' !in s[..d]
  {
    if s == [] || s[0] == '.' then 0 else
    assert s[..1 + FirstDot(s[1..])] == [s[0]] + s[1..][..FirstDot(s[1..])];
    1 + FirstDot(s[1..])
  }

  // The text between the dots; there is always at least one component.
  function Components(s: string): (c: seq<string>)
    ensures |c| > 0
    decreases |s|
  {
    var d := FirstDot(s);
    if d == |s| then [s] else [s[..d]] + Components(s[d + 1..])
  }

  lemma {:induction false} FirstDotAt(a: string, s: string)
    requires '.' !in a
    ensures FirstDot(a + "." + s) == |a| && FirstDot(a) == |a|
  {
    var t := a + "." + s;
    if a != "" {
      assert t[0] == a[0] && t[1..] == a[1..] + "." + s;
      FirstDotAt(a[1..], s);
    }
  }

  lemma SplitComponent(a: string, s: string)
    requires '.' !in a
    ensures Components(a + "." + s) == [a] + Components(s) && Components(a) == [a]
  {
    FirstDotAt(a, s);
    assert (a + "." + s)[|a| + 1..] == s && (a + "." + s)[..|a|] == a;
  }

  predicate KeyChar(c: char) {
    'a' <= c <= 'z' || 'A' <= c <= 'Z' || '0' <= c <= '9' || c == '_'
  }

  predicate ExactComponent(c: string) {
    c != "" && forall i :: 0 <= i < |c| ==> KeyChar(c[i])
  }

  function Stars(k: nat): (r: seq<string>)
    ensures |r| == k && forall i :: 0 <= i < k ==> r[i] == "*"
  {
    seq(k, _ => "*")
  }

  // A well-formed key: exact components, then wildcard components, at least one of either.
  ghost predicate ShapedAs(key: string, exact: seq<string>, stars: nat) {
    Components(key) == exact + Stars(stars) && forall c :: c in exact ==> ExactComponent(c)
  }

  ghost predicate WellFormed(key: string) {
    exists exact, stars :: ShapedAs(key, exact, stars)
  }

  // ---- The validator ---------------------------------------------------------

  datatype KeyError = EmptyKey | EmptyComponent | StarInComponent | NotTrailing | BadCharacter

  method Split(key: string) returns (comps: seq<string>)
    ensures comps == Components(key)
  {
    hide Components, FirstDot;
    comps := [];
    var cur := "";
    var i := 0;
    assert cur + key[0..] == key;
    while i < |key|
      invariant i <= |key| && '.' !in cur && Components(key) == comps + Components(cur + key[i..])
    {
      if key[i] == '.' {
        assert cur + key[i..] == cur + "." + key[i + 1..];
        SplitComponent(cur, key[i + 1..]);
        comps, cur := comps + [cur], "";
        assert cur + key[i + 1..] == key[i + 1..];
      } else {
        assert cur + key[i..] == cur + [key[i]] + key[i + 1..];
        cur := cur + [key[i]];
      }
      i := i + 1;
    }
    assert cur + key[i..] == cur;
    SplitComponent(cur, "");
    comps := comps + [cur];
  }

  // ValidateVersionKey accepts exactly the well-formed keys.
  method ValidateVersionKey(key: string) returns (error: Option<KeyError>)
    ensures error.None? <==> WellFormed(key)
  {
    if key == "" {
      NotWellFormed(key, 0);
      return Some(EmptyKey);
    }
    var comps := Split(key);
    var i := 0;
    while i < |comps|
      invariant i <= |comps| && forall k :: 0 <= k < i ==> comps[k] != ""
    {
      if comps[i] == "" {
        NotWellFormed(key, i);
        return Some(EmptyComponent);
      }
      i := i + 1;
    }
    var firstStar := 0;
    while firstStar < |comps| && comps[firstStar] != "*"
      invariant firstStar <= |comps| && forall k :: 0 <= k < firstStar ==> comps[k] != "*"
    {
      firstStar := firstStar + 1;
    }
    i := 0;
    while i < firstStar
      invariant i <= firstStar && forall k :: 0 <= k < i ==> '*' !in comps[k]
    {
      if '*' in comps[i] {
        BadComponent(key, i);
        return Some(StarInComponent);
      }
      i := i + 1;
    }
    i := firstStar;
    while i < |comps|
      invariant firstStar <= i <= |comps| && forall k :: firstStar <= k < i ==> comps[k] == "*"
    {
      if comps[i] != "*" {
        NotAfterStar(key, firstStar, i);
        return Some(NotTrailing);
      }
      i := i + 1;
    }
    i := 0;
    while i < firstStar
      invariant i <= firstStar && forall k :: 0 <= k < i ==> ExactComponent(comps[k])
    {
      var ok := AllKeyChars(comps[i]);
      if !ok {
        BadComponent(key, i);
        return Some(BadCharacter);
      }
      i := i + 1;
    }
    assert comps == comps[..firstStar] + Stars(|comps| - firstStar);
    assert ShapedAs(key, comps[..firstStar], |comps| - firstStar);
    return None;
  }

  method AllKeyChars(c: string) returns (ok: bool)
    ensures ok <==> forall i :: 0 <= i < |c| ==> KeyChar(c[i])
  {
    for i := 0 to |c|
      invariant forall k :: 0 <= k < i ==> KeyChar(c[k])
    {
      if !KeyChar(c[i]) { return false; }
    }
    return true;
  }

  lemma NotWellFormed(key: string, i: nat)
    requires i < |Components(key)| && Components(key)[i] == ""
    ensures !WellFormed(key)
  {
    BadComponent(key, i);
  }

  // The components of a well-formed key: exact ones first, then wildcards.
  lemma ComponentKinds(key: string, exact: seq<string>, stars: nat)
    requires ShapedAs(key, exact, stars)
    ensures var c := Components(key);
            forall i :: 0 <= i < |c| ==> if i < |exact| then ExactComponent(c[i]) && c[i] != "*" else c[i] == "*"
  {
    var c := Components(key);
    forall i | 0 <= i < |exact| ensures ExactComponent(c[i]) && c[i] != "*" {
      assert c[i] == exact[i] && exact[i] in exact;
      assert !KeyChar("*"[0]);
    }
  }

  lemma BadComponent(key: string, i: nat)
    requires i < |Components(key)| && !ExactComponent(Components(key)[i]) && Components(key)[i] != "*"
    ensures !WellFormed(key)
  {
    if WellFormed(key) {
      var exact, stars :| ShapedAs(key, exact, stars);
      ComponentKinds(key, exact, stars);
    }
  }

  lemma NotAfterStar(key: string, i: nat, j: nat)
    requires i < j < |Components(key)| && Components(key)[i] == "*" && Components(key)[j] != "*"
    ensures !WellFormed(key)
  {
    if WellFormed(key) {
      var exact, stars :| ShapedAs(key, exact, stars);
      ComponentKinds(key, exact, stars);
    }
  }

  // ---- The matcher -----------------------------------------------------------

  function ExactPrefixLen(key: string): (n: nat)
    ensures n <= |key| && '*' !in key[..n] && (n < |key| ==> key[n] == '*')
  {
    if key == "" || key[0] == '*' then 0 else
    assert key[..1 + ExactPrefixLen(key[1..])] == [key[0]] + key[1..][..ExactPrefixLen(key[1..])];
    1 + ExactPrefixLen(key[1..])
  }

  predicate IsWildcard(key: string) {
    '*' in key
  }

  // The raw test: the part of the key before its first asterisk starts the version.
  predicate WildcardMatches(key: string, version: string) {
    key[..ExactPrefixLen(key)] <= version
  }

  method PrefixLength(key: string) returns (n: nat)
    ensures n == ExactPrefixLen(key)
  {
    n := 0;
    while n < |key| && key[n] != '*'
      invariant n <= |key| && ExactPrefixLen(key) == n + ExactPrefixLen(key[n..])
    {
      assert key[n..][1..] == key[n + 1..];
      n := n + 1;
    }
  }

  method TestWildcard(key: string, version: string) returns (m: bool)
    ensures m == WildcardMatches(key, version)
  {
    var n := PrefixLength(key);
    if |version| < n { return false; }
    for i := 0 to n
      invariant key[..i] == version[..i]
    {
      if key[i] != version[i] {
        assert key[..n][i] == key[i];
        return false;
      }
    }
    assert key[..n] == version[..n];
    return true;
  }

  // The text an exact component list puts in front of what follows.
  function Prefix(exact: seq<string>): string {
    if exact == [] then "" else exact[0] + "." + Prefix(exact[1..])
  }

  lemma {:induction false} PrefixHasNoStar(exact: seq<string>)
    requires forall c :: c in exact ==> ExactComponent(c)
    ensures '*' !in Prefix(exact)
    decreases |exact|
  {
    if exact != [] {
      assert exact[0] in exact;
      PrefixHasNoStar(exact[1..]);
    }
  }

  // What stands before the first asterisk of a wildcard key.
  lemma {:induction false} KeyPrefix(key: string, exact: seq<string>, stars: nat)
    requires ShapedAs(key, exact, stars) && stars > 0
    ensures key[..ExactPrefixLen(key)] == Prefix(exact) && IsWildcard(key)
    decreases |exact|
  {
    hide Components, FirstDot, ExactPrefixLen;
    if exact == [] {
      HeadComponent(key);
    } else {
      var rest := TailKey(key, exact, stars);
      KeyPrefix(rest, exact[1..], stars);
      assert exact[0] in exact && '*' !in exact[0] + ".";
      PrefixLenAfter(exact[0] + ".", rest);
      assert key[..ExactPrefixLen(key)] == exact[0] + "." + rest[..ExactPrefixLen(rest)];
    }
  }

  // A key whose first component is the wildcard begins with an asterisk.
  lemma HeadComponent(key: string)
    requires Components(key)[0] == "*"
    ensures key != "" && key[0] == '*' && ExactPrefixLen(key) == 0
  {}

  // Behind its first exact component and the dot stands a well-formed key again.
  lemma TailKey(key: string, exact: seq<string>, stars: nat) returns (rest: string)
    requires ShapedAs(key, exact, stars) && stars > 0 && exact != []
    ensures key == exact[0] + "." + rest && ShapedAs(rest, exact[1..], stars)
  {
    hide ExactComponent;
    var d := FirstDot(key);
    assert Components(key)[0] == exact[0];
    rest := key[d + 1..];
    assert Components(rest) == Components(key)[1..] == exact[1..] + Stars(stars);
  }

  lemma {:induction false} PrefixLenAfter(a: string, s: string)
    requires '*' !in a
    ensures ExactPrefixLen(a + s) == |a| + ExactPrefixLen(s)
  {
    if a == "" {
      assert a + s == s;
    } else {
      assert (a + s)[0] == a[0] && (a + s)[1..] == a[1..] + s;
      PrefixLenAfter(a[1..], s);
    }
  }

  // A prefix in text is a prefix in components with something after it.
  lemma {:induction false} PrefixIsComponents(exact: seq<string>, v: string)
    requires forall c :: c in exact ==> '.' !in c
    ensures Prefix(exact) <= v <==> |Components(v)| > |exact| && Components(v)[..|exact|] == exact
    decreases |exact|
  {
    hide Components, FirstDot;
    if exact != [] {
      var e := exact[0];
      assert e in exact;
      if e + "." <= v {
        var rest := v[|e| + 1..];
        assert v == e + "." + rest;
        SplitComponent(e, rest);
        PrefixIsComponents(exact[1..], rest);
        PrefixShift(e + ".", Prefix(exact[1..]), rest);
        assert exact == [e] + exact[1..];
        assert |Components(v)| > |exact| ==> Components(v)[..|exact|] == [e] + Components(rest)[..|exact| - 1];
      } else {
        if Prefix(exact) <= v { PrefixBegins(exact, v); }
        OtherHead(e, v);
        assert |Components(v)| > |exact| ==> Components(v)[..|exact|][0] == Components(v)[0];
      }
    }
  }

  lemma PrefixBegins(exact: seq<string>, v: string)
    requires exact != [] && Prefix(exact) <= v
    ensures exact[0] + "." <= v
  {
    assert v[..|exact[0]| + 1] == Prefix(exact)[..|exact[0]| + 1] == exact[0] + ".";
  }

  lemma OtherHead(e: string, v: string)
    ensures |Components(v)| > 1 && Components(v)[0] == e ==> e + "." <= v
  {
    var d := FirstDot(v);
    if |Components(v)| > 1 && Components(v)[0] == e { assert v[..d + 1] == e + "."; }
  }

  lemma PrefixShift(a: string, p: string, s: string)
    ensures a + p <= a + s <==> p <= s
  {
    if a + p <= a + s { assert p == (a + s)[..|a + p|][|a|..]; }
  }

  // The raw prefix test is sound and complete for well-formed wildcard keys: it holds exactly when
  // the version begins with the key's exact components and goes on with at least one more.
  lemma MatchMeansComponents(key: string, exact: seq<string>, stars: nat, version: string)
    requires ShapedAs(key, exact, stars) && stars > 0
    ensures WildcardMatches(key, version) <==>
              |Components(version)| > |exact| && Components(version)[..|exact|] == exact
  {
    KeyPrefix(key, exact, stars);
    forall c | c in exact ensures '.' !in c {
      assert ExactComponent(c);
    }
    PrefixIsComponents(exact, version);
  }

  // A well-formed key without wildcards has no asterisk and matches by equality only.
  lemma {:induction false} ExactKeyHasNoStar(key: string, exact: seq<string>)
    requires ShapedAs(key, exact, 0)
    ensures !IsWildcard(key)
    decreases |key|
  {
    var d := FirstDot(key);
    assert Components(key) == exact;
    assert Components(key)[0] in exact;
    if d < |key| {
      var rest := key[d + 1..];
      assert Components(rest) == exact[1..];
      assert exact[1..] + Stars(0) == exact[1..];
      ExactKeyHasNoStar(rest, exact[1..]);
      assert key == key[..d] + ['.'] + rest;
    }
  }

  lemma {:induction false} PrefixGrows(c: seq<string>, m: nat, n: nat)
    requires m < n <= |c|
    ensures |Prefix(c[..m])| < |Prefix(c[..n])|
    decreases |c|
  {
    assert c[..n][0] == c[0] && c[..n][1..] == c[1..][..n - 1];
    if m > 0 {
      assert c[..m][0] == c[0] && c[..m][1..] == c[1..][..m - 1];
      PrefixGrows(c[1..], m - 1, n - 1);
    }
  }

  // Among keys that match one version, a longer text prefix means more exact components.
  lemma LongerMeansMoreComponents(k1: string, e1: seq<string>, s1: nat, k2: string, e2: seq<string>, s2: nat,
                                  version: string)
    requires ShapedAs(k1, e1, s1) && s1 > 0 && ShapedAs(k2, e2, s2) && s2 > 0
    requires WildcardMatches(k1, version) && WildcardMatches(k2, version)
    ensures ExactPrefixLen(k1) < ExactPrefixLen(k2) <==> |e1| < |e2|
  {
    KeyPrefix(k1, e1, s1);
    KeyPrefix(k2, e2, s2);
    MatchMeansComponents(k1, e1, s1, version);
    MatchMeansComponents(k2, e2, s2, version);
    var c := Components(version);
    if |e1| < |e2| { PrefixGrows(c, |e1|, |e2|); }
    if |e2| < |e1| { PrefixGrows(c, |e2|, |e1|); }
  }

  // ---- The picker ------------------------------------------------------------

  predicate MatchesExactly(key: string, version: string) {
    !IsWildcard(key) && key == version
  }

  predicate MatchesWild(key: string, version: string) {
    IsWildcard(key) && WildcardMatches(key, version)
  }

  // What the picker has to answer: the first exact match; without one, the first of the matching
  // wildcard keys whose prefix is longest; without one, nothing.
  ghost predicate IsPick(keys: seq<string>, version: string, pick: Option<nat>) {
    match pick
    case None => forall j :: 0 <= j < |keys| ==> !MatchesExactly(keys[j], version) && !MatchesWild(keys[j], version)
    case Some(i) =>
      i < |keys| &&
      if MatchesExactly(keys[i], version) then forall j :: 0 <= j < i ==> !MatchesExactly(keys[j], version)
      else
        MatchesWild(keys[i], version) &&
        (forall j :: 0 <= j < |keys| ==> !MatchesExactly(keys[j], version)) &&
        (forall j :: 0 <= j < |keys| && MatchesWild(keys[j], version) ==>
           ExactPrefixLen(keys[j]) <= ExactPrefixLen(keys[i]) &&
           (j < i ==> ExactPrefixLen(keys[j]) < ExactPrefixLen(keys[i])))
  }

  lemma PickUnique(keys: seq<string>, version: string, p: Option<nat>, q: Option<nat>)
    requires IsPick(keys, version, p) && IsPick(keys, version, q)
    ensures p == q
  {}

  // The pick as a function of the keys: it exists and is unique.
  ghost function Pick(keys: seq<string>, version: string): (p: Option<nat>)
    ensures IsPick(keys, version, p)
  {
    PickExists(keys, version);
    var p: Option<nat> :| IsPick(keys, version, p);
    p
  }

  lemma {:induction false} PickExists(keys: seq<string>, version: string)
    ensures exists p :: IsPick(keys, version, p)
    decreases |keys|
  {
    if keys == [] {
      assert IsPick(keys, version, None);
    } else {
      var n := |keys| - 1;
      PickExists(keys[..n], version);
      var p: Option<nat> :| IsPick(keys[..n], version, p);
      var key := keys[n];
      if p.Some? && MatchesExactly(keys[p.value], version) {
        assert IsPick(keys, version, p);
      } else if MatchesExactly(key, version) {
        assert forall j :: 0 <= j < n ==> keys[j] == keys[..n][j];
        assert IsPick(keys, version, Some(n));
      } else if MatchesWild(key, version) && (p.None? || ExactPrefixLen(keys[p.value]) < ExactPrefixLen(key)) {
        assert forall j :: 0 <= j < n ==> keys[j] == keys[..n][j];
        assert IsPick(keys, version, Some(n));
      } else {
        assert forall j :: 0 <= j < n ==> keys[j] == keys[..n][j];
        assert IsPick(keys, version, p);
      }
    }
  }

  // FindPickedVersionEntry.
  method FindPicked(keys: seq<string>, version: string) returns (pick: Option<nat>)
    ensures pick == Pick(keys, version)
  {
    for i := 0 to |keys|
      invariant forall j :: 0 <= j < i ==> !MatchesExactly(keys[j], version)
    {
      if !IsWildcard(keys[i]) && keys[i] == version {
        PickUnique(keys, version, Some(i), Pick(keys, version));
        return Some(i);
      }
    }
    pick := None;
    var bestLen := 0;
    for i := 0 to |keys|
      invariant pick.None? ==> forall j :: 0 <= j < i ==> !MatchesWild(keys[j], version)
      invariant pick.Some? ==>
                  pick.value < i && MatchesWild(keys[pick.value], version) &&
                  bestLen == ExactPrefixLen(keys[pick.value]) &&
                  forall j :: 0 <= j < i && MatchesWild(keys[j], version) ==>
                    ExactPrefixLen(keys[j]) <= bestLen && (j < pick.value ==> ExactPrefixLen(keys[j]) < bestLen)
    {
      if IsWildcard(keys[i]) {
        var matches := TestWildcard(keys[i], version);
        if matches {
          var n := PrefixLength(keys[i]);
          if pick.None? || n > bestLen {
            pick, bestLen := Some(i), n;
          }
        }
      }
    }
    PickUnique(keys, version, pick, Pick(keys, version));
  }
}
