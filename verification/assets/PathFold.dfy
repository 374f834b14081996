/**
 The path fold both hooks and the overlay map use as their key: ASCII lower case, one kind of
 slash, no repeated separators.  It is a canonical form: two paths fold to the same key exactly
 when elementary respellings lead from one to the other.
 */
module PathFold {
  function Lower(c: char): char {
    if 'A' <= c <= 'Z' then c - 'A' + 'a' else c
  }

  predicate IsSeparator(c: char) {
    c == '/' || c == '\\'
  }

  function FoldChar(c: char): char {
    if IsSeparator(c) then '/' else Lower(c)
  }

  predicate EndsWithSlash(s: string) {
    s != "" && s[|s| - 1] == '/'
  }

  // One character of the path, given what has been written so far.
  function Append(out: string, c: char): string {
    if IsSeparator(c) && EndsWithSlash(out) then out else out + [FoldChar(c)]
  }

  function Fold(path: string): string {
    if path == "" then "" else Append(Fold(path[..|path| - 1]), path[|path| - 1])
  }

  method NormalizeVPath(vpath: string) returns (out: string)
    ensures out == Fold(vpath)
  {
    out := "";
    for i := 0 to |vpath|
      invariant out == Fold(vpath[..i])
    {
      var c := vpath[i];
      assert vpath[..i + 1][..i] == vpath[..i];
      if c == '\\' || c == '/' {
        if out != "" && out[|out| - 1] == '/' { continue; }
        out := out + ['/'];
      } else if 'A' <= c <= 'Z' {
        out := out + [c - 'A' + 'a'];
      } else {
        out := out + [c];
      }
    }
    assert vpath[..|vpath|] == vpath;
  }

  // ---- Canonical form --------------------------------------------------------

  predicate Canonical(s: string) {
    && (forall i :: 0 <= i < |s| ==> !('A' <= s[i] <= 'Z') && s[i] != '\\')
    && (forall i :: 0 < i < |s| ==> !(s[i - 1] == '/' && s[i] == '/'))
  }

  lemma {:induction false} FoldIsCanonical(path: string)
    ensures Canonical(Fold(path))
    decreases |path|
  {
    if path != "" { FoldIsCanonical(path[..|path| - 1]); }
  }

  // The fold leaves exactly the canonical paths alone.
  lemma {:induction false} FixedIffCanonical(s: string)
    ensures Fold(s) == s <==> Canonical(s)
    decreases |s|
  {
    FoldIsCanonical(s);
    if s != "" {
      var n := |s| - 1;
      if Canonical(s) {
        FixedIffCanonical(s[..n]);
        assert s == s[..n] + [s[n]];
        assert n > 0 ==> s[..n][n - 1] == s[n - 1];
      }
    }
  }

  lemma {:induction false} FoldIdempotent(path: string)
    ensures Fold(Fold(path)) == Fold(path)
  {
    FoldIsCanonical(path);
    FixedIffCanonical(Fold(path));
  }

  // ---- Respellings -----------------------------------------------------------

  const CAPITALS := "ABCDEFGHIJKLMNOPQRSTUVWXYZ"
  const SMALLS := "abcdefghijklmnopqrstuvwxyz"

  // The capital and the small form of one letter.
  ghost predicate CaseOf(c: char, d: char) {
    exists k :: 0 <= k < 26 && c == CAPITALS[k] && d == SMALLS[k]
  }

  // The same character, two separators, or one letter in two cases.
  ghost predicate Alike(c: char, d: char) {
    c == d || (IsSeparator(c) && IsSeparator(d)) || CaseOf(c, d) || CaseOf(d, c)
  }

  lemma Alphabet(k: int)
    requires 0 <= k < 26
    ensures CAPITALS[k] as int == 'A' as int + k && SMALLS[k] as int == 'a' as int + k
  {}

  lemma CaseIsLower(c: char, d: char)
    ensures CaseOf(c, d) <==> 'A' <= c <= 'Z' && d == Lower(c)
  {
    if CaseOf(c, d) {
      var k :| 0 <= k < 26 && c == CAPITALS[k] && d == SMALLS[k];
      Alphabet(k);
    }
    if 'A' <= c <= 'Z' && d == Lower(c) {
      var k := c as int - 'A' as int;
      Alphabet(k);
      assert c == CAPITALS[k] && d == SMALLS[k];
    }
  }

  // The fold tells characters apart unless they are alike.
  lemma FoldCharIffAlike(c: char, d: char)
    ensures FoldChar(c) == FoldChar(d) <==> Alike(c, d)
  {
    hide CaseOf;
    CaseIsLower(c, d);
    CaseIsLower(d, c);
  }

  // Every capital folds to the small form of its letter, and nothing else is touched in a one-letter path.
  lemma LetterFolds(k: int, c: char)
    requires 0 <= k < 26
    ensures Fold([CAPITALS[k]]) == [SMALLS[k]]
    ensures c !in CAPITALS && c != '\\' ==> Fold([c]) == [c]
  {
    CaseIsLower(CAPITALS[k], SMALLS[k]);
    assert [c][..0] == [] && [CAPITALS[k]][..0] == [];
    if 'A' <= c <= 'Z' {
      Alphabet(c as int - 'A' as int);
      assert c == CAPITALS[c as int - 'A' as int];
    }
  }

  // One respelling: a letter changes case or a separator its kind, or a separator behind a
  // separator is dropped.
  ghost predicate Recased(a: string, b: string, i: nat) {
    |a| == |b| && i < |a| && b == a[i := b[i]] && Alike(a[i], b[i])
  }

  ghost predicate Dropped(a: string, b: string, i: nat) {
    0 < i < |a| && IsSeparator(a[i - 1]) && IsSeparator(a[i]) && b == a[..i] + a[i + 1..]
  }

  ghost predicate Respelled(a: string, b: string) {
    exists i: nat :: Recased(a, b, i) || Dropped(a, b, i) || Dropped(b, a, i)
  }

  // A series of respellings leads from the one path to the other.
  ghost predicate Linked(a: string, b: string) {
    exists chain: seq<string> :: IsChain(chain, a, b)
  }

  ghost predicate IsChain(chain: seq<string>, a: string, b: string) {
    |chain| > 0 && chain[0] == a && chain[|chain| - 1] == b &&
    forall i :: 0 < i < |chain| ==> Respelled(chain[i - 1], chain[i])
  }

  lemma {:induction false} FoldOfConcat(a: string, b: string, t: string)
    requires Fold(a) == Fold(b)
    ensures Fold(a + t) == Fold(b + t)
    decreases |t|
  {
    if t == "" {
      assert a + t == a && b + t == b;
    } else {
      var n := |t| - 1;
      FoldOfConcat(a, b, t[..n]);
      assert (a + t)[..|a + t| - 1] == a + t[..n] && (b + t)[..|b + t| - 1] == b + t[..n];
    }
  }

  lemma FoldSnoc(s: string, c: char)
    ensures Fold(s + [c]) == Append(Fold(s), c)
  {
    assert (s + [c])[..|s|] == s;
  }

  lemma RecasingKeepsFold(a: string, b: string, i: nat)
    requires Recased(a, b, i)
    ensures Fold(a) == Fold(b)
  {
    hide Fold, Alike;
    FoldCharIffAlike(a[i], b[i]);
    var p, t := a[..i], a[i + 1..];
    FoldSnoc(p, a[i]);
    FoldSnoc(p, b[i]);
    assert a == (p + [a[i]]) + t && b == (p + [b[i]]) + t;
    FoldOfConcat(p + [a[i]], p + [b[i]], t);
  }

  lemma DroppingKeepsFold(a: string, b: string, i: nat)
    requires Dropped(a, b, i)
    ensures Fold(a) == Fold(b)
  {
    hide Fold;
    var p, t := a[..i - 1], a[i + 1..];
    FoldSnoc(p, a[i - 1]);
    FoldSnoc(p + [a[i - 1]], a[i]);
    assert a == (p + [a[i - 1]] + [a[i]]) + t && b == (p + [a[i - 1]]) + t;
    FoldOfConcat(p + [a[i - 1]] + [a[i]], p + [a[i - 1]], t);
  }

  lemma {:induction false} ChainKeepsFold(chain: seq<string>, a: string, b: string)
    requires IsChain(chain, a, b)
    ensures Fold(a) == Fold(b)
    decreases |chain|
  {
    hide Fold, Recased, Dropped;
    var n := |chain| - 1;
    if n > 0 {
      ChainKeepsFold(chain[..n], a, chain[n - 1]);
      assert Respelled(chain[n - 1], chain[n]);
      var i: nat :| Recased(chain[n - 1], chain[n], i) || Dropped(chain[n - 1], chain[n], i) ||
      Dropped(chain[n], chain[n - 1], i);
      if Recased(chain[n - 1], chain[n], i) {
        RecasingKeepsFold(chain[n - 1], chain[n], i);
      } else if Dropped(chain[n - 1], chain[n], i) {
        DroppingKeepsFold(chain[n - 1], chain[n], i);
      } else {
        DroppingKeepsFold(chain[n], chain[n - 1], i);
      }
    }
  }

  lemma RespelledSym(a: string, b: string)
    requires Respelled(a, b)
    ensures Respelled(b, a)
  {
    var i: nat :| Recased(a, b, i) || Dropped(a, b, i) || Dropped(b, a, i);
    assert Recased(a, b, i) ==> Recased(b, a, i);
  }

  lemma RespelledSnoc(a: string, b: string, c: char)
    requires Respelled(a, b)
    ensures Respelled(a + [c], b + [c])
  {
    hide Recased, Dropped;
    var i: nat :| Recased(a, b, i) || Dropped(a, b, i) || Dropped(b, a, i);
    if Recased(a, b, i) {
      RecasedSnoc(a, b, i, c);
    } else if Dropped(a, b, i) {
      DroppedSnoc(a, b, i, c);
    } else {
      DroppedSnoc(b, a, i, c);
    }
  }

  lemma RecasedSnoc(a: string, b: string, i: nat, c: char)
    requires Recased(a, b, i)
    ensures Recased(a + [c], b + [c], i)
  {}

  lemma DroppedSnoc(a: string, b: string, i: nat, c: char)
    requires Dropped(a, b, i)
    ensures Dropped(a + [c], b + [c], i)
  {
    assert b + [c] == (a + [c])[..i] + (a + [c])[i + 1..];
  }

  lemma ChainSnoc(chain: seq<string>, a: string, b: string, c: char) returns (longer: seq<string>)
    requires IsChain(chain, a, b)
    ensures IsChain(longer, a + [c], b + [c])
  {
    longer := seq(|chain|, i requires 0 <= i < |chain| => chain[i] + [c]);
    forall i | 0 < i < |longer| ensures Respelled(longer[i - 1], longer[i]) {
      RespelledSnoc(chain[i - 1], chain[i], c);
    }
  }

  lemma ChainReverse(chain: seq<string>, a: string, b: string) returns (back: seq<string>)
    requires IsChain(chain, a, b)
    ensures IsChain(back, b, a)
  {
    var n := |chain|;
    back := seq(n, i requires 0 <= i < n => chain[n - 1 - i]);
    forall i | 0 < i < |back| ensures Respelled(back[i - 1], back[i]) {
      assert Respelled(chain[n - 1 - i], chain[n - i]);
      RespelledSym(chain[n - 1 - i], chain[n - i]);
    }
  }

  lemma ChainJoin(x: seq<string>, a: string, b: string, y: seq<string>, c: string) returns (z: seq<string>)
    requires IsChain(x, a, b) && IsChain(y, b, c)
    ensures IsChain(z, a, c)
  {
    z := x + y[1..];
    forall i | 0 < i < |z| ensures Respelled(z[i - 1], z[i]) {
      if i < |x| {
        assert z[i - 1] == x[i - 1] && z[i] == x[i];
      } else {
        assert z[i] == y[i - |x| + 1] && z[i - 1] == y[i - |x|];
      }
    }
  }

  // Every path is linked to its key.
  lemma {:induction false} ChainToFold(path: string) returns (chain: seq<string>)
    ensures IsChain(chain, path, Fold(path))
    decreases |path|
  {
    if path == "" {
      chain := [""];
    } else {
      var n := |path| - 1;
      var p, c := path[..n], path[n];
      assert path == p + [c];
      var shorter := ChainToFold(p);
      var longer := ChainSnoc(shorter, p, Fold(p), c);
      var last := Fold(p) + [c];
      if IsSeparator(c) && EndsWithSlash(Fold(p)) {
        assert Fold(path) == last[..|last| - 1] + last[|last|..];
        assert Dropped(last, Fold(path), |last| - 1);
      } else {
        FoldCharIffAlike(c, FoldChar(c));
        assert Recased(last, Fold(path), |Fold(p)|);
      }
      assert IsChain([last, Fold(path)], last, Fold(path));
      chain := ChainJoin(longer, path, last, [last, Fold(path)], Fold(path));
    }
  }

  // Two paths have the same key if and only if they differ by case, slash kind or repeated
  // separators only.
  lemma FoldEqualIffLinked(a: string, b: string)
    ensures Fold(a) == Fold(b) <==> Linked(a, b)
  {
    if Linked(a, b) {
      var chain :| IsChain(chain, a, b);
      ChainKeepsFold(chain, a, b);
    }
    if Fold(a) == Fold(b) {
      var x := ChainToFold(a);
      var y := ChainToFold(b);
      var back := ChainReverse(y, b, Fold(b));
      var z := ChainJoin(x, a, Fold(a), back, b);
    }
  }
}
