/**
 operator< on std::string, and what it means for prefixes.
 */
module Strings {
  // The characters of a shared-name component.
  predicate NameChar(c: char) {
    'a' <= c <= 'z' || '0' <= c <= '9' || c == '_'
  }

  predicate Before(a: string, b: string) {
    if b == "" then false
    else if a == "" then true
    else if a[0] != b[0] then a[0] < b[0]
    else Before(a[1..], b[1..])
  }

  lemma {:induction false} BeforeTotal(a: string, b: string)
    ensures a != b ==> (Before(a, b) <==> !Before(b, a))
    ensures !Before(a, a)
    decreases |a|
  {
    if a != "" {
      BeforeTotal(a[1..], a[1..]);
      if b != "" && a[0] == b[0] {
        assert a == [a[0]] + a[1..] && b == [b[0]] + b[1..];
        BeforeTotal(a[1..], b[1..]);
      }
    }
  }

  lemma {:induction false} BeforeTransitive(a: string, b: string, c: string)
    requires Before(a, b) && Before(b, c)
    ensures Before(a, c)
    decreases |a|
  {
    if a != "" && a[0] == b[0] == c[0] { BeforeTransitive(a[1..], b[1..], c[1..]); }
  }

  // Where the two first differ the lesser character decides, and an end comes before any character.
  lemma {:induction false} BeforeMeans(a: string, b: string)
    ensures Before(a, b) <==>
              a < b || exists i :: 0 <= i < |a| && i < |b| && a[..i] == b[..i] && a[i] < b[i]
    decreases |a|
  {
    if a != "" && b != "" && a[0] == b[0] {
      var c, d := a[1..], b[1..];
      assert a == [a[0]] + c && b == [b[0]] + d;
      BeforeMeans(c, d);
      assert a < b <==> c < d;
      if i :| 0 <= i < |c| && i < |d| && c[..i] == d[..i] && c[i] < d[i] {
        assert a[..i + 1] == [a[0]] + c[..i] && b[..i + 1] == [b[0]] + d[..i];
      }
      if i :| 0 <= i < |a| && i < |b| && a[..i] == b[..i] && a[i] < b[i] {
        assert i > 0;
        assert c[..i - 1] == a[..i][1..] && d[..i - 1] == b[..i][1..];
      }
    } else if a != "" && b != "" {
      assert a[..0] == b[..0];
      if i :| 0 <= i < |a| && i < |b| && a[..i] == b[..i] && a[i] < b[i] {
        if i > 0 { assert a[..i][0] == b[..i][0]; }
      }
    }
  }

  // A text does not come after any of its extensions.
  lemma {:induction false} PrefixIsNotAfter(p: string, a: string)
    requires p <= a
    ensures !Before(a, p)
    decreases |p|
  {
    if p != "" {
      assert a[0] == p[0] && p[1..] <= a[1..];
      PrefixIsNotAfter(p[1..], a[1..]);
    }
  }

  // What lies between a text and one of its extensions extends it too.
  lemma {:induction false} PrefixesAreContiguous(p: string, a: string, b: string)
    requires !Before(a, p) && Before(a, b) && p <= b
    ensures p <= a
    decreases |p|
  {
    if p != "" {
      assert b[0] == p[0] && a != "" && a[0] == p[0];
      assert p[1..] <= b[1..];
      PrefixesAreContiguous(p[1..], a[1..], b[1..]);
      assert p == [p[0]] + p[1..] && a == [a[0]] + a[1..];
    }
  }
}

/**
 Searching a list from the front.
 */
module Lists {
  import opened Options

  // The first element from i on that p holds of.
  function FirstFrom<T>(list: seq<T>, p: T -> bool, i: nat): (r: Option<nat>)
    requires i <= |list|
    ensures match r
            case None => forall j :: i <= j < |list| ==> !p(list[j])
            case Some(k) => i <= k < |list| && p(list[k]) && forall j :: i <= j < k ==> !p(list[j])
    decreases |list| - i
  {
    if i == |list| then None else if p(list[i]) then Some(i) else FirstFrom(list, p, i + 1)
  }
}
