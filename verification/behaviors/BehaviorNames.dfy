/**
 The names of behaviors: how a caller's name leads to a declared behavior, and how the listing
 walks the ordered store.
 */
module BehaviorNames {
  import opened Lists
  import opened Options
  import RefLedger
  import Strings
  import VersionKeys

  type Tier = RefLedger.Tier

  datatype Declared = Declared(tier: Tier, author: string, plugin: string, bare: string)

  const ENGINE_ROOT := "kcdx.behavior."

  function FullName(d: Declared): string {
    if d.tier.Engine? then ENGINE_ROOT + d.bare else d.author + "." + d.plugin + "." + d.bare
  }

  // The store: ordered by full name, as std::map is, with each behavior under its own name.
  ghost predicate Ordered(store: seq<Declared>) {
    forall i, j :: 0 <= i < j < |store| ==> Strings.Before(FullName(store[i]), FullName(store[j]))
  }

  // Authors and plugins hold no dot and are not empty, and the engine's own author is not a plugin's;
  // a bare name is not empty, and may hold dots when it is declared from C++.
  predicate NameOk(d: Declared) {
    d.bare != "" &&
    (d.tier.Plugin? ==> d.author != "" && '.' !in d.author && d.plugin != "" && '.' !in d.plugin && d.author != "kcdx")
  }

  ghost predicate Valid(store: seq<Declared>) {
    Ordered(store) && forall d :: d in store ==> NameOk(d)
  }

  function Lookup(store: seq<Declared>, fullName: string): Option<nat> {
    FirstFrom(store, (d: Declared) => FullName(d) == fullName, 0)
  }

  predicate IsOther(d: Declared, author: string, plugin: string, bare: string) {
    d.bare == bare && d.tier.Plugin? && !(d.author == author && d.plugin == plugin)
  }

  function SelfOf(store: seq<Declared>, author: string, plugin: string, bare: string): Option<nat> {
    if author != "" && plugin != "" then Lookup(store, author + "." + plugin + "." + bare) else None
  }

  function EngineOf(store: seq<Declared>, bare: string): Option<nat> {
    Lookup(store, ENGINE_ROOT + bare)
  }

  function OtherOf(store: seq<Declared>, author: string, plugin: string, bare: string): Option<nat> {
    FirstFrom(store, (d: Declared) => IsOther(d, author, plugin, bare), 0)
  }

  // What a name leads to, for a caller whose alias for it (or "") is given.
  function Resolve(store: seq<Declared>, author: string, plugin: string, name: string, alias: string): Option<nat> {
    if name == "" then None else
    var eff := if alias == "" then name else alias;
    var segs := VersionKeys.Components(eff);
    if "" in segs then None
    else if |segs| == 3 then Lookup(store, eff)
    else if |segs| != 1 then None
    else if SelfOf(store, author, plugin, eff).Some? then SelfOf(store, author, plugin, eff)
    else if EngineOf(store, eff).Some? then EngineOf(store, eff)
    else OtherOf(store, author, plugin, eff)
  }

  // The name that is looked up.
  function Effective(name: string, alias: string): string {
    if alias == "" then name else alias
  }

  // A bare name that at least two of the tiers have.
  predicate Collides(store: seq<Declared>, author: string, plugin: string, name: string, alias: string) {
    var eff := Effective(name, alias);
    var mine, engine, other := SelfOf(store, author, plugin, eff), EngineOf(store, eff),
        OtherOf(store, author, plugin, eff);
    name != "" && VersionKeys.Components(eff) == [eff] && eff != "" &&
    ((mine.Some? && engine.Some?) || (mine.Some? && other.Some?) || (engine.Some? && other.Some?))
  }

  class Names {
    var warned: set<string>
    var lines: seq<string>      // the collision warnings, by bare name

    constructor ()
      ensures Valid() && lines == []
    {
      warned, lines := {}, [];
    }

    ghost predicate Valid()
      reads this
    {
      (forall i, j :: 0 <= i < j < |lines| ==> lines[i] != lines[j]) && forall n :: n in lines <==> n in warned
    }

    // All three tiers are looked at before one wins, so that a name in two of them is warned about,
    // once, whichever wins.
    method ResolveForCaller(store: seq<Declared>, author: string, plugin: string, name: string, alias: string)
      returns (r: Option<nat>)
      requires Valid()
      modifies this
      ensures Valid() && r == Resolve(store, author, plugin, name, alias)
      ensures Collides(store, author, plugin, name, alias) && Effective(name, alias) !in old(warned) ==>
                lines == old(lines) + [Effective(name, alias)] && warned == old(warned) + {Effective(name, alias)}
      ensures !Collides(store, author, plugin, name, alias) || Effective(name, alias) in old(warned) ==>
                lines == old(lines) && warned == old(warned)
    {
      hide SelfOf, EngineOf, OtherOf;
      if name == "" { return None; }
      var eff := if alias == "" then name else alias;
      var segs := VersionKeys.Split(eff);
      for i := 0 to |segs|
        invariant forall k :: 0 <= k < i ==> segs[k] != ""
      {
        if segs[i] == "" { return None; }
      }
      if |segs| == 3 { return Lookup(store, eff); }
      if |segs| != 1 { return None; }
      OneComponent(eff);
      var mine := SelfOf(store, author, plugin, eff);
      var engine := EngineOf(store, eff);
      var other := FirstOther(store, author, plugin, eff);
      var occupants := (if mine.Some? then 1 else 0) + (if engine.Some? then 1 else 0) + (if other.Some? then 1 else 0);
      if occupants >= 2 { WarnOnce(eff); }
      if mine.Some? { return mine; }
      if engine.Some? { return engine; }
      return other;
    }

    method WarnOnce(name: string)
      requires Valid()
      modifies this
      ensures Valid() && warned == old(warned) + {name}
      ensures lines == if name in old(warned) then old(lines) else old(lines) + [name]
    {
      if name !in warned {
        warned := warned + {name};
        lines := lines + [name];
      }
    }

    method FirstOther(store: seq<Declared>, author: string, plugin: string, bare: string) returns (r: Option<nat>)
      ensures r == OtherOf(store, author, plugin, bare)
    {
      for i := 0 to |store|
        invariant forall k :: 0 <= k < i ==> !IsOther(store[k], author, plugin, bare)
      {
        if store[i].bare != bare { continue; }
        if store[i].tier.Engine? { continue; }
        if store[i].author == author && store[i].plugin == plugin { continue; }
        return Some(i);
      }
      return None;
    }
  }

  // ---- Full names ------------------------------------------------------------

  lemma OneComponent(s: string)
    ensures |VersionKeys.Components(s)| == 1 <==> '.' !in s
    ensures '.' !in s ==> VersionKeys.Components(s) == [s]
  {
    hide VersionKeys.FirstDot;
    var d := VersionKeys.FirstDot(s);
    if d < |s| { assert s[d] == '.'; } else { assert s[..d] == s; }
  }

  // The two leading components of a full name.
  function Owner(d: Declared): seq<string> {
    if d.tier.Engine? then ["kcdx", "behavior"] else [d.author, d.plugin]
  }

  lemma TwoComponents(a: string, b: string, s: string)
    requires '.' !in a && '.' !in b
    ensures VersionKeys.Components(a + "." + b + "." + s) == [a, b] + VersionKeys.Components(s)
  {
    hide VersionKeys.Components, VersionKeys.FirstDot;
    assert a + "." + b + "." + s == a + "." + (b + "." + s);
    VersionKeys.SplitComponent(b, s);
    VersionKeys.SplitComponent(a, b + "." + s);
  }

  lemma FullNameComponents(d: Declared)
    requires NameOk(d)
    ensures VersionKeys.Components(FullName(d)) == Owner(d) + VersionKeys.Components(d.bare)
    ensures |VersionKeys.Components(FullName(d))| == 3 <==> '.' !in d.bare
    ensures '.' !in d.bare ==> VersionKeys.Components(d.bare) == [d.bare]
  {
    hide VersionKeys.Components;
    OneComponent(d.bare);
    if d.tier.Engine? {
      assert FullName(d) == "kcdx" + "." + "behavior" + "." + d.bare;
      TwoComponents("kcdx", "behavior", d.bare);
    } else {
      TwoComponents(d.author, d.plugin, d.bare);
    }
  }

  // Full names identify behaviors, tier and owner included.
  lemma FullNameIsInjective(d: Declared, e: Declared)
    requires NameOk(d) && NameOk(e) && FullName(d) == FullName(e)
    ensures d.tier == e.tier && d.bare == e.bare && (d.tier.Plugin? ==> d == e)
  {
    hide VersionKeys.Components;
    FullNameComponents(d);
    FullNameComponents(e);
    var c := VersionKeys.Components(FullName(d));
    assert Owner(d)[0] == c[0] && Owner(d)[1] == c[1] && Owner(e)[0] == c[0] && Owner(e)[1] == c[1];
    var p := if d.tier.Engine? then ENGINE_ROOT else d.author + "." + d.plugin + ".";
    assert FullName(d) == p + d.bare && FullName(e) == p + e.bare;
    assert d.bare == FullName(d)[|p|..] && e.bare == FullName(e)[|p|..];
  }

  lemma OneBehaviorPerName(store: seq<Declared>, i: nat)
    requires Valid(store) && i < |store|
    ensures Lookup(store, FullName(store[i])) == Some(i)
  {
    hide Ordered;
    var k := Lookup(store, FullName(store[i])).value;
    Strings.BeforeTotal(FullName(store[i]), FullName(store[i]));
    if k < i { OrderAt(store, k, i); }
  }

  lemma OrderAt(store: seq<Declared>, i: nat, j: nat)
    requires Ordered(store) && i < j < |store|
    ensures Strings.Before(FullName(store[i]), FullName(store[j]))
  {}

  // However a name led to a behavior, that behavior's full name leads every caller there.
  lemma FullNameLeadsBack(store: seq<Declared>, author: string, plugin: string, name: string, alias: string,
                          otherAuthor: string, otherPlugin: string)
    requires Valid(store) && Resolve(store, author, plugin, name, alias).Some? && '.' !in author && '.' !in plugin
    ensures var i := Resolve(store, author, plugin, name, alias).value;
            i < |store| && Resolve(store, otherAuthor, otherPlugin, FullName(store[i]), "") == Some(i)
  {
    hide VersionKeys.Components, Ordered;
    var i := Resolve(store, author, plugin, name, alias).value;
    var eff := Effective(name, alias);
    assert store[i] in store;
    OneComponent(eff);
    if |VersionKeys.Components(eff)| == 1 {
      TwoComponents(author, plugin, eff);
      TwoComponents("kcdx", "behavior", eff);
      assert ENGINE_ROOT + eff == "kcdx" + "." + "behavior" + "." + eff;
      FullNameComponents(store[i]);
      var segs := VersionKeys.Components(FullName(store[i]));
      assert segs[2] != "" && |segs| == 3;
    }
    OneBehaviorPerName(store, i);
  }

  // A behavior with a dot in its bare name is never the answer, for no caller and no name: its full
  // name has too many components.  Every other behavior answers to its full name.
  lemma ReachedOnlyWithoutDots(store: seq<Declared>, i: nat, author: string, plugin: string, name: string,
                               alias: string)
    requires Valid(store) && i < |store| && '.' !in author && '.' !in plugin
    ensures Resolve(store, author, plugin, name, alias) == Some(i) ==> '.' !in store[i].bare
    ensures var d := store[i];
            var full := if d.tier.Engine? then "kcdx.behavior." + d.bare
                        else d.author + "." + d.plugin + "." + d.bare;
            Resolve(store, author, plugin, full, "") == Some(i) <==> '.' !in d.bare
  {
    hide VersionKeys.Components, Ordered, SelfOf, EngineOf, OtherOf;
    assert store[i] in store;
    FullNameComponents(store[i]);
    OneBehaviorPerName(store, i);
    if Resolve(store, author, plugin, name, alias) == Some(i) {
      FullNameLeadsBack(store, author, plugin, name, alias, author, plugin);
    }
  }

  // A bare name leads to a behavior exactly when some tier has it, and then to the first tier's:
  // the caller's own, the engine's, or the foreign one with the least full name.
  lemma BarePrecedence(store: seq<Declared>, author: string, plugin: string, bare: string)
    requires Valid(store) && bare != "" && '.' !in bare && '.' !in author && '.' !in plugin && author != "kcdx"
    ensures match Resolve(store, author, plugin, bare, "")
            case None => forall d :: d in store ==> d.bare != bare
            case Some(i) =>
              i < |store| && store[i].bare == bare &&
              (store[i].tier.Engine? ==>
                 forall d :: d in store && d.bare == bare && d.tier.Plugin? ==>
                 !(d.author == author && d.plugin == plugin)) &&
              (IsOther(store[i], author, plugin, bare) ==>
                 (forall d :: d in store && d.bare == bare ==> IsOther(d, author, plugin, bare)) &&
                 (forall j :: 0 <= j < i ==> store[j].bare != bare))
  {
    VersionKeys.SplitComponent(bare, "");
    forall d | d in store && d.bare == bare && !IsOther(d, author, plugin, bare)
      ensures if d.tier.Engine? then EngineOf(store, bare).Some? else SelfOf(store, author, plugin, bare).Some?
    {
      var k :| 0 <= k < |store| && store[k] == d;
      OneBehaviorPerName(store, k);
    }
    var me, engine := SelfOf(store, author, plugin, bare), EngineOf(store, bare);
    if me.Some? { FoundByName(store, me.value, Declared(RefLedger.Plugin, author, plugin, bare)); }
    if engine.Some? { FoundByName(store, engine.value, Declared(RefLedger.Engine, "", "", bare)); }
  }

  // Which tier a behavior is in for a caller: the caller's own, the engine's, the others'.
  function TierFor(d: Declared, author: string, plugin: string): nat {
    if d.tier.Engine? then 1 else if d.author == author && d.plugin == plugin then 0 else 2
  }

  // The warning is about exactly this: two behaviors of that bare name in different tiers.
  lemma CollisionMeansTwoTiers(store: seq<Declared>, author: string, plugin: string, bare: string)
    requires Valid(store) && bare != "" && '.' !in bare && '.' !in author && '.' !in plugin && author != "kcdx"
    ensures Collides(store, author, plugin, bare, "") <==>
              exists i, j :: 0 <= i < |store| && 0 <= j < |store| && store[i].bare == bare && store[j].bare == bare &&
                             TierFor(store[i], author, plugin) != TierFor(store[j], author, plugin)
  {
    hide Ordered, VersionKeys.Components;
    OneComponent(bare);
    var me, engine := SelfOf(store, author, plugin, bare), EngineOf(store, bare);
    var other := OtherOf(store, author, plugin, bare);
    if me.Some? { FoundByName(store, me.value, Declared(RefLedger.Plugin, author, plugin, bare)); }
    if engine.Some? { FoundByName(store, engine.value, Declared(RefLedger.Engine, "", "", bare)); }
    forall k | 0 <= k < |store| && store[k].bare == bare
      ensures match TierFor(store[k], author, plugin) case 0 => me.Some? case 1 => engine.Some? case _ => other.Some?
    {
      OneBehaviorPerName(store, k);
      assert store[k] in store;
    }
  }

  lemma FoundByName(store: seq<Declared>, i: nat, d: Declared)
    requires Valid(store) && i < |store| && NameOk(d) && FullName(store[i]) == FullName(d)
    ensures store[i].tier == d.tier && store[i].bare == d.bare && (d.tier.Plugin? ==> store[i] == d)
  {
    assert store[i] in store;
    FullNameIsInjective(store[i], d);
  }

  // ---- The listing -----------------------------------------------------------

  function WithPrefix(names: seq<string>, prefix: string): (r: seq<string>) {
    if names == [] then [] else
    var n := |names| - 1;
    WithPrefix(names[..n], prefix) + if prefix <= names[n] then [names[n]] else []
  }

  ghost predicate Sorted(names: seq<string>) {
    forall i, j :: 0 <= i < j < |names| ==> Strings.Before(names[i], names[j])
  }

  // From the lower bound to the first name without the prefix: that is all names with the prefix.
  method Enumerate(names: seq<string>, prefix: string) returns (out: seq<string>)
    requires Sorted(names)
    ensures out == WithPrefix(names, prefix)
  {
    var i := 0;
    while i < |names| && Strings.Before(names[i], prefix)
      invariant i <= |names| && WithPrefix(names[..i], prefix) == []
    {
      if prefix <= names[i] { Strings.PrefixIsNotAfter(prefix, names[i]); }
      assert names[..i + 1][..i] == names[..i];
      i := i + 1;
    }
    out := [];
    ghost var from := i;
    LowerBound(names, prefix, i);
    while i < |names|
      invariant from <= i <= |names| && out == WithPrefix(names[..i], prefix)
      invariant forall k :: from <= k < |names| ==> !Strings.Before(names[k], prefix)
    {
      if !(prefix <= names[i]) {
        NoMore(names, prefix, i);
        return;
      }
      assert names[..i + 1][..i] == names[..i];
      out := out + [names[i]];
      i := i + 1;
    }
    assert names[..i] == names;
  }

  lemma LowerBound(names: seq<string>, prefix: string, i: nat)
    requires Sorted(names) && i <= |names| && (i < |names| ==> !Strings.Before(names[i], prefix))
    ensures forall k :: i <= k < |names| ==> !Strings.Before(names[k], prefix)
  {
    forall k | i < k < |names| ensures !Strings.Before(names[k], prefix) {
      if Strings.Before(names[k], prefix) { Strings.BeforeTransitive(names[i], names[k], prefix); }
    }
  }

  lemma {:induction false} NoMore(names: seq<string>, prefix: string, i: nat)
    requires Sorted(names) && i < |names| && !Strings.Before(names[i], prefix) && !(prefix <= names[i])
    ensures WithPrefix(names, prefix) == WithPrefix(names[..i], prefix)
    decreases |names|
  {
    var n := |names| - 1;
    if i < n {
      if prefix <= names[n] { Strings.PrefixesAreContiguous(prefix, names[i], names[n]); }
      assert names[..n][..i] == names[..i];
      NoMore(names[..n], prefix, i);
    }
  }
}
