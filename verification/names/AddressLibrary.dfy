/**
 Shared names: three resolvers over one precedence (self before engine before other), per-plugin
 aliases, and a warning per colliding bare name.
 */
module AddressLibrary {
  import opened Lists
  import opened Options
  import Strings
  import VersionKeys

  datatype LocatorKind = Rva | AddressId | Pattern | TargetSymbol

  datatype Target = Target(author: string, plugin: string, bare: string, kind: LocatorKind, locator: nat,
                           signature: string)

  // What the declared store answers for a triple.
  datatype DeclaredHit = DeclaredHit(hit: bool, va: nat, signature: string)

  // A seed row; a signature view may be null.
  datatype Seed = Seed(address: nat, signature: Option<string>)

  // What a resolver reads: the registered targets and aliases, the seed, the declared store for the
  // running version, the module's base (0 when it is not mapped) and the id lookup.
  datatype View = View(
    targets: seq<Target>,
    aliases: map<string, map<string, string>>,
    seed: map<string, Seed>,
    declared: (string, string, string) -> DeclaredHit,
    base: nat,
    byId: nat -> nat)

  // The row a name leads to.
  datatype Row =
    | NoRow
    | TargetRow(index: nat)
    | DeclaredRow(author: string, plugin: string, bare: string)
    | SeedRow(name: string)

  // ---- Names -----------------------------------------------------------------

  // The segments of a name; the empty name has none.
  function Segments(name: string): seq<string> {
    if name == "" then [] else VersionKeys.Components(name)
  }

  predicate Component(s: string, max: nat) {
    2 <= |s| <= max && forall i :: 0 <= i < |s| ==> Strings.NameChar(s[i])
  }

  predicate PrefixName(s: string) {
    Component(s, 128) && s != "kcdx"
  }

  // The component characters are the small letters, the digits and the underscore, so none holds a dot.
  lemma PrefixNameMeans(s: string)
    ensures PrefixName(s) <==>
              s != "kcdx" && 2 <= |s| <= 128 &&
              forall i :: 0 <= i < |s| ==> 'a' <= s[i] <= 'z' || '0' <= s[i] <= '9' || s[i] == '_'
    ensures PrefixName(s) ==> '.' !in s && Segments(s) == [s]
  {
    if '.' !in s { VersionKeys.SplitComponent(s, ""); }
  }

  function OwnerKey(author: string, plugin: string): string {
    if author == "" then plugin else author + "." + plugin
  }

  // ---- The rows of each tier -------------------------------------------------

  predicate OwnedBy(t: Target, author: string, plugin: string, bare: string) {
    t.author == author && t.plugin == plugin && t.bare == bare
  }

  function Owned(v: View, author: string, plugin: string, bare: string): Option<nat> {
    FirstFrom(v.targets, (t: Target) => OwnedBy(t, author, plugin, bare), 0)
  }

  function OwnedByPlugin(v: View, plugin: string, bare: string): Option<nat> {
    FirstFrom(v.targets, (t: Target) => t.plugin == plugin && t.bare == bare, 0)
  }

  function OwnedByOther(v: View, author: string, plugin: string, bare: string): Option<nat> {
    FirstFrom(v.targets, (t: Target) => !(t.author == author && t.plugin == plugin) && t.bare == bare, 0)
  }

  function DeclaredFor(v: View, author: string, plugin: string, bare: string): DeclaredHit {
    if bare == "" || plugin == "" then DeclaredHit(false, 0, "") else v.declared(author, plugin, bare)
  }

  function SelfRow(v: View, author: string, plugin: string, bare: string): Row {
    if plugin != "" && Owned(v, author, plugin, bare).Some? then TargetRow(Owned(v, author, plugin, bare).value)
    else if DeclaredFor(v, author, plugin, bare).hit then DeclaredRow(author, plugin, bare)
    else NoRow
  }

  function OtherRow(v: View, author: string, plugin: string, bare: string): Row {
    match OwnedByOther(v, author, plugin, bare)
    case Some(i) => TargetRow(i)
    case None => NoRow
  }

  function ResolveAlias(v: View, author: string, plugin: string, name: string): string {
    if plugin == "" || name == "" then "" else
    var key := OwnerKey(author, plugin);
    if key in v.aliases && name in v.aliases[key] then v.aliases[key][name] else ""
  }

  type Aliases = map<string, map<string, string>>

  function WithAlias(aliases: Aliases, key: string, short: string, target: string): Aliases {
    aliases[key := (if key in aliases then aliases[key] else map[])[short := target]]
  }

  lemma HandleHasNoDot(short: string, max: nat)
    requires Component(short, max)
    ensures '.' !in short
  {}

  // The name that is resolved in the end.
  function Effective(v: View, author: string, plugin: string, name: string): string {
    var aliased := ResolveAlias(v, author, plugin, name);
    if aliased == "" then name else aliased
  }

  // ---- One row for a name ----------------------------------------------------

  function Occupants(self_: bool, engine: bool, other: bool): nat {
    (if self_ then 1 else 0) + (if engine then 1 else 0) + if other then 1 else 0
  }

  // Self before engine before other.
  function BareRow(v: View, author: string, plugin: string, bare: string): Row {
    if SelfRow(v, author, plugin, bare) != NoRow then SelfRow(v, author, plugin, bare)
    else if bare in v.seed then SeedRow(bare)
    else OtherRow(v, author, plugin, bare)
  }

  function RowOf(v: View, author: string, plugin: string, name: string): Row {
    if name == "" then NoRow else
    var eff := Effective(v, author, plugin, name);
    var q := Segments(eff);
    if |q| == 3 then
      if Owned(v, q[0], q[1], q[2]).Some? then TargetRow(Owned(v, q[0], q[1], q[2]).value)
      else if DeclaredFor(v, q[0], q[1], q[2]).hit then DeclaredRow(q[0], q[1], q[2])
      else NoRow
    else if |q| == 2 then
      if q[0] == "kcdx" then (if q[1] in v.seed then SeedRow(q[1]) else NoRow)
      else if OwnedByPlugin(v, q[0], q[1]).Some? then TargetRow(OwnedByPlugin(v, q[0], q[1]).value)
      else NoRow
    else if |q| == 1 then BareRow(v, author, plugin, eff)
    else NoRow
  }

  // Where a row lives.
  function AddressOf(v: View, r: Row): nat {
    match r
    case NoRow => 0
    case TargetRow(i) => if i < |v.targets| then TargetAddress(v, v.targets[i]) else 0
    case DeclaredRow(author, plugin, bare) => v.declared(author, plugin, bare).va
    case SeedRow(name) => if name in v.seed then v.seed[name].address else 0
  }

  // Patterns and symbols are resolved elsewhere.
  function TargetAddress(v: View, t: Target): nat {
    match t.kind
    case Rva => if t.locator == 0 || v.base == 0 then 0 else v.base + t.locator
    case AddressId => v.byId(t.locator)
    case Pattern => 0
    case TargetSymbol => 0
  }

  function SignatureOf(v: View, r: Row): string {
    match r
    case NoRow => ""
    case TargetRow(i) => if i < |v.targets| then v.targets[i].signature else ""
    case DeclaredRow(author, plugin, bare) => v.declared(author, plugin, bare).signature
    case SeedRow(name) => if name in v.seed && v.seed[name].signature.Some? then v.seed[name].signature.value else ""
  }

  // A seed row with a null signature view is invisible to the signature resolver.
  function Visible(seed: map<string, Seed>): map<string, Seed> {
    map k | k in seed && seed[k].signature.Some? :: seed[k]
  }

  predicate Collides(v: View, author: string, plugin: string, bare: string) {
    Occupants(SelfRow(v, author, plugin, bare) != NoRow, bare in v.seed,
              OtherRow(v, author, plugin, bare) != NoRow) >= 2
  }

  // Whether resolving this name may warn, and about what.
  predicate WarnsAbout(v: View, author: string, plugin: string, name: string) {
    name != "" && |Segments(Effective(v, author, plugin, name))| == 1 &&
    Collides(v, author, plugin, Effective(v, author, plugin, name))
  }

  // ---- The library -----------------------------------------------------------

  class AddressLibrary {
    var targets: seq<Target>
    var aliases: map<string, map<string, string>>
    var warned: set<string>
    var lines: seq<string>       // the collision warnings written, by name
    const seed: map<string, Seed>
    const declared: (string, string, string) -> DeclaredHit
    const base: nat
    const byId: nat -> nat

    constructor (seed: map<string, Seed>, declared: (string, string, string) -> DeclaredHit, base: nat,
                 byId: nat -> nat)
      ensures Valid() && targets == [] && aliases == map[] && lines == []
    {
      this.seed, this.declared, this.base, this.byId := seed, declared, base, byId;
      targets, aliases, warned, lines := [], map[], {}, [];
    }

    // A name is warned about at most once, and no alias has a dotted handle.
    ghost predicate Valid()
      reads this
    {
      && (forall i, j :: 0 <= i < j < |lines| ==> lines[i] != lines[j])
      && (forall n :: n in lines <==> n in warned)
      && (forall k, n :: k in aliases && n in aliases[k] ==> '.' !in n && aliases[k][n] != "")
    }

    function V(): View
      reads this
    {
      View(targets, aliases, seed, declared, base, byId)
    }

    // ---- Registering -----------------------------------------------------------

    method RegisterAuthorTarget(t: Target) returns (ok: bool)
      requires Valid()
      modifies `targets
      ensures Valid() && (ok <==>
                (t.author == "" || PrefixName(t.author)) && PrefixName(t.plugin) && Component(t.bare, 32))
      ensures targets == if ok then old(targets) + [t] else old(targets)
    {
      if t.author != "" && !PrefixName(t.author) { return false; }
      if !PrefixName(t.plugin) || !Component(t.bare, 32) { return false; }
      targets := targets + [t];
      return true;
    }

    method RegisterAlias(author: string, plugin: string, short: string, target: string) returns (ok: bool)
      requires Valid()
      modifies `aliases
      ensures Valid()
      ensures ok <==> (author == "" || PrefixName(author)) && PrefixName(plugin) && Component(short, 32) && target != ""
      ensures !ok ==> aliases == old(aliases)
      ensures ok ==> aliases == WithAlias(old(aliases), OwnerKey(author, plugin), short, target)
    {
      if plugin == "" || !PrefixName(plugin) { return false; }
      if author != "" && !PrefixName(author) { return false; }
      if !Component(short, 32) { return false; }
      if target == "" { return false; }
      HandleHasNoDot(short, 32);
      var key := OwnerKey(author, plugin);
      var mine := if key in aliases then aliases[key] else map[];
      aliases := aliases[key := mine[short := target]];
      return true;
    }

    // ---- Lookups ---------------------------------------------------------------

    method FindAuthorTarget(author: string, plugin: string, bare: string) returns (r: Option<nat>)
      ensures r == Owned(V(), author, plugin, bare)
    {
      for i := 0 to |targets|
        invariant forall j :: 0 <= j < i ==> !OwnedBy(targets[j], author, plugin, bare)
      {
        if targets[i].author == author && targets[i].plugin == plugin && targets[i].bare == bare { return Some(i); }
      }
      return None;
    }

    method FindAuthorTargetByPlugin(plugin: string, bare: string) returns (r: Option<nat>)
      ensures r == OwnedByPlugin(V(), plugin, bare)
    {
      for i := 0 to |targets|
        invariant forall j :: 0 <= j < i ==> !(targets[j].plugin == plugin && targets[j].bare == bare)
      {
        if targets[i].plugin == plugin && targets[i].bare == bare { return Some(i); }
      }
      return None;
    }

    method FindOtherAuthorTarget(author: string, plugin: string, bare: string) returns (r: Option<nat>)
      ensures r == OwnedByOther(V(), author, plugin, bare) && (r.Some? ==> r.value < |targets|)
    {
      for i := 0 to |targets|
        invariant forall j :: 0 <= j < i ==>
                  !(!(targets[j].author == author && targets[j].plugin == plugin) && targets[j].bare == bare)
      {
        if targets[i].author == author && targets[i].plugin == plugin { continue; }
        if targets[i].bare == bare { return Some(i); }
      }
      return None;
    }

    // A colliding name is written about the first time only.
    method MaybeWarnCollision(bare: string, selfHit: bool, engineHit: bool, otherHit: bool)
      requires Valid()
      modifies `warned, `lines
      ensures Valid() && old(lines) <= lines
      ensures warned == if Occupants(selfHit, engineHit, otherHit) >= 2 then old(warned) + {bare} else old(warned)
    {
      if Occupants(selfHit, engineHit, otherHit) < 2 { return; }
      if bare in warned { return; }
      warned := warned + {bare};
      lines := lines + [bare];
    }

    // The caller's own row: a registered target, or else a declared entry.
    method SelfTier(bare: string, author: string, plugin: string) returns (mine: Option<nat>, d: DeclaredHit)
      ensures mine.Some? ==> mine.value < |targets| && SelfRow(V(), author, plugin, bare) == TargetRow(mine.value)
      ensures mine.None? ==> SelfRow(V(), author, plugin, bare) == if d.hit then DeclaredRow(author, plugin, bare)
                                                                   else NoRow
      ensures mine.None? && d.hit ==> d == declared(author, plugin, bare)
    {
      mine := None;
      if plugin != "" {
        mine := FindAuthorTarget(author, plugin, bare);
      }
      d := DeclaredHit(false, 0, "");
      if mine.None? {
        d := DeclaredFor(V(), author, plugin, bare);
      }
    }

    // The shared decision about a bare name.
    method ResolveBareWinner(bare: string, author: string, plugin: string) returns (r: Row)
      requires Valid()
      modifies `warned, `lines
      ensures Valid() && old(lines) <= lines && r == BareRow(V(), author, plugin, bare)
      ensures warned == if Collides(V(), author, plugin, bare) then old(warned) + {bare} else old(warned)
    {
      var mine, d := SelfTier(bare, author, plugin);
      var engineHit := bare in seed;
      var other := FindOtherAuthorTarget(author, plugin, bare);
      MaybeWarnCollision(bare, mine.Some? || d.hit, engineHit, other.Some?);
      if mine.Some? { return TargetRow(mine.value); }
      if d.hit { return DeclaredRow(author, plugin, bare); }
      if engineHit { return SeedRow(bare); }
      if other.Some? { return TargetRow(other.value); }
      return NoRow;
    }

    method SplitQualified(name: string) returns (q: seq<string>)
      ensures q == Segments(name)
    {
      if name == "" { return []; }
      q := VersionKeys.Split(name);
    }

    method ResolveByName(name: string, author: string, plugin: string) returns (va: nat)
      requires Valid()
      modifies `warned, `lines
      ensures Valid() && old(lines) <= lines && va == AddressOf(V(), RowOf(V(), author, plugin, name))
      ensures warned == old(warned) +
                        if WarnsAbout(V(), author, plugin, name) then {Effective(V(), author, plugin, name)} else {}
    {
      hide Collides, BareRow, ResolveAlias, Segments;
      if name == "" { return 0; }
      var eff := Effective(V(), author, plugin, name);
      var q := SplitQualified(eff);
      if |q| == 0 || |q| > 3 { return 0; }
      if |q| == 3 {
        var t := FindAuthorTarget(q[0], q[1], q[2]);
        if t.Some? { return TargetAddress(V(), targets[t.value]); }
        var d := DeclaredFor(V(), q[0], q[1], q[2]);
        if d.hit { return d.va; }
        return 0;
      }
      if |q| == 2 {
        if q[0] == "kcdx" { return if q[1] in seed then seed[q[1]].address else 0; }
        var t := FindAuthorTargetByPlugin(q[0], q[1]);
        if t.None? { return 0; }
        return TargetAddress(V(), targets[t.value]);
      }
      var row := ResolveBareWinner(eff, author, plugin);
      return AddressOf(V(), row);
    }

    method FindResolvedAuthorTarget(name: string, author: string, plugin: string) returns (r: Option<nat>)
      requires Valid()
      modifies `warned, `lines
      ensures Valid() && old(lines) <= lines
      ensures r == var row := RowOf(V(), author, plugin, name); if row.TargetRow? then Some(row.index) else None
      ensures warned == old(warned) +
                        if WarnsAbout(V(), author, plugin, name) then {Effective(V(), author, plugin, name)} else {}
    {
      hide Collides, BareRow, ResolveAlias, Segments;
      if name == "" { return None; }
      var eff := Effective(V(), author, plugin, name);
      var q := SplitQualified(eff);
      if |q| == 0 || |q| > 3 { return None; }
      if |q| == 3 {
        r := FindAuthorTarget(q[0], q[1], q[2]);
        return;
      }
      if |q| == 2 {
        if q[0] == "kcdx" { return None; }
        r := FindAuthorTargetByPlugin(q[0], q[1]);
        return;
      }
      var row := ResolveBareWinner(eff, author, plugin);
      return if row.TargetRow? then Some(row.index) else None;
    }

    // The signature resolver takes the same steps over its own view of the seed.
    method ResolveSignatureByName(name: string, author: string, plugin: string) returns (s: string)
      requires Valid()
      modifies `warned, `lines
      ensures Valid() && old(lines) <= lines
      ensures var v := V().(seed := Visible(seed));
              s == SignatureOf(v, RowOf(v, author, plugin, name)) &&
              warned == if WarnsAbout(v, author, plugin, name) then old(warned) + {Effective(v, author, plugin, name)}
                        else old(warned)
    {
      hide Segments;
      if name == "" { return ""; }
      var eff := Effective(V(), author, plugin, name);
      var q := SplitQualified(eff);
      if |q| == 0 || |q| > 3 { return ""; }
      if |q| == 3 {
        var t := FindAuthorTarget(q[0], q[1], q[2]);
        if t.Some? { return targets[t.value].signature; }
        var d := DeclaredFor(V(), q[0], q[1], q[2]);
        if d.hit { return d.signature; }
        return "";
      }
      if |q| == 2 {
        if q[0] == "kcdx" {
          return if q[1] in seed && seed[q[1]].signature.Some? then seed[q[1]].signature.value else "";
        }
        var t := FindAuthorTargetByPlugin(q[0], q[1]);
        return if t.Some? then targets[t.value].signature else "";
      }
      s := BareSignature(eff, author, plugin);
    }

    method BareSignature(bare: string, author: string, plugin: string) returns (s: string)
      requires Valid()
      modifies `warned, `lines
      ensures Valid() && old(lines) <= lines
      ensures var v := V().(seed := Visible(seed));
              s == SignatureOf(v, BareRow(v, author, plugin, bare)) &&
              warned == if Collides(v, author, plugin, bare) then old(warned) + {bare} else old(warned)
    {
      hide FirstFrom, OwnedBy;
      var mine, d := SelfTier(bare, author, plugin);
      var engineHit := bare in seed && seed[bare].signature.Some?;
      var other := FindOtherAuthorTarget(author, plugin, bare);
      MaybeWarnCollision(bare, mine.Some? || d.hit, engineHit, other.Some?);
      if mine.Some? { return targets[mine.value].signature; }
      if d.hit { return d.signature; }
      if engineHit { return seed[bare].signature.value; }
      if other.Some? { return targets[other.value].signature; }
      return "";
    }
  }

  // ---- One row for all resolvers ---------------------------------------------

  // The name is resolved through the seed, by whichever form.
  predicate NeedsSeed(v: View, author: string, plugin: string, name: string, key: string) {
    name != "" &&
    var eff := Effective(v, author, plugin, name); var q := Segments(eff);
    (|q| == 2 && q[0] == "kcdx" && q[1] == key) || (|q| == 1 && eff == key && SelfRow(v, author, plugin, eff) == NoRow)
  }

  // The signature comes from the row the address comes from, unless the name goes through a seed row
  // whose signature view is null -- and then it does not.
  lemma SignatureRowIsAddressRow(v: View, author: string, plugin: string, name: string)
    ensures var u := v.(seed := Visible(v.seed));
            RowOf(u, author, plugin, name) == RowOf(v, author, plugin, name) <==>
              !exists key :: NeedsSeed(v, author, plugin, name, key) && key in v.seed && v.seed[key].signature.None?
  {
    hide Segments, ResolveAlias;
    var u := v.(seed := Visible(v.seed));
    assert Effective(u, author, plugin, name) == Effective(v, author, plugin, name) by {
      AliasIgnoresSeed(v, author, plugin, name);
    }
    var eff := Effective(v, author, plugin, name);
    var q := Segments(eff);
    assert SelfRow(u, author, plugin, eff) == SelfRow(v, author, plugin, eff);
    if name != "" && |q| == 2 && q[0] == "kcdx" {
      assert NeedsSeed(v, author, plugin, name, q[1]);
    }
    if name != "" && |q| == 1 && SelfRow(v, author, plugin, eff) == NoRow {
      assert NeedsSeed(v, author, plugin, name, eff);
    }
  }

  // ---- Where dotted names lead -----------------------------------------------

  lemma ThreeSegments(a: string, b: string, c: string)
    requires '.' !in a && '.' !in b && '.' !in c
    ensures Segments(a + "." + b + "." + c) == [a, b, c] && Segments(a + "." + b) == [a, b]
  {
    hide VersionKeys.Components, VersionKeys.FirstDot;
    assert a + "." + b + "." + c == a + "." + (b + "." + c);
    VersionKeys.SplitComponent(c, "");
    VersionKeys.SplitComponent(b, c);
    VersionKeys.SplitComponent(a, b + "." + c);
    VersionKeys.SplitComponent(a, b);
  }

  // A registered target of the library: no earlier one has the name, and no alias has a dotted handle.
  ghost predicate Registered(v: View, i: nat) {
    i < |v.targets| &&
    var t := v.targets[i];
    '.' !in t.author && '.' !in t.plugin && '.' !in t.bare &&
    (forall j :: 0 <= j < i ==>
       !(v.targets[j].author == t.author && v.targets[j].plugin == t.plugin && v.targets[j].bare == t.bare)) &&
    (forall k, n :: k in v.aliases && n in v.aliases[k] ==> '.' !in n)
  }

  // Spelled out with author, plugin and bare name, it is found by every caller: an offset lies above the
  // module's base, where there is one, an id is looked up, and what is found elsewhere has no address here.
  lemma FullNameAddress(v: View, i: nat, author: string, plugin: string)
    requires Registered(v, i)
    ensures var t := v.targets[i]; var row := RowOf(v, author, plugin, t.author + "." + t.plugin + "." + t.bare);
            row == TargetRow(i) && SignatureOf(v, row) == t.signature &&
            (t.kind.Rva? && t.locator != 0 && v.base != 0 ==> AddressOf(v, row) - v.base == t.locator) &&
            (t.kind.Rva? && (t.locator == 0 || v.base == 0) ==> AddressOf(v, row) == 0) &&
            (t.kind.AddressId? ==> AddressOf(v, row) == v.byId(t.locator)) &&
            (t.kind.Pattern? || t.kind.TargetSymbol? ==> AddressOf(v, row) == 0)
  {
    hide Segments, ResolveAlias, OwnedByPlugin, DeclaredFor, SelfRow;
    var t := v.targets[i];
    var name := t.author + "." + t.plugin + "." + t.bare;
    ThreeSegments(t.author, t.plugin, t.bare);
    assert name[|t.author|] == '.';
    AliasesLeaveDottedNames(v, author, plugin, name);
    var o := Owned(v, t.author, t.plugin, t.bare);
    assert OwnedBy(v.targets[i], t.author, t.plugin, t.bare);
  }

  // Spelled with plugin and bare name only, the first target of that plugin is found.
  lemma PluginNameAddress(v: View, i: nat, author: string, plugin: string)
    requires i < |v.targets| && (forall k, n :: k in v.aliases && n in v.aliases[k] ==> '.' !in n)
    requires var t := v.targets[i]; '.' !in t.plugin && '.' !in t.bare && t.plugin != "kcdx"
    requires forall j :: 0 <= j < i ==>
               !(v.targets[j].plugin == v.targets[i].plugin && v.targets[j].bare == v.targets[i].bare)
    ensures var t := v.targets[i]; RowOf(v, author, plugin, t.plugin + "." + t.bare) == TargetRow(i)
  {
    hide Segments, ResolveAlias, Owned, DeclaredFor, SelfRow;
    var t := v.targets[i];
    ThreeSegments(t.plugin, t.bare, t.bare);
    assert (t.plugin + "." + t.bare)[|t.plugin|] == '.';
    AliasesLeaveDottedNames(v, author, plugin, t.plugin + "." + t.bare);
    assert v.targets[i].plugin == t.plugin;
  }

  // The three tiers of a bare name.
  ghost predicate HasOwn(v: View, author: string, plugin: string, bare: string) {
    (plugin != "" && exists t :: t in v.targets && t.author == author && t.plugin == plugin && t.bare == bare) ||
    (plugin != "" && bare != "" && v.declared(author, plugin, bare).hit)
  }

  ghost predicate HasForeign(v: View, author: string, plugin: string, bare: string) {
    exists t :: t in v.targets && t.bare == bare && !(t.author == author && t.plugin == plugin)
  }

  lemma TiersMean(v: View, author: string, plugin: string, bare: string)
    ensures SelfRow(v, author, plugin, bare) != NoRow <==> HasOwn(v, author, plugin, bare)
    ensures OtherRow(v, author, plugin, bare) != NoRow <==> HasForeign(v, author, plugin, bare)
  {
    var o := Owned(v, author, plugin, bare);
    if o.Some? { assert OwnedBy(v.targets[o.value], author, plugin, bare); }
    var f := OwnedByOther(v, author, plugin, bare);
    if f.Some? { assert v.targets[f.value] in v.targets; }
  }

  // A bare name leads to the caller's own, or else to the seed, or else to another's, or nowhere; and it
  // is a collision when two of the three have it.
  lemma BarePrecedence(v: View, author: string, plugin: string, bare: string)
    ensures var own, engine := HasOwn(v, author, plugin, bare), bare in v.seed;
            var foreign := HasForeign(v, author, plugin, bare);
            (Collides(v, author, plugin, bare) <==> (own && engine) || (own && foreign) || (engine && foreign)) &&
            match BareRow(v, author, plugin, bare)
            case TargetRow(i) =>
              i < |v.targets| && v.targets[i].bare == bare &&
              (own <==> v.targets[i].author == author && v.targets[i].plugin == plugin) && (engine ==> own)
            case DeclaredRow(a, p, b) => (a, p, b) == (author, plugin, bare) && v.declared(a, p, b).hit
            case SeedRow(n) => n == bare && engine && !own
            case NoRow => !own && !engine && !foreign
  {
    hide Owned, DeclaredFor;
    TiersMean(v, author, plugin, bare);
    SelfRowIsOwn(v, author, plugin, bare);
  }

  lemma SelfRowIsOwn(v: View, author: string, plugin: string, bare: string)
    ensures match SelfRow(v, author, plugin, bare)
            case TargetRow(i) => i < |v.targets| && OwnedBy(v.targets[i], author, plugin, bare)
            case DeclaredRow(a, p, b) => (a, p, b) == (author, plugin, bare) && v.declared(a, p, b).hit
            case SeedRow(_) => false
            case NoRow => true
  {}

  // Without a registered target the declared store answers for a full name, and a name under "kcdx" is
  // the seed's.
  lemma DottedNameAddress(v: View, author: string, plugin: string, a: string, p: string, b: string)
    requires '.' !in a && '.' !in p && '.' !in b && p != "" && b != ""
    requires forall k, n :: k in v.aliases && n in v.aliases[k] ==> '.' !in n
    ensures (forall t :: t in v.targets ==> !(t.author == a && t.plugin == p && t.bare == b)) ==>
              var row := RowOf(v, author, plugin, a + "." + p + "." + b); var d := v.declared(a, p, b);
              AddressOf(v, row) == (if d.hit then d.va else 0) &&
              SignatureOf(v, row) == (if d.hit then d.signature else "")
    ensures var row := RowOf(v, author, plugin, "kcdx" + "." + b);
            AddressOf(v, row) == (if b in v.seed then v.seed[b].address else 0)
  {
    hide Segments, ResolveAlias, OwnedByPlugin, SelfRow;
    ThreeSegments(a, p, b);
    ThreeSegments("kcdx", b, b);
    assert (a + "." + p + "." + b)[|a|] == '.';
    assert ("kcdx" + "." + b)[4] == '.';
    AliasesLeaveDottedNames(v, author, plugin, a + "." + p + "." + b);
    AliasesLeaveDottedNames(v, author, plugin, "kcdx" + "." + b);
  }

  // One seed row, and its signature view is null.
  function NullView(): View {
    View([], map[], map["gEnv" := Seed(1, None)], (_, _, _) => DeclaredHit(false, 0, ""), 0, _ => 0)
  }

  // The address resolver finds that row, the signature resolver does not.
  lemma NullViewParts()
    ensures var v := NullView();
            RowOf(v, "", "", "gEnv") == SeedRow("gEnv") &&
            RowOf(v.(seed := Visible(v.seed)), "", "", "gEnv") != SeedRow("gEnv")
  {
    hide VersionKeys.Components, VersionKeys.FirstDot, Visible;
    var v := NullView();
    VersionKeys.SplitComponent("gEnv", "");
    assert RowOf(v, "", "", "gEnv") == SeedRow("gEnv");
    SignatureRowIsAddressRow(v, "", "", "gEnv");
    assert NeedsSeed(v, "", "", "gEnv", "gEnv");
  }

  lemma AliasIgnoresSeed(v: View, author: string, plugin: string, name: string)
    ensures ResolveAlias(v.(seed := Visible(v.seed)), author, plugin, name) == ResolveAlias(v, author, plugin, name)
  {}

  // ---- Aliases are local -----------------------------------------------------

  lemma {:induction false} KeyOfOwner(author: string, plugin: string)
    requires '.' !in author && '.' !in plugin
    ensures VersionKeys.Components(OwnerKey(author, plugin)) == if author == "" then [plugin] else [author, plugin]
  {
    VersionKeys.SplitComponent(plugin, "");
    if author != "" { VersionKeys.SplitComponent(author, plugin); }
  }

  // Owners whose names hold no dot have different keys.
  lemma OwnerKeyIsInjective(a1: string, p1: string, a2: string, p2: string)
    requires '.' !in a1 && '.' !in p1 && '.' !in a2 && '.' !in p2
    ensures OwnerKey(a1, p1) == OwnerKey(a2, p2) ==> a1 == a2 && p1 == p2
  {
    KeyOfOwner(a1, p1);
    KeyOfOwner(a2, p2);
  }

  // Registering an alias changes the answer for its own handle, in its own namespace, and no other.
  lemma AliasAnswers(v: View, author: string, plugin: string, short: string, target: string,
                     other: string, otherPlugin: string, name: string)
    requires '.' !in author && '.' !in plugin && '.' !in other && '.' !in otherPlugin
    requires plugin != "" && short != "" && target != ""
    ensures var u := v.(aliases := WithAlias(v.aliases, OwnerKey(author, plugin), short, target));
            ResolveAlias(u, other, otherPlugin, name) ==
              if (other, otherPlugin) == (author, plugin) && name == short then target
              else ResolveAlias(v, other, otherPlugin, name)
  {
    hide OwnerKey;
    OwnerKeyIsInjective(author, plugin, other, otherPlugin);
  }

  // An alias of one namespace changes nothing for callers of another one.
  lemma AliasIsLocal(v: View, u: View, author: string, plugin: string, short: string, target: string,
                     other: string, otherPlugin: string, name: string)
    requires '.' !in author && '.' !in plugin && '.' !in other && '.' !in otherPlugin
    requires (other, otherPlugin) != (author, plugin)
    requires short != "" && plugin != "" && target != ""
    requires u == v.(aliases := WithAlias(v.aliases, OwnerKey(author, plugin), short, target))
    ensures RowOf(u, other, otherPlugin, name) == RowOf(v, other, otherPlugin, name)
  {
    hide Segments, SelfRow, OtherRow, Owned, OwnedByPlugin, DeclaredFor;
    AliasAnswers(v, author, plugin, short, target, other, otherPlugin, name);
    assert Effective(u, other, otherPlugin, name) == Effective(v, other, otherPlugin, name);
    RowIgnoresAliases(v, u, other, otherPlugin, name);
  }

  lemma RowIgnoresAliases(v: View, u: View, author: string, plugin: string, name: string)
    requires u == v.(aliases := u.aliases) && Effective(u, author, plugin, name) == Effective(v, author, plugin, name)
    ensures RowOf(u, author, plugin, name) == RowOf(v, author, plugin, name)
  {
    hide Segments, Effective;
    assert u.targets == v.targets && u.seed == v.seed && u.declared == v.declared;
  }

  // And aliases change nothing for dotted names: none has a dotted handle.
  lemma AliasesLeaveDottedNames(v: View, author: string, plugin: string, name: string)
    requires forall k, n :: k in v.aliases && n in v.aliases[k] ==> '.' !in n
    requires '.' in name
    ensures Effective(v, author, plugin, name) == name
    ensures RowOf(v.(aliases := map[]), author, plugin, name) == RowOf(v, author, plugin, name)
  {
    hide Segments, SelfRow, OtherRow, Owned, OwnedByPlugin, DeclaredFor;
    RowIgnoresAliases(v, v.(aliases := map[]), author, plugin, name);
  }
}
