/**
 The two-pass build of the overlay map.  Pass one keys every vanilla target and indexes what the
 plugins publish; pass two resolves the targets that name other plugins' assets and keys those.
 */
module Overlay {
  import opened Options
  import opened PathFold
  import opened Sidecar
  import VersionKeys

  datatype Entry = Entry(owner: string, disk: string)

  datatype Published = Published(disk: string, serve: string)

  // A plugin as the build sees it, in load order: its declarations are the accepted sidecar rows.
  datatype Plugin = Plugin(hasAssets: bool, decls: seq<Declaration>)

  // A loaded plugin as the identity search sees it.
  datatype Loaded = Loaded(author: string, name: string, hasAssets: bool)

  // Everything the build reads: the plugins in load order, the loaded plugins in discovery order,
  // and which files exist below a loaded plugin's assets directory.
  datatype World = World(order: seq<Plugin>, loaded: seq<Loaded>, isFile: (nat, string) -> bool)

  // ---- Keys ------------------------------------------------------------------

  function LowerAll(s: string): (r: string)
    ensures |r| == |s|
  {
    seq(|s|, i requires 0 <= i < |s| => Lower(s[i]))
  }

  function PackName(author: string, plugin: string, bare: string): string {
    LowerAll(if author == "" then plugin + "." + bare else author + "." + plugin + "." + bare)
  }

  function PluginPathKey(author: string, plugin: string, rel: string): string {
    LowerAll(if author == "" then plugin else author + "." + plugin) + "|" + rel
  }

  function Packed(d: Declaration): string {
    PackName(d.author, d.plugin, d.publishName)
  }

  predicate Publishes(d: Declaration) {
    d.publishName != ""
  }

  // ---- The identity search ---------------------------------------------------

  predicate Matches(p: Loaded, ident: string) {
    var d := VersionKeys.FirstDot(ident);
    if d == |ident| then p.name == ident
    else p.name == ident[d + 1..] && (d == 0 || p.author == ident[..d])
  }

  predicate HasPluginPart(ident: string) {
    VersionKeys.FirstDot(ident) + 1 < |ident| || (VersionKeys.FirstDot(ident) == |ident| && ident != "")
  }

  // The first loaded plugin the identity names.
  function FindIn(loaded: seq<Loaded>, ident: string): (r: Option<nat>)
    ensures r.Some? ==> r.value < |loaded| && Matches(loaded[r.value], ident)
  {
    if !HasPluginPart(ident) || loaded == [] then None else
    var n := |loaded| - 1;
    var r := FindIn(loaded[..n], ident);
    if r.Some? then r else if Matches(loaded[n], ident) then Some(n) else None
  }

  method FindLoadedByIdentity(loaded: seq<Loaded>, ident: string) returns (r: Option<nat>)
    ensures r == FindIn(loaded, ident)
    ensures r.Some? ==> forall j :: 0 <= j < r.value ==> !Matches(loaded[j], ident)
  {
    var dot := 0;
    while dot < |ident| && ident[dot] != '.'
      invariant dot <= |ident| && VersionKeys.FirstDot(ident) == dot + VersionKeys.FirstDot(ident[dot..])
    {
      assert ident[dot..][1..] == ident[dot + 1..];
      dot := dot + 1;
    }
    if !(dot + 1 < |ident| || (dot == |ident| && ident != "")) { return None; }
    for i := 0 to |loaded|
      invariant FindIn(loaded[..i], ident) == None
      invariant forall j :: 0 <= j < i ==> !Matches(loaded[j], ident)
    {
      assert loaded[..i + 1][..i] == loaded[..i];
      if Matches(loaded[i], ident) {
        FindKept(loaded, ident, i);
        return Some(i);
      }
    }
    assert loaded[..|loaded|] == loaded;
    return None;
  }

  lemma {:induction false} FindKept(loaded: seq<Loaded>, ident: string, i: nat)
    requires i < |loaded| && HasPluginPart(ident) && Matches(loaded[i], ident) && FindIn(loaded[..i], ident) == None
    ensures FindIn(loaded, ident) == Some(i)
    decreases |loaded|
  {
    var n := |loaded| - 1;
    if i < n {
      assert loaded[..n][..i] == loaded[..i];
      FindKept(loaded[..n], ident, i);
    }
  }

  // The add-new asset a pair names: the publisher is loaded, has assets, and the file is there.
  function AddNew(w: World, plugin: string, path: string): bool {
    var p := FindIn(w.loaded, plugin);
    p.Some? && w.loaded[p.value].hasAssets && w.isFile(p.value, path)
  }

  // ---- What the build computes -----------------------------------------------

  // All declarations, in load order.
  function Flatten(order: seq<Plugin>): seq<Declaration> {
    if order == [] then [] else
    var n := |order| - 1;
    Flatten(order[..n]) + if order[n].hasAssets then order[n].decls else []
  }

  datatype Claim = Claim(vpath: string, decl: Declaration)

  function VanillaClaims(ds: seq<Declaration>): seq<Claim> {
    if ds == [] then [] else
    var n := |ds| - 1;
    VanillaClaims(ds[..n]) + if ds[n].kind.VanillaPath? then [Claim(ds[n].kind.key, ds[n])] else []
  }

  function CrossMod(ds: seq<Declaration>): seq<Declaration> {
    if ds == [] then [] else
    var n := |ds| - 1;
    CrossMod(ds[..n]) + if ds[n].kind.VanillaPath? then [] else [ds[n]]
  }

  // What pass one publishes, and the serve path of every declaring file.
  function Names1(ds: seq<Declaration>): map<string, Published> {
    if ds == [] then map[] else
    var n := |ds| - 1; var d := ds[n];
    if Publishes(d) && d.kind.VanillaPath? then Names1(ds[..n])[Packed(d) := Published(d.disk, d.kind.key)]
    else Names1(ds[..n])
  }

  function Paths(ds: seq<Declaration>): map<string, string> {
    if ds == [] then map[] else
    var n := |ds| - 1; var d := ds[n];
    if d.rel != "" then Paths(ds[..n])[PluginPathKey(d.author, d.plugin, d.rel) := ServePath(d)] else Paths(ds[..n])
  }

  // The publisher index of pass one.
  datatype Index = Index(byName: map<string, string>, byPath: map<string, string>)

  function IndexOf(ds: seq<Declaration>): Index {
    Index(Serves(Names1(ds)), Paths(ds))
  }

  function ServePath(d: Declaration): string {
    if d.kind.VanillaPath? then d.kind.key else d.rel
  }

  function Target(w: World, d: Declaration, byName: map<string, string>, paths: map<string, string>): Option<string> {
    match d.kind
    case VanillaPath(_) => None
    case PublishedName(t) => if LowerAll(t) in byName then Some(byName[LowerAll(t)]) else None
    case PluginPathPair(plugin, path) =>
      var key := PluginPathKey("", plugin, Fold(path));
      if key in paths then Some(paths[key]) else if AddNew(w, plugin, path) then Some(Fold(path)) else None
  }

  // The part of the publications the index keeps.
  function Serves(names: map<string, Published>): map<string, string> {
    map k | k in names :: names[k].serve
  }

  lemma ServesUpdate(names: map<string, Published>, k: string, p: Published)
    ensures Serves(names[k := p]) == Serves(names)[k := p.serve]
  {}

  // Pass two: what is published by now, the claims made, and how many targets named nothing.
  datatype Second = Second(names: map<string, Published>, claims: seq<Claim>, unresolved: nat)

  function Pass2(w: World, cross: seq<Declaration>, names: map<string, Published>, paths: map<string, string>): Second {
    if cross == [] then Second(names, [], 0) else
    var n := |cross| - 1; var d := cross[n];
    var s := Pass2(w, cross[..n], names, paths);
    match Target(w, d, Serves(s.names), paths)
    case None => s.(unresolved := s.unresolved + 1)
    case Some(v) =>
      s.(names := if Publishes(d) then s.names[Packed(d) := Published(d.disk, v)] else s.names,
         claims := s.claims + [Claim(v, d)])
  }

  function PassTwo(w: World): Second {
    var ds := Flatten(w.order);
    Pass2(w, CrossMod(ds), Names1(ds), Paths(ds))
  }

  // Every claim, in the order the map considers them.
  function Claims(w: World): seq<Claim> {
    VanillaClaims(Flatten(w.order)) + PassTwo(w).claims
  }

  function FirstWins(claims: seq<Claim>): map<string, Entry> {
    if claims == [] then map[] else
    var n := |claims| - 1; var c := claims[n];
    var m := FirstWins(claims[..n]);
    if c.vpath in m then m else m[c.vpath := Entry(c.decl.plugin, c.decl.disk)]
  }

  lemma FirstWinsSnoc(claims: seq<Claim>, c: Claim)
    ensures FirstWins(claims + [c]) ==
            if c.vpath in FirstWins(claims) then FirstWins(claims)
            else FirstWins(claims)[c.vpath := Entry(c.decl.plugin, c.decl.disk)]
  {
    assert (claims + [c])[..|claims|] == claims;
  }

  lemma FirstSnoc(ds: seq<Declaration>, d: Declaration)
    ensures var t := ds + [d]; var ix := IndexOf(ds); var vanilla := d.kind.VanillaPath?;
            VanillaClaims(t) == (if vanilla then VanillaClaims(ds) + [Claim(d.kind.key, d)] else VanillaClaims(ds)) &&
            CrossMod(t) == (if vanilla then CrossMod(ds) else CrossMod(ds) + [d]) &&
            Names1(t) == (if Publishes(d) && vanilla then Names1(ds)[Packed(d) := Published(d.disk, d.kind.key)]
                          else Names1(ds)) &&
            IndexOf(t).byName == (if Publishes(d) && vanilla then ix.byName[Packed(d) := d.kind.key] else ix.byName) &&
            IndexOf(t).byPath == (if d.rel == "" then ix.byPath
                                  else ix.byPath[PluginPathKey(d.author, d.plugin, d.rel) := ServePath(d)])
  {
    assert (ds + [d])[..|ds|] == ds;
    if Publishes(d) && d.kind.VanillaPath? {
      ServesUpdate(Names1(ds), Packed(d), Published(d.disk, d.kind.key));
    }
  }

  lemma SecondSnoc(w: World, cross: seq<Declaration>, d: Declaration, names: map<string, Published>,
                   paths: map<string, string>)
    ensures var s := Pass2(w, cross, names, paths); var t := Pass2(w, cross + [d], names, paths);
            match Target(w, d, Serves(s.names), paths)
            case None => t == s.(unresolved := s.unresolved + 1)
            case Some(v) =>
              t.claims == s.claims + [Claim(v, d)] && t.unresolved == s.unresolved &&
              t.names == if Publishes(d) then s.names[Packed(d) := Published(d.disk, v)] else s.names
  {
    hide Target, Serves;
    assert (cross + [d])[..|cross|] == cross;
  }

  // ---- The build -------------------------------------------------------------

  class OverlayMap {
    var overlay: map<string, Entry>
    var published: map<string, Published>   // the published-name store
    var entries: nat
    var suppressed: nat
    var unresolved: nat

    constructor ()
      ensures overlay == map[] && published == map[]
    {
      overlay, published := map[], map[];
      entries, suppressed, unresolved := 0, 0, 0;
    }

    // The claims so far are keyed, and the counters add up.
    ghost predicate Keyed(claims: seq<Claim>)
      reads this`overlay, this`entries, this`suppressed
    {
      overlay == FirstWins(claims) && entries == |overlay| && entries + suppressed == |claims|
    }

    // A claim is keyed unless an earlier one has the path.
    method Key(vpath: string, d: Declaration, ghost claims: seq<Claim>)
      requires Keyed(claims)
      modifies `overlay, `entries, `suppressed
      ensures Keyed(claims + [Claim(vpath, d)])
    {
      FirstWinsSnoc(claims, Claim(vpath, d));
      if vpath in overlay {
        suppressed := suppressed + 1;
      } else {
        overlay := overlay[vpath := Entry(d.plugin, d.disk)];
        entries := entries + 1;
      }
    }

    // One declaration of pass one.
    method First(d: Declaration, ghost ds: seq<Declaration>, ghost store: map<string, Published>, index: Index,
                 cross: seq<Declaration>)
      returns (index': Index, cross': seq<Declaration>)
      requires Keyed(VanillaClaims(ds))
      requires published == store + Names1(ds) && index == IndexOf(ds) && cross == CrossMod(ds)
      modifies this
      ensures var ds' := ds + [d];
              Keyed(VanillaClaims(ds')) &&
              published == store + Names1(ds') && index' == IndexOf(ds') && cross' == CrossMod(ds') &&
              unresolved == old(unresolved)
    {
      hide Keyed, VanillaClaims, CrossMod, Names1, IndexOf, Packed;
      FirstSnoc(ds, d);
      index', cross' := index, cross;
      if Publishes(d) && d.kind.VanillaPath? {
        published := published[Packed(d) := Published(d.disk, d.kind.key)];
        index' := index'.(byName := index.byName[Packed(d) := d.kind.key]);
      }
      if d.rel != "" {
        index' := index'.(byPath := index.byPath[PluginPathKey(d.author, d.plugin, d.rel) := ServePath(d)]);
      }
      if d.kind.VanillaPath? {
        Key(d.kind.key, d, VanillaClaims(ds));
      } else {
        cross' := cross + [d];
      }
    }

    // One declaration of pass two.
    method Cross(w: World, d: Declaration, index: Index,
                 ghost ds: seq<Declaration>, ghost done: seq<Declaration>, ghost store: map<string, Published>)
      returns (index': Index)
      requires !d.kind.VanillaPath? && index.byPath == Paths(ds)
      requires var s := Pass2(w, done, Names1(ds), Paths(ds)); var claims := VanillaClaims(ds) + s.claims;
               Keyed(claims) &&
               index.byName == Serves(s.names) && published == store + s.names && unresolved == s.unresolved
      modifies this
      ensures var s := Pass2(w, done + [d], Names1(ds), Paths(ds)); var claims := VanillaClaims(ds) + s.claims;
              Keyed(claims) &&
              index'.byName == Serves(s.names) && index'.byPath == Paths(ds) && published == store + s.names &&
              unresolved == s.unresolved
    {
      hide Keyed, VanillaClaims, Names1, Paths, Pass2, Target, Packed;
      ghost var s := Pass2(w, done, Names1(ds), Paths(ds));
      SecondSnoc(w, done, d, Names1(ds), Paths(ds));
      index' := index;
      var target := Target(w, d, index.byName, index.byPath);
      if target.None? {
        unresolved := unresolved + 1;
        return;
      }
      var v := target.value;
      if Publishes(d) {
        ServesUpdate(s.names, Packed(d), Published(d.disk, v));
        published := published[Packed(d) := Published(d.disk, v)];
        index' := index.(byName := index.byName[Packed(d) := v]);
      }
      assert VanillaClaims(ds) + (s.claims + [Claim(v, d)]) == VanillaClaims(ds) + s.claims + [Claim(v, d)];
      Key(v, d, VanillaClaims(ds) + s.claims);
    }

    // The map, the store and the counters after a build depend on what is read, not on what was
    // there before; and what the index says of a published name, the store says too.
    method BuildOverlayMap(w: World) returns (index: Index)
      modifies this
      ensures Keyed(Claims(w)) && published == old(published) + PassTwo(w).names && unresolved == PassTwo(w).unresolved
      ensures index.byName.Keys == PassTwo(w).names.Keys
      ensures forall k :: k in index.byName ==> k in published && published[k].serve == index.byName[k]
    {
      hide FirstWins, Target, Pass2, Names1, Paths, VanillaClaims, CrossMod, IndexOf;
      overlay, entries, suppressed, unresolved := map[], 0, 0, 0;
      NothingYet();
      var cross;
      index, cross := FirstPass(w.order);
      ghost var ds := Flatten(w.order);
      IndexParts(ds);
      index := SecondPass(w, cross, index, ds, old(published));
    }

    method SecondPass(w: World, cross: seq<Declaration>, index0: Index, ghost ds: seq<Declaration>,
                      ghost store: map<string, Published>)
      returns (index: Index)
      requires cross == CrossMod(ds) && index0.byName == Serves(Names1(ds)) && index0.byPath == Paths(ds)
      requires Keyed(VanillaClaims(ds)) && published == store + Names1(ds) && unresolved == 0
      modifies this
      ensures var s := Pass2(w, cross, Names1(ds), Paths(ds));
              Keyed(VanillaClaims(ds) + s.claims) && index.byName == Serves(s.names) &&
              published == store + s.names && unresolved == s.unresolved
    {
      hide Keyed, Target, Pass2, Names1, Paths, VanillaClaims, CrossMod, Serves;
      Pass2Nothing(w, Names1(ds), Paths(ds));
      assert cross[..0] == [];
      assert VanillaClaims(ds) + [] == VanillaClaims(ds);
      index := index0;
      var i := 0;
      while i < |cross|
        invariant i <= |cross| && index.byPath == Paths(ds)
        invariant var s := Pass2(w, cross[..i], Names1(ds), Paths(ds)); var claims := VanillaClaims(ds) + s.claims;
                  Keyed(claims) &&
                  index.byName == Serves(s.names) && published == store + s.names && unresolved == s.unresolved
      {
        assert cross[..i + 1] == cross[..i] + [cross[i]];
        CrossIsNotVanilla(ds, i);
        index := Cross(w, cross[i], index, ds, cross[..i], store);
        i := i + 1;
      }
      assert cross[..i] == cross;
    }

    // Building again from the same plugins gives the same map and the same store.
    method Rebuild(w: World) returns (overlay1: map<string, Entry>, published1: map<string, Published>)
      modifies this
      ensures overlay == overlay1 == FirstWins(Claims(w)) && published == published1
    {
      var _ := BuildOverlayMap(w);
      overlay1, published1 := overlay, published;
      var _ := BuildOverlayMap(w);
    }

    method FirstPass(order: seq<Plugin>) returns (index: Index, cross: seq<Declaration>)
      requires overlay == map[] && entries == 0 && suppressed == 0
      modifies this
      ensures var ds := Flatten(order);
              Keyed(VanillaClaims(ds)) &&
              published == old(published) + Names1(ds) && index == IndexOf(ds) && cross == CrossMod(ds) &&
              unresolved == old(unresolved)
    {
      hide FirstWins, Names1, Paths, VanillaClaims, CrossMod, IndexOf;
      NothingYet();
      index, cross := Index(map[], map[]), [];
      var i := 0;
      assert order[..0] == [];
      while i < |order|
        invariant i <= |order|
        invariant var ds := Flatten(order[..i]);
                  Keyed(VanillaClaims(ds)) &&
                  published == old(published) + Names1(ds) && index == IndexOf(ds) && cross == CrossMod(ds) &&
                  unresolved == old(unresolved)
      {
        assert order[..i + 1][..i] == order[..i];
        if order[i].hasAssets {
          index, cross := FirstOfPlugin(order[i].decls, Flatten(order[..i]), old(published), index, cross);
        } else {
          assert Flatten(order[..i + 1]) == Flatten(order[..i]);
        }
        i := i + 1;
      }
      assert order[..i] == order;
    }

    method FirstOfPlugin(decls: seq<Declaration>, ghost before: seq<Declaration>, ghost store: map<string, Published>,
                         index0: Index, cross0: seq<Declaration>)
      returns (index: Index, cross: seq<Declaration>)
      requires Keyed(VanillaClaims(before))
      requires published == store + Names1(before) && index0 == IndexOf(before) && cross0 == CrossMod(before)
      modifies this
      ensures var ds := before + decls;
              Keyed(VanillaClaims(ds)) &&
              published == store + Names1(ds) && index == IndexOf(ds) && cross == CrossMod(ds) &&
              unresolved == old(unresolved)
    {
      hide FirstWins, Names1, Paths, VanillaClaims, CrossMod, IndexOf;
      index, cross := index0, cross0;
      assert before + decls[..0] == before;
      var j := 0;
      while j < |decls|
        invariant j <= |decls|
        invariant var ds := before + decls[..j];
                  Keyed(VanillaClaims(ds)) &&
                  published == store + Names1(ds) && index == IndexOf(ds) && cross == CrossMod(ds) &&
                  unresolved == old(unresolved)
      {
        assert before + decls[..j + 1] == before + decls[..j] + [decls[j]];
        index, cross := First(decls[j], before + decls[..j], store, index, cross);
        j := j + 1;
      }
      assert before + decls[..j] == before + decls;
    }
  }

  lemma NothingYet()
    ensures FirstWins([]) == map[] && VanillaClaims([]) == [] && CrossMod([]) == []
    ensures Names1([]) == map[] && IndexOf([]) == Index(map[], map[])
  {}

  lemma IndexParts(ds: seq<Declaration>)
    ensures IndexOf(ds).byName == Serves(Names1(ds)) && IndexOf(ds).byPath == Paths(ds)
  {}

  lemma Pass2Nothing(w: World, names: map<string, Published>, paths: map<string, string>)
    ensures Pass2(w, [], names, paths) == Second(names, [], 0)
  {}

  lemma {:induction false} CrossIsNotVanilla(ds: seq<Declaration>, i: nat)
    requires i < |CrossMod(ds)|
    ensures !CrossMod(ds)[i].kind.VanillaPath?
    decreases |ds|
  {
    var n := |ds| - 1;
    if i < |CrossMod(ds[..n])| { CrossIsNotVanilla(ds[..n], i); }
  }
}
