/**
 What the overlay build guarantees: who wins a path, that no declaration is lost count of, and
 that a target naming another plugin's asset resolves the same way whatever the load order.
 */
module OverlayTheorems {
  import opened Options
  import opened PathFold
  import opened Sidecar
  import opened Overlay
  import VersionKeys

  // ---- Winners ---------------------------------------------------------------

  lemma {:induction false} FirstClaimWins(claims: seq<Claim>, i: nat)
    requires i < |claims| && forall j :: 0 <= j < i ==> claims[j].vpath != claims[i].vpath
    ensures claims[i].vpath in FirstWins(claims)
    ensures FirstWins(claims)[claims[i].vpath] == Entry(claims[i].decl.plugin, claims[i].decl.disk)
    decreases |claims|
  {
    var n := |claims| - 1;
    if i < n {
      FirstClaimWins(claims[..n], i);
    } else {
      if claims[i].vpath in FirstWins(claims[..n]) {
        var j := KeyIsClaimed(claims[..n], claims[i].vpath);
      }
    }
  }

  // Every key of the map was claimed; the entry is that of the first who claimed it.
  lemma {:induction false} KeyIsClaimed(claims: seq<Claim>, k: string) returns (i: nat)
    requires k in FirstWins(claims)
    ensures i < |claims| && claims[i].vpath == k && forall j :: 0 <= j < i ==> claims[j].vpath != k
    ensures FirstWins(claims)[k] == Entry(claims[i].decl.plugin, claims[i].decl.disk)
    decreases |claims|
  {
    var n := |claims| - 1;
    if k in FirstWins(claims[..n]) {
      i := KeyIsClaimed(claims[..n], k);
    } else {
      i := n;
      forall j | 0 <= j < n ensures claims[j].vpath != k {
        NotClaimed(claims[..n], k, j);
      }
    }
  }

  lemma {:induction false} NotClaimed(claims: seq<Claim>, k: string, j: nat)
    requires k !in FirstWins(claims) && j < |claims|
    ensures claims[j].vpath != k
    decreases |claims|
  {
    var n := |claims| - 1;
    if j < n { NotClaimed(claims[..n], k, j); }
  }

  // An entry belongs to the first claimant in the order "all vanilla claims in load order, then all
  // resolved cross-mod claims in load order".
  lemma WinnerIsFirstClaimant(w: World, k: string)
    ensures var claims := Claims(w);
            k in FirstWins(claims) <==>
              exists i :: 0 <= i < |claims| && claims[i].vpath == k && (forall j :: 0 <= j < i ==> claims[j].vpath != k)
    ensures var claims := Claims(w);
            forall i :: (0 <= i < |claims| && claims[i].vpath == k &&
                         forall j :: 0 <= j < i ==> claims[j].vpath != k) ==>
              k in FirstWins(claims) && FirstWins(claims)[k] == Entry(claims[i].decl.plugin, claims[i].decl.disk)
  {
    var claims := Claims(w);
    if k in FirstWins(claims) {
      var i := KeyIsClaimed(claims, k);
    }
    forall i | 0 <= i < |claims| && claims[i].vpath == k && (forall j :: 0 <= j < i ==> claims[j].vpath != k)
      ensures k in FirstWins(claims) && FirstWins(claims)[k] == Entry(claims[i].decl.plugin, claims[i].decl.disk)
    {
      FirstClaimWins(claims, i);
    }
  }

  // A vanilla claim beats every cross-mod claim on the same path, whatever the load order.
  lemma VanillaBeatsCrossMod(w: World, d: Declaration)
    requires d in Flatten(w.order) && d.kind.VanillaPath?
    ensures d.kind.key in FirstWins(Claims(w))
    ensures exists v :: v in Flatten(w.order) && v.kind == d.kind &&
                        FirstWins(Claims(w))[d.kind.key] == Entry(v.plugin, v.disk)
  {
    var ds := Flatten(w.order);
    var vanilla := VanillaClaims(ds);
    VanillaIsClaimed(ds, d);
    var m :| 0 <= m < |vanilla| && vanilla[m] == Claim(d.kind.key, d);
    var claims := Claims(w);
    assert claims[m] == vanilla[m];
    if d.kind.key !in FirstWins(claims) { NotClaimed(claims, d.kind.key, m); }
    var i := KeyIsClaimed(claims, d.kind.key);
    assert i <= m && claims[i] == vanilla[i];
    VanillaClaimsAreVanilla(ds, vanilla[i]);
  }

  lemma {:induction false} VanillaIsClaimed(ds: seq<Declaration>, d: Declaration)
    requires d in ds && d.kind.VanillaPath?
    ensures Claim(d.kind.key, d) in VanillaClaims(ds)
    decreases |ds|
  {
    var n := |ds| - 1;
    assert ds == ds[..n] + [ds[n]];
    if d != ds[n] { VanillaIsClaimed(ds[..n], d); }
  }

  lemma {:induction false} VanillaClaimsAreVanilla(ds: seq<Declaration>, c: Claim)
    requires c in VanillaClaims(ds)
    ensures c.decl in ds && c.decl.kind == VanillaPath(c.vpath)
    decreases |ds|
  {
    var n := |ds| - 1;
    if c in VanillaClaims(ds[..n]) { VanillaClaimsAreVanilla(ds[..n], c); }
  }

  // ---- Conservation ----------------------------------------------------------

  lemma {:induction false} EveryDeclarationCounts(ds: seq<Declaration>)
    ensures |VanillaClaims(ds)| + |CrossMod(ds)| == |ds|
    decreases |ds|
  {
    if ds != [] { EveryDeclarationCounts(ds[..|ds| - 1]); }
  }

  lemma {:induction false} EveryTargetCounts(w: World, cross: seq<Declaration>, names: map<string, Published>,
                                             paths: map<string, string>)
    ensures var s := Pass2(w, cross, names, paths); |s.claims| + s.unresolved == |cross|
    decreases |cross|
  {
    hide Target;
    if cross != [] { EveryTargetCounts(w, cross[..|cross| - 1], names, paths); }
  }

  // Every valid declaration is an entry, suppressed or unresolved: with the counters of the build,
  // entries + suppressed + unresolved is the number of declarations, and entries the map's size.
  lemma NothingIsLost(w: World)
    ensures |Claims(w)| + PassTwo(w).unresolved == |Flatten(w.order)|
    ensures |FirstWins(Claims(w))| <= |Claims(w)|
  {
    var ds := Flatten(w.order);
    EveryDeclarationCounts(ds);
    EveryTargetCounts(w, CrossMod(ds), Names1(ds), Paths(ds));
    MapIsNoLarger(Claims(w));
  }

  lemma {:induction false} MapIsNoLarger(claims: seq<Claim>)
    ensures |FirstWins(claims)| <= |claims|
    decreases |claims|
  {
    if claims != [] { MapIsNoLarger(claims[..|claims| - 1]); }
  }

  // ---- Cross-mod targets -----------------------------------------------------

  ghost predicate UniqueNames(ds: seq<Declaration>) {
    forall i, j :: 0 <= i < j < |ds| && Publishes(ds[i]) && Publishes(ds[j]) ==> Packed(ds[i]) != Packed(ds[j])
  }

  lemma {:induction false} PublishedInPassOne(ds: seq<Declaration>, i: nat)
    requires UniqueNames(ds) && i < |ds| && Publishes(ds[i]) && ds[i].kind.VanillaPath?
    ensures Packed(ds[i]) in Names1(ds) && Names1(ds)[Packed(ds[i])].serve == ds[i].kind.key
    decreases |ds|
  {
    hide Packed;
    if i < |ds| - 1 { PublishedInPassOne(ds[..|ds| - 1], i); }
  }

  lemma {:induction false} CrossModAreDeclared(ds: seq<Declaration>, c: Declaration)
    ensures c in CrossMod(ds) <==> c in ds && !c.kind.VanillaPath?
    decreases |ds|
  {
    if ds != [] {
      var n := |ds| - 1;
      assert ds == ds[..n] + [ds[n]];
      CrossModAreDeclared(ds[..n], c);
    }
  }

  predicate Names(c: Declaration, packed: string) {
    c.kind.PublishedName? && LowerAll(c.kind.target) == packed
  }

  // While no other declaration publishes the name, every target that names it resolves to the
  // path it serves at.
  lemma {:induction false} NameStands(w: World, cross: seq<Declaration>, names: map<string, Published>,
                                      paths: map<string, string>,
                                      packed: string)
    requires packed in names && forall c :: c in cross && Publishes(c) ==> Packed(c) != packed
    ensures var s := Pass2(w, cross, names, paths);
            packed in s.names && s.names[packed] == names[packed] &&
            (forall c :: c in cross && Names(c, packed) ==> Claim(names[packed].serve, c) in s.claims) &&
            (forall c :: c in s.claims ==>
              c.decl in cross && (Names(c.decl, packed) ==> c.vpath == names[packed].serve))
    decreases |cross|
  {
    hide Packed, LowerAll;
    if cross != [] {
      var n := |cross| - 1;
      assert cross == cross[..n] + [cross[n]];
      NameStands(w, cross[..n], names, paths, packed);
      NamedResolves(w, cross[n], Pass2(w, cross[..n], names, paths).names, paths, packed);
    }
  }

  lemma NamedResolves(w: World, c: Declaration, names: map<string, Published>, paths: map<string, string>,
                      packed: string)
    requires packed in names
    ensures Names(c, packed) ==> Target(w, c, Serves(names), paths) == Some(names[packed].serve)
  {}

  // A target naming an asset that replaces a vanilla path resolves to that path, exactly.
  lemma NamedTargetResolves(w: World, d: Declaration, c: Declaration, v: string)
    requires UniqueNames(Flatten(w.order)) && d in Flatten(w.order) && c in Flatten(w.order)
    requires Publishes(d) && d.kind.VanillaPath? && Names(c, Packed(d))
    ensures Claim(v, c) in Claims(w) <==> v == d.kind.key
  {
    hide Pass2, Packed, LowerAll;
    var ds := Flatten(w.order);
    var i :| 0 <= i < |ds| && ds[i] == d;
    PublishedInPassOne(ds, i);
    forall x | x in CrossMod(ds) && Publishes(x) ensures Packed(x) != Packed(d) {
      CrossModAreDeclared(ds, x);
      var k :| 0 <= k < |ds| && ds[k] == x;
    }
    NameStands(w, CrossMod(ds), Names1(ds), Paths(ds), Packed(d));
    CrossModAreDeclared(ds, c);
    if Claim(v, c) in VanillaClaims(ds) { VanillaClaimsAreVanilla(ds, Claim(v, c)); }
  }

  // A declaration counts when its plugin has assets.
  lemma {:induction false} FlattenMeans(order: seq<Plugin>, d: Declaration)
    ensures d in Flatten(order) <==> exists p :: p in order && p.hasAssets && d in p.decls
    decreases |order|
  {
    if order != [] {
      var n := |order| - 1;
      assert order == order[..n] + [order[n]];
      FlattenMeans(order[..n], d);
    }
  }

  // A published name stands for the file of its declaration, and serves where the declaration's target is.
  lemma {:induction false} PublishedFile(w: World, cross: seq<Declaration>, names: map<string, Published>,
                                         paths: map<string, string>, d: Declaration)
    requires forall e :: e in cross && Publishes(e) && Packed(e) == Packed(d) ==> e == d
    requires Packed(d) in names ==> names[Packed(d)].disk == d.disk
    ensures var s := Pass2(w, cross, names, paths);
            (Packed(d) in s.names ==> s.names[Packed(d)].disk == d.disk) &&
            (Packed(d) in s.names && Packed(d) !in names ==> Claim(s.names[Packed(d)].serve, d) in s.claims)
    decreases |cross|
  {
    hide Packed, Target;
    if cross != [] {
      var n := |cross| - 1;
      assert cross == cross[..n] + [cross[n]];
      PublishedFile(w, cross[..n], names, paths, d);
    }
  }

  lemma {:induction false} FirstFile(ds: seq<Declaration>, d: Declaration)
    requires forall e :: e in ds && Publishes(e) && Packed(e) == Packed(d) ==> e == d
    ensures Packed(d) in Names1(ds) ==>
              d.kind.VanillaPath? && Names1(ds)[Packed(d)] == Published(d.disk, d.kind.key)
    decreases |ds|
  {
    hide Packed;
    if ds != [] {
      var n := |ds| - 1;
      assert ds == ds[..n] + [ds[n]];
      FirstFile(ds[..n], d);
    }
  }

  // So it is after the whole build, where names are unique.
  lemma PublishedNameMeans(w: World, d: Declaration)
    requires UniqueNames(Flatten(w.order)) && d in Flatten(w.order) && Publishes(d) && Packed(d) in PassTwo(w).names
    ensures var p := PassTwo(w).names[Packed(d)];
            p.disk == d.disk && (if d.kind.VanillaPath? then p.serve == d.kind.key else Claim(p.serve, d) in Claims(w))
  {
    hide Pass2, Packed, Names1, Paths, CrossMod, VanillaClaims;
    var ds := Flatten(w.order);
    forall e | e in ds && Publishes(e) && Packed(e) == Packed(d) ensures e == d {
      var i :| 0 <= i < |ds| && ds[i] == d;
      var j :| 0 <= j < |ds| && ds[j] == e;
      assert i == j || i < j || j < i;
    }
    forall e | e in CrossMod(ds) ensures e in ds { CrossModAreDeclared(ds, e); }
    FirstFile(ds, d);
    PublishedFile(w, CrossMod(ds), Names1(ds), Paths(ds), d);
    if d.kind.VanillaPath? {
      var i :| 0 <= i < |ds| && ds[i] == d;
      PublishedInPassOne(ds, i);
      forall c | c in CrossMod(ds) && Publishes(c) ensures Packed(c) != Packed(d) { CrossModAreDeclared(ds, c); }
      NameStands(w, CrossMod(ds), Names1(ds), Paths(ds), Packed(d));
    }
  }

  lemma {:induction false} Twice(ds: seq<Declaration>, d: Declaration)
    ensures multiset(ds)[d] >= 2 <==> exists i, j :: 0 <= i < j < |ds| && ds[i] == d && ds[j] == d
    decreases |ds|
  {
    if ds != [] {
      var n := |ds| - 1;
      assert ds == ds[..n] + [ds[n]];
      Twice(ds[..n], d);
      assert d in multiset(ds[..n]) <==> d in ds[..n];
    }
  }

  lemma UniqueUnderPermutation(ds: seq<Declaration>, es: seq<Declaration>)
    requires multiset(ds) == multiset(es) && UniqueNames(ds)
    ensures UniqueNames(es)
  {
    hide Packed;
    forall i, j | 0 <= i < j < |es| && Publishes(es[i]) && Publishes(es[j]) ensures Packed(es[i]) != Packed(es[j]) {
      assert es[i] in multiset(es) && es[j] in multiset(es);
      assert es[i] in ds && es[j] in ds;
      if es[i] == es[j] {
        Twice(es, es[i]);
        Twice(ds, es[i]);
      } else {
        var a :| 0 <= a < |ds| && ds[a] == es[i];
        var b :| 0 <= b < |ds| && ds[b] == es[j];
        assert a < b || b < a;
      }
    }
  }

  // With unique names, such a target resolves alike under every permutation of the plugins.
  lemma ResolutionIgnoresLoadOrder(w: World, u: World, d: Declaration, c: Declaration, v: string)
    requires multiset(Flatten(w.order)) == multiset(Flatten(u.order)) && UniqueNames(Flatten(w.order))
    requires d in Flatten(w.order) && c in Flatten(w.order)
    requires Publishes(d) && d.kind.VanillaPath? && Names(c, Packed(d))
    ensures Claim(v, c) in Claims(w) <==> Claim(v, c) in Claims(u)
  {
    hide Packed, LowerAll, Claims;
    UniqueUnderPermutation(Flatten(w.order), Flatten(u.order));
    assert d in multiset(Flatten(u.order)) && c in multiset(Flatten(u.order));
    NamedTargetResolves(w, d, c, v);
    NamedTargetResolves(u, d, c, v);
  }

  lemma {:induction false} FlattenConcat(a: seq<Plugin>, b: seq<Plugin>)
    ensures Flatten(a + b) == Flatten(a) + Flatten(b)
    decreases |b|
  {
    if b == [] {
      assert a + b == a;
    } else {
      var n := |b| - 1;
      assert (a + b)[..|a + b| - 1] == a + b[..n] && (a + b)[|a + b| - 1] == b[n];
      FlattenConcat(a, b[..n]);
    }
  }

  // Rearranged plugins declare the same, rearranged.
  lemma {:induction false} FlattenPermuted(a: seq<Plugin>, b: seq<Plugin>)
    requires multiset(a) == multiset(b)
    ensures multiset(Flatten(a)) == multiset(Flatten(b))
    decreases |a|
  {
    hide Flatten;
    assert |multiset(a)| == |a| && |multiset(b)| == |b|;
    if a == [] {
      assert b == [];
    } else {
      var n := |a| - 1; var p := a[n];
      assert a == a[..n] + [p];
      assert p in multiset(a);
      var j :| 0 <= j < |b| && b[j] == p;
      assert b == b[..j] + [p] + b[j + 1..];
      assert multiset(a[..n]) == multiset(a[..n] + [p]) - multiset{p};
      assert multiset(b[..j] + b[j + 1..]) == multiset(b[..j] + [p] + b[j + 1..]) - multiset{p};
      FlattenPermuted(a[..n], b[..j] + b[j + 1..]);
      FlattenConcat(a[..n], [p]);
      FlattenConcat(b[..j], b[j + 1..]);
      FlattenConcat(b[..j], [p]);
      FlattenConcat(b[..j] + [p], b[j + 1..]);
    }
  }

  // So it is under every permutation of the plugins.
  lemma ResolutionIgnoresPluginOrder(w: World, u: World, d: Declaration, c: Declaration, v: string)
    requires multiset(w.order) == multiset(u.order) && UniqueNames(Flatten(w.order))
    requires d in Flatten(w.order) && c in Flatten(w.order)
    requires Publishes(d) && d.kind.VanillaPath? && Names(c, Packed(d))
    ensures Claim(v, c) in Claims(w) <==> Claim(v, c) in Claims(u)
  {
    hide Packed, LowerAll, Claims, Flatten, UniqueNames;
    FlattenPermuted(w.order, u.order);
    ResolutionIgnoresLoadOrder(w, u, d, c, v);
  }

  // ---- Chained publishes -----------------------------------------------------

  // What the target of the j-th cross-mod declaration resolves to when pass two comes to it.
  function TargetAt(w: World, j: nat): Option<string>
    requires j < |CrossMod(Flatten(w.order))|
  {
    var ds := Flatten(w.order); var cross := CrossMod(ds);
    Target(w, cross[j], Serves(Pass2(w, cross[..j], Names1(ds), Paths(ds)).names), Paths(ds))
  }

  // The claims of pass two are the targets that resolved.
  lemma {:induction false} ClaimedIffResolved(w: World, v: string, c: Declaration, n: nat)
    requires n <= |CrossMod(Flatten(w.order))|
    ensures var ds := Flatten(w.order); var cross := CrossMod(ds);
            Claim(v, c) in Pass2(w, cross[..n], Names1(ds), Paths(ds)).claims <==>
              exists j :: 0 <= j < n && cross[j] == c && TargetAt(w, j) == Some(v)
    decreases n
  {
    hide Target, Names1, Paths, CrossMod, Serves, Flatten;
    var cross := CrossMod(Flatten(w.order));
    if n > 0 {
      ClaimedIffResolved(w, v, c, n - 1);
      assert cross[..n] == cross[..n - 1] + [cross[n - 1]];
    }
  }

  lemma {:induction false} CrossUnique(ds: seq<Declaration>)
    requires UniqueNames(ds)
    ensures UniqueNames(CrossMod(ds))
    decreases |ds|
  {
    hide Packed;
    if ds != [] {
      var n := |ds| - 1;
      CrossUnique(ds[..n]);
      forall x | x in CrossMod(ds[..n]) && Publishes(x) && Publishes(ds[n]) ensures Packed(x) != Packed(ds[n]) {
        CrossModAreDeclared(ds[..n], x);
        var k :| 0 <= k < n && ds[k] == x;
      }
    }
  }

  // A name of pass one is published by a declaration of a vanilla path.
  lemma {:induction false} FirstNames(ds: seq<Declaration>, packed: string)
    requires packed in Names1(ds)
    ensures exists d :: d in ds && Publishes(d) && d.kind.VanillaPath? && Packed(d) == packed
    decreases |ds|
  {
    hide Packed;
    var n := |ds| - 1;
    if Publishes(ds[n]) && ds[n].kind.VanillaPath? && Packed(ds[n]) == packed {
    } else {
      FirstNames(ds[..n], packed);
      var d :| d in ds[..n] && Publishes(d) && d.kind.VanillaPath? && Packed(d) == packed;
    }
  }

  // Before its publisher's turn a name is not known.
  lemma {:induction false} NotYetPublished(w: World, cross: seq<Declaration>, names: map<string, Published>,
                                           paths: map<string, string>, packed: string)
    requires packed !in names && forall c :: c in cross && Publishes(c) ==> Packed(c) != packed
    ensures packed !in Pass2(w, cross, names, paths).names
    decreases |cross|
  {
    hide Packed, Target;
    if cross != [] { NotYetPublished(w, cross[..|cross| - 1], names, paths, packed); }
  }

  // After its turn it is known, and serves where its own target resolved, or never.
  lemma {:induction false} PublishedSince(w: World, i: nat, k: nat)
    requires UniqueNames(Flatten(w.order))
    requires var cross := CrossMod(Flatten(w.order)); i < k <= |cross| && Publishes(cross[i])
    ensures var ds := Flatten(w.order); var cross := CrossMod(ds); var packed := Packed(cross[i]);
            var names := Pass2(w, cross[..k], Names1(ds), Paths(ds)).names;
            (packed in names <==> TargetAt(w, i).Some?) &&
            (packed in names ==> Some(names[packed].serve) == TargetAt(w, i))
    decreases k
  {
    hide Packed, Target, Names1, Paths, CrossMod, Flatten, UniqueNames, Pass2, Serves;
    var ds := Flatten(w.order);
    var cross := CrossMod(ds);
    assert cross[..k] == cross[..k - 1] + [cross[k - 1]];
    SecondSnoc(w, cross[..k - 1], cross[k - 1], Names1(ds), Paths(ds));
    if k == i + 1 {
      UnknownBefore(w, i, i);
    } else {
      PublishedSince(w, i, k - 1);
      CrossUnique(ds);
      if Publishes(cross[k - 1]) { OtherName(cross, i, k - 1); }
    }
  }

  lemma OtherName(cross: seq<Declaration>, i: nat, k: nat)
    requires UniqueNames(cross) && i < k < |cross| && Publishes(cross[i]) && Publishes(cross[k])
    ensures Packed(cross[i]) != Packed(cross[k])
  {
    hide Packed;
  }

  lemma VanillaIsOther(ds: seq<Declaration>, d: Declaration, c: Declaration)
    requires UniqueNames(ds) && d in ds && c in ds && Publishes(d) && Publishes(c) && d.kind.VanillaPath? &&
             !c.kind.VanillaPath?
    ensures Packed(d) != Packed(c)
  {
    hide Packed;
    var a :| 0 <= a < |ds| && ds[a] == d;
    var b :| 0 <= b < |ds| && ds[b] == c;
    assert a < b || b < a;
  }

  lemma UnknownBefore(w: World, i: nat, j: nat)
    requires UniqueNames(Flatten(w.order))
    requires var cross := CrossMod(Flatten(w.order)); j <= i < |cross| && Publishes(cross[i])
    ensures var ds := Flatten(w.order); var cross := CrossMod(ds);
            Packed(cross[i]) !in Pass2(w, cross[..j], Names1(ds), Paths(ds)).names
  {
    hide Packed, Pass2, Names1;
    var ds := Flatten(w.order);
    var cross := CrossMod(ds);
    CrossUnique(ds);
    if Packed(cross[i]) in Names1(ds) {
      FirstNames(ds, Packed(cross[i]));
      var d :| d in ds && Publishes(d) && d.kind.VanillaPath? && Packed(d) == Packed(cross[i]);
      CrossModAreDeclared(ds, cross[i]);
      VanillaIsOther(ds, d, cross[i]);
    }
    NotYetPublished(w, cross[..j], Names1(ds), Paths(ds), Packed(cross[i]));
  }

  // A target that names a chained publish resolves if and only if its publisher comes earlier in
  // pass two and resolves itself, and then to where the publisher serves.
  lemma ChainedTargetResolves(w: World, i: nat, j: nat)
    requires UniqueNames(Flatten(w.order))
    requires var cross := CrossMod(Flatten(w.order));
             i < |cross| && j < |cross| && Publishes(cross[i]) && Names(cross[j], Packed(cross[i]))
    ensures TargetAt(w, j) == if i < j then TargetAt(w, i) else None
  {
    hide Packed, LowerAll, Names1, Paths, CrossMod, Flatten, UniqueNames, Pass2;
    if i < j { PublishedSince(w, i, j); } else { UnknownBefore(w, i, j); }
  }

  // A target that names an asset which replaces a vanilla path resolves whenever its turn comes.
  lemma VanillaTargetAt(w: World, d: Declaration, j: nat)
    requires UniqueNames(Flatten(w.order)) && d in Flatten(w.order) && Publishes(d) && d.kind.VanillaPath?
    requires j < |CrossMod(Flatten(w.order))| && Names(CrossMod(Flatten(w.order))[j], Packed(d))
    ensures TargetAt(w, j) == Some(d.kind.key)
  {
    hide Packed, LowerAll, Names1, Paths, Pass2;
    var ds := Flatten(w.order);
    var cross := CrossMod(ds);
    var i :| 0 <= i < |ds| && ds[i] == d;
    PublishedInPassOne(ds, i);
    forall x | x in cross[..j] && Publishes(x) ensures Packed(x) != Packed(d) {
      CrossModAreDeclared(ds, x);
      var k :| 0 <= k < |ds| && ds[k] == x;
    }
    NameStands(w, cross[..j], Names1(ds), Paths(ds), Packed(d));
    NamedResolves(w, cross[j], Pass2(w, cross[..j], Names1(ds), Paths(ds)).names, Paths(ds), Packed(d));
  }

  // Three plugins: one replaces a vanilla path and publishes that, one replaces what the first
  // publishes and publishes it again, one replaces what the second publishes.
  const FIRST := Declaration("a", "p", "a.dds", "", "x", VanillaPath("k"))
  const CHAIN := Declaration("b", "q", "b.dds", "", "yy", PublishedName("a.p.x"))
  const LAST := Declaration("c", "r", "c.dds", "", "", PublishedName("b.q.yy"))

  function Three(second: Declaration, third: Declaration): World {
    World([Plugin(true, [FIRST]), Plugin(true, [second]), Plugin(true, [third])], [], (_, _) => false)
  }

  lemma ThreePlugins(second: Declaration, third: Declaration)
    requires !second.kind.VanillaPath? && !third.kind.VanillaPath?
    ensures Flatten(Three(second, third).order) == [FIRST, second, third]
    ensures CrossMod([FIRST, second, third]) == [second, third]
  {
    hide Flatten, CrossMod;
    var p, q, r := Plugin(true, [FIRST]), Plugin(true, [second]), Plugin(true, [third]);
    NothingFlat();
    FlattenSnoc([], p);
    FlattenSnoc([p], q);
    FlattenSnoc([p, q], r);
    assert [] + [p] == [p] && [p] + [q] == [p, q] && [p, q] + [r] == [p, q, r];
    CrossModSnoc([], FIRST);
    CrossModSnoc([FIRST], second);
    CrossModSnoc([FIRST, second], third);
    assert [] + [FIRST] == [FIRST] && [FIRST] + [second] == [FIRST, second];
    assert [FIRST, second] + [third] == [FIRST, second, third];
  }

  lemma NothingFlat()
    ensures Flatten([]) == [] && CrossMod([]) == []
  {}

  lemma FlattenSnoc(order: seq<Plugin>, p: Plugin)
    ensures Flatten(order + [p]) == Flatten(order) + if p.hasAssets then p.decls else []
  {
    assert (order + [p])[..|order|] == order;
  }

  lemma CrossModSnoc(ds: seq<Declaration>, d: Declaration)
    ensures CrossMod(ds + [d]) == CrossMod(ds) + if d.kind.VanillaPath? then [] else [d]
  {
    assert (ds + [d])[..|ds|] == ds;
  }

  // The same three declarations in two load orders: in one the last target resolves to the vanilla
  // path, in the other it names nothing.
  lemma ChainDependsOnLoadOrder()
    ensures multiset(Flatten(Three(CHAIN, LAST).order)) == multiset(Flatten(Three(LAST, CHAIN).order))
    ensures CrossMod(Flatten(Three(CHAIN, LAST).order)) == [CHAIN, LAST] && TargetAt(Three(CHAIN, LAST), 1) == Some("k")
    ensures CrossMod(Flatten(Three(LAST, CHAIN).order)) == [LAST, CHAIN] && TargetAt(Three(LAST, CHAIN), 0) == None
  {
    hide TargetAt, Flatten, CrossMod;
    ThreePlugins(CHAIN, LAST);
    ThreePlugins(LAST, CHAIN);
    ThreeNames();
    VanillaTargetAt(Three(CHAIN, LAST), FIRST, 0);
    ChainedTargetResolves(Three(CHAIN, LAST), 0, 1);
    ChainedTargetResolves(Three(LAST, CHAIN), 1, 0);
  }

  // The plugin that loads first claims the vanilla path through the other's publish, and does not get
  // it: the later plugin's vanilla claim is keyed before.
  function Late(): World {
    World([Plugin(true, [CHAIN]), Plugin(true, [FIRST])], [], (_, _) => false)
  }

  lemma EarliestLoaderLoses()
    ensures Flatten(Late().order) == [CHAIN, FIRST]
    ensures Claim("k", CHAIN) in Claims(Late()) && Claim("k", FIRST) in Claims(Late())
    ensures "k" in FirstWins(Claims(Late())) && FirstWins(Claims(Late()))["k"] == Entry(FIRST.plugin, FIRST.disk)
  {
    hide Claims, FirstWins, Packed;
    LateOrder();
    ThreeNames();
    NamedTargetResolves(Late(), FIRST, CHAIN, "k");
    VanillaBeatsCrossMod(Late(), FIRST);
    var v :| v in Flatten(Late().order) && v.kind == FIRST.kind &&
    FirstWins(Claims(Late()))["k"] == Entry(v.plugin, v.disk);
    assert v == FIRST;
    LateClaims();
  }

  lemma LateOrder()
    ensures Flatten(Late().order) == [CHAIN, FIRST]
  {
    var order := Late().order;
    assert order[..1][..0] == [];
    assert Flatten(order[..1]) == [CHAIN];
  }

  lemma LateClaims()
    ensures Claim("k", FIRST) in Claims(Late())
  {
    hide PassTwo;
    LateOrder();
    VanillaIsClaimed(Flatten(Late().order), FIRST);
  }

  lemma ThreeNames()
    ensures Names(CHAIN, Packed(FIRST)) && Names(LAST, Packed(CHAIN)) && Packed(FIRST) != Packed(CHAIN)
    ensures !Publishes(LAST) && Publishes(CHAIN) && Publishes(FIRST)
  {
    assert "a" + "." + "p" + "." + "x" == "a.p.x";
    assert "b" + "." + "q" + "." + "yy" == "b.q.yy";
    assert |Packed(FIRST)| == 5 && |Packed(CHAIN)| == 6;
  }

  // The same for a target given as a plugin and a path: where the declarations of that file agree
  // on where it serves, it resolves to that place.
  predicate Pairs(c: Declaration, key: string) {
    c.kind.PluginPathPair? && PluginPathKey("", c.kind.plugin, Fold(c.kind.path)) == key
  }

  function FileKey(d: Declaration): string {
    PluginPathKey(d.author, d.plugin, d.rel)
  }

  lemma {:induction false} PathIndexed(ds: seq<Declaration>, d: Declaration)
    requires d in ds && d.rel != "" && forall e :: e in ds && e.rel != "" && FileKey(e) == FileKey(d) ==>
             ServePath(e) == ServePath(d)
    ensures FileKey(d) in Paths(ds) && Paths(ds)[FileKey(d)] == ServePath(d)
    decreases |ds|
  {
    hide PluginPathKey;
    var n := |ds| - 1;
    assert ds == ds[..n] + [ds[n]];
    if d in ds[..n] { PathIndexed(ds[..n], d); }
  }

  lemma {:induction false} PairStands(w: World, cross: seq<Declaration>, names: map<string, Published>,
                                      paths: map<string, string>,
                                      key: string)
    requires key in paths
    ensures var s := Pass2(w, cross, names, paths);
            (forall c :: c in cross && Pairs(c, key) ==> Claim(paths[key], c) in s.claims) &&
            (forall c :: c in s.claims ==> c.decl in cross && (Pairs(c.decl, key) ==> c.vpath == paths[key]))
    decreases |cross|
  {
    hide Packed, LowerAll, PluginPathKey, Serves;
    if cross != [] {
      var n := |cross| - 1;
      assert cross == cross[..n] + [cross[n]];
      PairStands(w, cross[..n], names, paths, key);
    }
  }

  lemma PairTargetResolves(w: World, d: Declaration, c: Declaration, v: string)
    requires d in Flatten(w.order) && c in Flatten(w.order) && d.rel != "" && Pairs(c, FileKey(d))
    requires forall e :: e in Flatten(w.order) && e.rel != "" && FileKey(e) == FileKey(d) ==>
             ServePath(e) == ServePath(d)
    ensures Claim(v, c) in Claims(w) <==> v == if d.kind.VanillaPath? then d.kind.key else d.rel
  {
    hide Pass2, Packed, LowerAll, PluginPathKey;
    var ds := Flatten(w.order);
    PathIndexed(ds, d);
    PairStands(w, CrossMod(ds), Names1(ds), Paths(ds), FileKey(d));
    CrossModAreDeclared(ds, c);
    if Claim(v, c) in VanillaClaims(ds) { VanillaClaimsAreVanilla(ds, Claim(v, c)); }
  }

  // The identity names the plugin: by its name, or by author and name with a dot between them, where
  // the author may be left out.
  predicate Identifies(ident: string, p: Loaded) {
    p.name != "" &&
    (('.' !in ident && ident == p.name) || ident == "." + p.name ||
     ('.' !in p.author && ident == p.author + "." + p.name))
  }

  lemma IdentifiesIsMatches(ident: string, p: Loaded)
    ensures Identifies(ident, p) <==> HasPluginPart(ident) && Matches(p, ident)
  {
    var d := VersionKeys.FirstDot(ident);
    if d < |ident| {
      assert ident == ident[..d] + "." + ident[d + 1..];
    } else {
      assert ident[..d] == ident;
    }
    if ident == "." + p.name { VersionKeys.FirstDotAt("", p.name); }
    if '.' !in p.author && ident == p.author + "." + p.name { VersionKeys.FirstDotAt(p.author, p.name); }
    if '.' !in ident { VersionKeys.FirstDotAt(ident, ""); }
  }

  // The first plugin the identity names has assets, and the file is among them.
  predicate Ships(w: World, ident: string, path: string, k: nat) {
    k < |w.loaded| && Identifies(ident, w.loaded[k]) && (forall j :: 0 <= j < k ==> !Identifies(ident, w.loaded[j])) &&
    w.loaded[k].hasAssets && w.isFile(k, path)
  }

  lemma {:induction false} FindIsFirst(loaded: seq<Loaded>, ident: string)
    ensures match FindIn(loaded, ident)
            case Some(k) => Identifies(ident, loaded[k]) && forall j :: 0 <= j < k ==> !Identifies(ident, loaded[j])
            case None => forall j :: 0 <= j < |loaded| ==> !Identifies(ident, loaded[j])
    decreases |loaded|
  {
    hide Identifies, Matches, HasPluginPart;
    if loaded != [] {
      var n := |loaded| - 1;
      FindIsFirst(loaded[..n], ident);
      forall p ensures Identifies(ident, p) <==> HasPluginPart(ident) && Matches(p, ident) {
        IdentifiesIsMatches(ident, p);
      }
    }
  }

  lemma AddNewMeans(w: World, ident: string, path: string)
    ensures AddNew(w, ident, path) <==> exists k :: Ships(w, ident, path, k)
  {
    hide Identifies;
    FindIsFirst(w.loaded, ident);
    if AddNew(w, ident, path) {
      assert Ships(w, ident, path, FindIn(w.loaded, ident).value);
    }
    if k :| Ships(w, ident, path, k) {
      var r := FindIn(w.loaded, ident);
      if r.Some? { assert r.value == k; }
    }
  }

  lemma {:induction false} OnlyDeclaredFiles(ds: seq<Declaration>, key: string)
    requires key in Paths(ds)
    ensures exists d :: d in ds && d.rel != "" && FileKey(d) == key
    decreases |ds|
  {
    hide PluginPathKey;
    var n := |ds| - 1;
    if !(ds[n].rel != "" && FileKey(ds[n]) == key) {
      OnlyDeclaredFiles(ds[..n], key);
      var d :| d in ds[..n] && d.rel != "" && FileKey(d) == key;
    }
  }

  // Where no declaration is of that file, the target resolves to the file's own path if and only if
  // the plugin it names is loaded, has assets and ships the file.
  lemma AddNewTargetResolves(w: World, c: Declaration, v: string)
    requires c in Flatten(w.order) && c.kind.PluginPathPair?
    requires forall d :: d in Flatten(w.order) && d.rel != "" ==> !Pairs(c, FileKey(d))
    ensures Claim(v, c) in Claims(w) <==>
              v == Fold(c.kind.path) && exists k :: Ships(w, c.kind.plugin, c.kind.path, k)
  {
    hide Pass2, CrossMod, VanillaClaims, Flatten, PluginPathKey, Names1, Paths, AddNew, Ships, Fold, Serves;
    var ds := Flatten(w.order);
    var cross := CrossMod(ds);
    var key := PluginPathKey("", c.kind.plugin, Fold(c.kind.path));
    if key in Paths(ds) {
      OnlyDeclaredFiles(ds, key);
    }
    AddNewMeans(w, c.kind.plugin, c.kind.path);
    CrossModAreDeclared(ds, c);
    if Claim(v, c) in VanillaClaims(ds) { VanillaClaimsAreVanilla(ds, Claim(v, c)); }
    assert cross[..|cross|] == cross;
    ClaimedIffResolved(w, v, c, |cross|);
    var i :| 0 <= i < |cross| && cross[i] == c;
    assert TargetAt(w, i) == if AddNew(w, c.kind.plugin, c.kind.path) then Some(Fold(c.kind.path)) else None;
  }

  // ---- What the keys say -----------------------------------------------------

  ghost predicate SameButCase(s: string, t: string) {
    |s| == |t| && forall i :: 0 <= i < |s| ==> s[i] == t[i] || CaseOf(s[i], t[i]) || CaseOf(t[i], s[i])
  }

  lemma LowerAllMeans(s: string, t: string)
    ensures LowerAll(s) == LowerAll(t) <==> SameButCase(s, t)
  {
    hide CaseOf;
    forall i | 0 <= i < |s| && i < |t|
      ensures Lower(s[i]) == Lower(t[i]) <==> s[i] == t[i] || CaseOf(s[i], t[i]) || CaseOf(t[i], s[i])
    {
      CaseIsLower(s[i], t[i]);
      CaseIsLower(t[i], s[i]);
    }
    if LowerAll(s) == LowerAll(t) {
      assert |s| == |t|;
      forall i | 0 <= i < |s| ensures Lower(s[i]) == Lower(t[i]) {
        assert LowerAll(s)[i] == LowerAll(t)[i];
      }
    }
  }

  function Identity(author: string, plugin: string): string {
    if author == "" then plugin else author + "." + plugin
  }

  // A target names a publication when it is spelled as author, plugin and bare name, letter case aside.
  lemma NamesMeans(c: Declaration, d: Declaration)
    ensures Names(c, Packed(d)) <==>
              c.kind.PublishedName? && SameButCase(c.kind.target, Identity(d.author, d.plugin) + "." + d.publishName)
  {
    hide LowerAll, SameButCase;
    if c.kind.PublishedName? {
      LowerAllMeans(c.kind.target, Identity(d.author, d.plugin) + "." + d.publishName);
    }
  }

  // A pair is of a file when it names the plugin, letter case aside, and the file's path as it folds.
  lemma PairsMeans(c: Declaration, d: Declaration)
    requires c.kind.PluginPathPair? && '|' !in c.kind.plugin && '|' !in d.author && '|' !in d.plugin
    ensures Pairs(c, FileKey(d)) <==>
              Fold(c.kind.path) == d.rel && SameButCase(c.kind.plugin, Identity(d.author, d.plugin))
  {
    hide LowerAll, SameButCase, Fold;
    var a, b := c.kind.plugin, Identity(d.author, d.plugin);
    LowerAllMeans(a, b);
    NoBar(a);
    NoBar(b);
    BarSplits(LowerAll(a), Fold(c.kind.path), LowerAll(b), d.rel);
  }

  lemma NoBar(s: string)
    requires '|' !in s
    ensures '|' !in LowerAll(s)
  {}

  lemma BarSplits(a: string, x: string, b: string, y: string)
    requires '|' !in a && '|' !in b
    ensures a + "|" + x == b + "|" + y <==> a == b && x == y
  {
    var s, t := a + "|" + x, b + "|" + y;
    if s == t {
      assert s[|a|] == '|' && t[|b|] == '|';
      assert a == s[..|a|] && b == t[..|b|] && x == s[|a| + 1..] && y == t[|b| + 1..];
    }
  }

  // ---- Lookups ---------------------------------------------------------------

  // Any respelling of a declared vanilla target finds an entry.
  lemma AnySpellingHits(w: World, d: Declaration, spelled: string, request: string)
    requires d in Flatten(w.order) && d.kind == VanillaPath(Fold(spelled)) && Linked(spelled, request)
    ensures Fold(request) in FirstWins(Claims(w))
  {
    FoldEqualIffLinked(spelled, request);
    VanillaBeatsCrossMod(w, d);
  }
}
