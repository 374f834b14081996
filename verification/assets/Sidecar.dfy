/**
 The rows of a `replaces.toml` sidecar: which are declarations, and of what.
 */
module Sidecar {
  import opened Options
  import opened PathFold

  datatype Kind =
    | VanillaPath(key: string)
    | PublishedName(target: string)
    | PluginPathPair(plugin: string, path: string)

  // `rel` is the folded path of the declaring file below its assets directory, "" if there is none.
  datatype Declaration = Declaration(
    author: string, plugin: string, disk: string, rel: string, publishName: string, kind: Kind)

  // A parsed row: `keysOk` says that it has known keys of string type only, `file` what the search
  // for the declaring file came back with.
  datatype Row = Row(
    keysOk: bool, replacing: string, replacesPlugin: string, replacesPath: string, name: string,
    file: Option<string>, rel: string)

  datatype RowError = BadKeys | BothForms | MissingTarget | IncompletePair | NoFile | NoSuchVanillaPath

  datatype RowResult = Accepted(decl: Declaration) | Rejected(error: RowError)

  function Dots(s: string): nat {
    if s == "" then 0 else Dots(s[..|s| - 1]) + if s[|s| - 1] == '.' then 1 else 0
  }

  // A token without slashes and with at least two dots.
  predicate LooksLikeName(s: string) {
    (forall i :: 0 <= i < |s| ==> !IsSeparator(s[i])) && Dots(s) >= 2
  }

  // A name has a dot, and another one behind it.
  lemma {:induction false} DotsMeans(s: string)
    ensures Dots(s) >= 1 <==> exists i :: 0 <= i < |s| && s[i] == '.'
    ensures Dots(s) >= 2 <==> exists i, j :: 0 <= i < j < |s| && s[i] == '.' && s[j] == '.'
    decreases |s|
  {
    if s != "" {
      var n := |s| - 1;
      DotsMeans(s[..n]);
      if s[n] == '.' {
        if i :| 0 <= i < n && s[..n][i] == '.' { assert s[i] == '.'; }
      } else {
        assert forall i :: 0 <= i < n ==> s[..n][i] == s[i];
      }
    }
  }

  method LooksLikePublishedName(s: string) returns (r: bool)
    ensures r == LooksLikeName(s)
    ensures r <==> '/' !in s && '\\' !in s && exists i, j :: 0 <= i < j < |s| && s[i] == '.' && s[j] == '.'
  {
    DotsMeans(s);
    var dots := 0;
    for i := 0 to |s|
      invariant dots == Dots(s[..i]) && forall k :: 0 <= k < i ==> !IsSeparator(s[k])
    {
      assert s[..i + 1][..i] == s[..i];
      if s[i] == '/' || s[i] == '\\' { return false; }
      if s[i] == '.' {
        dots := dots + 1;
      }
    }
    assert s[..|s|] == s;
    return dots >= 2;
  }

  // The vanilla-existence check, where there is one.
  type Existence = Option<string -> bool>

  predicate OnePair(row: Row) {
    row.replacing == "" && row.replacesPlugin != "" && row.replacesPath != ""
  }

  predicate OneString(row: Row) {
    row.replacing != "" && row.replacesPlugin == "" && row.replacesPath == ""
  }

  predicate VanillaMissing(row: Row, exists_: Existence) {
    OneString(row) && !LooksLikeName(row.replacing) && exists_.Some? && !exists_.value(Fold(row.replacing))
  }

  function KindOf(row: Row): Kind {
    if row.replacing == "" then PluginPathPair(row.replacesPlugin, row.replacesPath)
    else if LooksLikeName(row.replacing) then PublishedName(row.replacing)
    else VanillaPath(Fold(row.replacing))
  }

  // ResolveOneRow: a row is a declaration exactly when it has one complete target form, a file, and
  // (for a vanilla path, where existence is checked) a real target.
  method ResolveOneRow(row: Row, author: string, plugin: string, exists_: Existence) returns (r: RowResult)
    ensures r.Accepted? <==>
              row.keysOk && (OnePair(row) || OneString(row)) && row.file.Some? && !VanillaMissing(row, exists_)
    ensures r.Accepted? ==>
              r.decl == Declaration(author, plugin, row.file.value, row.rel, row.name, KindOf(row)) &&
              (r.decl.kind.VanillaPath? ==> Canonical(r.decl.kind.key))
    ensures r.Accepted? ==>
              (r.decl.kind.PluginPathPair? <==> row.replacing == "") &&
              (r.decl.kind.PluginPathPair? ==> r.decl.kind == PluginPathPair(row.replacesPlugin, row.replacesPath)) &&
              (r.decl.kind.PublishedName? <==> row.replacing != "" && LooksLikeName(row.replacing)) &&
              (r.decl.kind.PublishedName? ==> r.decl.kind.target == row.replacing) &&
              (r.decl.kind.VanillaPath? ==> Linked(row.replacing, r.decl.kind.key))
  {
    if !row.keysOk { return Rejected(BadKeys); }
    var hasReplaces := row.replacing != "";
    var hasPair := row.replacesPlugin != "" || row.replacesPath != "";
    if hasReplaces && hasPair { return Rejected(BothForms); }
    if !hasReplaces && !hasPair { return Rejected(MissingTarget); }
    if hasPair && (row.replacesPlugin == "" || row.replacesPath == "") { return Rejected(IncompletePair); }
    if row.file.None? { return Rejected(NoFile); }
    var base := Declaration(author, plugin, row.file.value, row.rel, row.name,
                            PluginPathPair(row.replacesPlugin, row.replacesPath));
    if hasPair { return Accepted(base); }
    var isName := LooksLikePublishedName(row.replacing);
    if isName { return Accepted(base.(kind := PublishedName(row.replacing))); }
    var key := NormalizeVPath(row.replacing);
    if exists_.Some? && !exists_.value(key) { return Rejected(NoSuchVanillaPath); }
    FoldIsCanonical(row.replacing);
    FoldIdempotent(row.replacing);
    FoldEqualIffLinked(row.replacing, key);
    return Accepted(base.(kind := VanillaPath(key)));
  }
}
