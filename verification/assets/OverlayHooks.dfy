/**
 The decision part of the two file hooks over the build-time map and the runtime store, and the
 runtime store's own operations in place.
 */
module OverlayHooks {
  import opened Options
  import opened PathFold
  import opened SnapshotStore
  import opened Sidecar
  import opened Overlay
  import opened OverlayTheorems

  const MAX_PATH := 2048

  // What a hook does with a request: it leaves it to the engine, or serves a file of its own.
  datatype Decision = CallOriginal | Serve(disk: string)

  // The file that owns a key: the build-time map's first, else the runtime store's.
  function Winner(overlay: map<string, Entry>, runtime: Snapshot, key: string): Option<string> {
    if key in overlay then Some(overlay[key].disk)
    else if key in runtime then Some(runtime[key].disk)
    else None
  }

  // What the path resolver may answer: it needs a buffer, and a path that fits.
  function ResolverDecision(overlay: map<string, Entry>, runtime: Snapshot, name: Option<string>,
                            hasBuffer: bool): Decision {
    if name.None? || !hasBuffer then CallOriginal else
    match Winner(overlay, runtime, Fold(name.value))
    case Some(disk) => if |disk| < MAX_PATH then Serve(disk) else CallOriginal
    case None => CallOriginal
  }

  // What the file opener tries first.
  function OpenerDecision(overlay: map<string, Entry>, runtime: Snapshot, name: Option<string>): Decision {
    if name.None? then CallOriginal else
    match Winner(overlay, runtime, Fold(name.value))
    case Some(disk) => Serve(disk)
    case None => CallOriginal
  }

  class FileHooks {
    const overlay: map<string, Entry>
    var snapshots: seq<Snapshot>
    var current: nat
    var vmUp: bool
    var bootOpened: set<string>
    var bootWarned: set<string>     // the boot assets a registration was warned about

    constructor (overlay: map<string, Entry>)
      ensures Valid() && this.overlay == overlay && Runtime() == map[] && !vmUp && bootOpened == {} && bootWarned == {}
    {
      this.overlay := overlay;
      snapshots, current, vmUp, bootOpened, bootWarned := [map[]], 0, false, {}, {};
    }

    ghost predicate Valid()
      reads this
    {
      current < |snapshots|
    }

    function Runtime(): Snapshot
      reads this
      requires Valid()
    {
      snapshots[current]
    }

    // RegisterRuntimeOverlay: a copy of the current snapshot with one change becomes current; every
    // snapshot handed out before stays as it is.  A path the engine opened at boot is warned about,
    // once in whatever spelling.
    method RegisterRuntimeOverlay(vpath: string, disk: string, owner: string) returns (warns: bool)
      requires Valid()
      modifies `snapshots, `current, `bootWarned
      ensures Valid() && old(snapshots) <= snapshots
      ensures Runtime() == old(Runtime())[Fold(vpath) := Item(owner, disk)]
      ensures warns <==> vmUp && Fold(vpath) in bootOpened && Fold(vpath) !in old(bootWarned)
      ensures bootWarned == old(bootWarned) + if warns then {Fold(vpath)} else {}
    {
      var cur := current;
      var key := NormalizeVPath(vpath);
      var next := snapshots[cur][key := Item(owner, disk)];
      snapshots := snapshots + [next];
      current := |snapshots| - 1;
      warns := vmUp && key in bootOpened && key !in bootWarned;
      if warns { bootWarned := bootWarned + {key}; }
    }

    method LookupRuntimeOverlay(key: string) returns (r: Option<Item>)
      requires Valid()
      ensures r == Find(Runtime(), key)
    {
      var snap := snapshots[current];
      r := if key in snap then Some(snap[key]) else None;
    }

    method RecordBootOpen(key: string)
      modifies `bootOpened
      ensures bootOpened == if vmUp then old(bootOpened) else old(bootOpened) + {key}
    {
      if vmUp { return; }
      bootOpened := bootOpened + {key};
    }

    // From here on the boot opens stand as they are.
    method NotifyVmReady()
      modifies `vmUp
      ensures vmUp
    {
      vmUp := true;
    }

    method AdjustFileNameResolver(name: Option<string>, hasBuffer: bool) returns (r: Decision)
      requires Valid()
      modifies `bootOpened
      ensures r == ResolverDecision(overlay, Runtime(), name, hasBuffer)
      ensures bootOpened == if vmUp || name.None? || !hasBuffer then old(bootOpened)
                            else old(bootOpened) + {Fold(name.value)}
    {
      if name.None? || !hasBuffer { return CallOriginal; }
      var key := NormalizeVPath(name.value);
      RecordBootOpen(key);
      var disk;
      if key in overlay {
        disk := overlay[key].disk;
      } else {
        var item := LookupRuntimeOverlay(key);
        if item.None? { return CallOriginal; }
        disk := item.value.disk;
      }
      if |disk| >= MAX_PATH { return CallOriginal; }
      return Serve(disk);
    }

    // `opens` says which files the CRT can open.
    method FOpenLooseOverlay(name: Option<string>, opens: string -> bool) returns (tried: Decision, r: Decision)
      requires Valid()
      modifies `bootOpened
      ensures tried == OpenerDecision(overlay, Runtime(), name)
      ensures r == if tried.Serve? && opens(tried.disk) then tried else CallOriginal
      ensures bootOpened == if vmUp || name.None? then old(bootOpened) else old(bootOpened) + {Fold(name.value)}
    {
      if name.None? { return CallOriginal, CallOriginal; }
      var key := NormalizeVPath(name.value);
      RecordBootOpen(key);
      var disk;
      if key in overlay {
        disk := overlay[key].disk;
      } else {
        var item := LookupRuntimeOverlay(key);
        if item.None? { return CallOriginal, CallOriginal; }
        disk := item.value.disk;
      }
      tried := Serve(disk);
      r := if opens(disk) then tried else CallOriginal;
    }
  }

  // Both hooks pick the same winner for any request, in any spelling: what the resolver serves the
  // opener tries, and what the opener tries the resolver serves if and only if it has a buffer and
  // the path fits.
  lemma HooksAgree(overlay: map<string, Entry>, runtime: Snapshot, a: string, b: string, hasBuffer: bool, disk: string)
    requires Linked(a, b)
    ensures ResolverDecision(overlay, runtime, Some(a), hasBuffer) == Serve(disk) <==>
              OpenerDecision(overlay, runtime, Some(b)) == Serve(disk) && hasBuffer && |disk| < 2048
  {
    FoldEqualIffLinked(a, b);
  }

  // From the declaration to the served file: a request in any spelling of a declared vanilla target is
  // answered with the file of a declaration of that very target, whatever the runtime store holds.
  lemma DeclaredTargetIsServed(w: World, d: Declaration, spelled: string, request: string, runtime: Snapshot)
    requires d in Flatten(w.order) && d.kind == VanillaPath(Fold(spelled)) && Linked(spelled, request)
    ensures exists v :: v in Flatten(w.order) && v.kind == d.kind &&
                        OpenerDecision(FirstWins(Claims(w)), runtime, Some(request)) == Serve(v.disk) &&
                        ResolverDecision(FirstWins(Claims(w)), runtime, Some(request), true) ==
                          if |v.disk| < 2048 then Serve(v.disk) else CallOriginal
  {
    hide FirstWins, Claims, Flatten;
    FoldEqualIffLinked(spelled, request);
    VanillaBeatsCrossMod(w, d);
  }

  // A runtime overlay changes nothing for a key the build-time map owns, and everything for the
  // key it names otherwise.
  lemma RuntimeOverlayTakesEffect(overlay: map<string, Entry>, runtime: Snapshot, vpath: string, item: Item,
                                  request: string)
    ensures var after := runtime[Fold(vpath) := item];
            Winner(overlay, after, Fold(request)) ==
              if Linked(vpath, request) && Fold(vpath) !in overlay then Some(item.disk)
              else Winner(overlay, runtime, Fold(request))
  {
    FoldEqualIffLinked(vpath, request);
  }
}
