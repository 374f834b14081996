/**
 Console command registration: a fixed table of slots, and a queue for what is registered before
 the engine's console is up.  The queue is invisible in the outcome: the table and the order in
 which the engine is told of commands are those of immediate registration.
 */
module Console {
  import opened Options

  const MAX_COMMANDS := 256

  const ENGINE_OWNER := -1    // the invalid plugin handle

  // What the engine registers itself, in dev mode, when the console comes up.
  const VERIFY_ALL := Call(ENGINE_OWNER, Some("kcdx_verify_all"), "run the batch verification sweep", true)

  // A registration as it is asked for; a null name or callback is `None` or false.
  datatype Call = Call(owner: int, name: Option<string>, help: string, hasCallback: bool)

  datatype Command = Command(owner: int, name: string, help: string)

  predicate WellFormed(c: Call) {
    c.name.Some? && c.name.value != "" && c.hasCallback
  }

  function CommandOf(c: Call): Command
    requires WellFormed(c)
  {
    Command(c.owner, c.name.value, c.help)
  }

  predicate Has(cs: seq<Command>, name: string) {
    exists i :: 0 <= i < |cs| && cs[i].name == name
  }

  // The first well-formed call of each name, in call order.
  function Distinct(calls: seq<Call>): seq<Command> {
    if calls == [] then [] else
    var n := |calls| - 1; var c := calls[n]; var cs := Distinct(calls[..n]);
    if WellFormed(c) && !Has(cs, c.name.value) then cs + [CommandOf(c)] else cs
  }

  function Capped(cs: seq<Command>): seq<Command> {
    if |cs| <= MAX_COMMANDS then cs else cs[..MAX_COMMANDS]
  }

  function NamesOf(cs: seq<Command>): (r: seq<string>)
    ensures |r| == |cs| && forall i :: 0 <= i < |r| ==> r[i] == cs[i].name
  {
    seq(|cs|, i requires 0 <= i < |cs| => cs[i].name)
  }

  ghost predicate UniqueNames(cs: seq<Command>) {
    forall i, j :: 0 <= i < j < |cs| ==> cs[i].name != cs[j].name
  }

  lemma {:induction false} DistinctIsUnique(calls: seq<Call>)
    ensures UniqueNames(Distinct(calls))
    decreases |calls|
  {
    if calls != [] { DistinctIsUnique(calls[..|calls| - 1]); }
  }

  // Every well-formed name called is there, and nothing else.
  lemma {:induction false} DistinctHasAll(calls: seq<Call>, name: string)
    ensures Has(Distinct(calls), name) <==>
              exists i :: 0 <= i < |calls| && WellFormed(calls[i]) && calls[i].name.value == name
    decreases |calls|
  {
    hide Has;
    if calls == [] {
      NothingHas(name);
    } else {
      var n := |calls| - 1; var c := calls[n];
      DistinctHasAll(calls[..n], name);
      if WellFormed(c) { HasSnoc(Distinct(calls[..n]), CommandOf(c), name); }
      assert forall i :: 0 <= i < n ==> calls[..n][i] == calls[i];
    }
  }

  lemma NothingHas(name: string)
    ensures !Has([], name)
  {}

  lemma HasSnoc(cs: seq<Command>, c: Command, name: string)
    ensures Has(cs + [c], name) <==> Has(cs, name) || c.name == name
  {
    assert (cs + [c])[|cs|] == c;
    if i :| 0 <= i < |cs| && cs[i].name == name {
      assert (cs + [c])[i] == cs[i];
    }
  }

  lemma DistinctSnoc(calls: seq<Call>, c: Call)
    ensures Distinct(calls + [c]) ==
            if WellFormed(c) && !Has(Distinct(calls), c.name.value) then Distinct(calls) + [CommandOf(c)]
            else Distinct(calls)
  {
    assert (calls + [c])[..|calls|] == calls;
  }

  // Each command is what the first well-formed call of its name asked for.
  lemma {:induction false} DistinctIsFirst(calls: seq<Call>, i: nat) returns (k: nat)
    requires i < |Distinct(calls)|
    ensures k < |calls| && WellFormed(calls[k])
    ensures var c := Distinct(calls)[i];
            calls[k].name == Some(c.name) && calls[k].owner == c.owner && calls[k].help == c.help &&
            forall j :: 0 <= j < k && WellFormed(calls[j]) ==> calls[j].name != Some(c.name)
    decreases |calls|
  {
    hide Has;
    var n := |calls| - 1;
    if i < |Distinct(calls[..n])| {
      k := DistinctIsFirst(calls[..n], i);
      assert forall j :: 0 <= j < k ==> calls[j] == calls[..n][j];
    } else {
      k := n;
      DistinctHasAll(calls[..n], calls[n].name.value);
      assert forall j :: 0 <= j < n ==> calls[j] == calls[..n][j];
    }
  }

  // The table has room for 256 commands, and the first ones get it.
  lemma CappedMeans(cs: seq<Command>)
    ensures Capped(cs) <= cs && |Capped(cs)| <= 256 && (|cs| <= 256 ==> Capped(cs) == cs) &&
            (|cs| > 256 ==> |Capped(cs)| == 256)
  {}

  class Console {
    const slots: array<Option<Command>>
    var pending: seq<Command>
    var ready: bool
    var added: seq<string>          // the names the engine's AddCommand was called with, in order

    ghost var table: seq<Command>   // what the slots hold
    ghost var calls: seq<Call>      // history: the calls so far, failed initialisation aside

    constructor ()
      ensures Valid() && fresh(slots) && !ready && table == [] && calls == [] && added == []
    {
      slots := new Option<Command>[MAX_COMMANDS](_ => None);
      pending, ready, added, table, calls := [], false, [], [], [];
    }

    ghost predicate SlotsHold()
      reads this, slots
    {
      slots.Length == MAX_COMMANDS && |table| <= MAX_COMMANDS &&
      (forall i :: 0 <= i < |table| ==> slots[i] == Some(table[i])) &&
      (forall i :: |table| <= i < MAX_COMMANDS ==> slots[i] == None) &&
      added == NamesOf(table)
    }

    // Before the console is up everything is queued; after that the table holds the first distinct
    // names of all calls.
    ghost predicate Valid()
      reads this, slots
    {
      SlotsHold() &&
      if ready then pending == [] && table == Capped(Distinct(calls)) else table == [] && pending == Distinct(calls)
    }

    method NameTaken(name: string) returns (taken: bool)
      requires SlotsHold()
      ensures taken <==> Has(table + pending, name)
    {
      for i := 0 to MAX_COMMANDS
        invariant forall k :: 0 <= k < i && k < |table| ==> table[k].name != name
      {
        if slots[i].Some? && slots[i].value.name == name {
          assert (table + pending)[i].name == name;
          return true;
        }
      }
      for i := 0 to |pending|
        invariant forall k :: 0 <= k < i ==> pending[k].name != name
      {
        if pending[i].name == name {
          assert (table + pending)[|table| + i].name == name;
          return true;
        }
      }
      return false;
    }

    // The first free slot takes the command and the engine is told; without one nothing happens.
    method RegisterCommandNow(c: Command) returns (ok: bool)
      requires SlotsHold()
      modifies `added, `table, slots
      ensures SlotsHold() && ok == (|old(table)| < MAX_COMMANDS)
      ensures table == if ok then old(table) + [c] else old(table)
    {
      var i := 0;
      while i < MAX_COMMANDS && slots[i].Some?
        invariant i <= |table|
      {
        i := i + 1;
      }
      if i == MAX_COMMANDS { return false; }
      slots[i] := Some(c);
      added := added + [c.name];
      table := table + [c];
      return true;
    }

    method RegisterCommand(call: Call) returns (ok: bool)
      requires Valid()
      modifies this, slots
      ensures Valid() && calls == old(calls) + [call] && ready == old(ready)
      ensures ok <==>
                call.name.Some? && call.name.value != "" && call.hasCallback &&
                !Has(old(table + pending), call.name.value) && (old(ready) ==> |old(table)| < 256)
    {
      DistinctSnoc(calls, call);
      ghost var before := calls;
      calls := calls + [call];
      if !WellFormed(call) { return false; }
      var taken := NameTaken(call.name.value);
      TakenMeansKnown(before, call.name.value, table, pending);
      if taken { return false; }
      if !ready {
        pending := pending + [CommandOf(call)];
        return true;
      }
      ok := RegisterCommandNow(CommandOf(call));
    }

    // The queue goes through the one registration path, oldest first.
    method FlushPendingCommands()
      requires SlotsHold() && table == []
      modifies `pending, `added, `table, slots
      ensures SlotsHold() && pending == [] && table == Capped(old(pending))
    {
      for i := 0 to |pending|
        invariant SlotsHold() && pending == old(pending) && table == Capped(pending[..i])
      {
        var _ := RegisterCommandNow(pending[i]);
      }
      assert pending[..|pending|] == pending;
      pending := [];
    }

    // Init: `armed` says whether everything it needs was found.  A failure drops the queue; a success
    // flushes it, and in dev mode the engine's own command is registered after that, like any other.
    method Init(armed: bool, dev: bool) returns (ok: bool)
      requires Valid()
      modifies this, slots
      ensures Valid() && ok == ready && ready == (old(ready) || armed)
      ensures ok ==> calls == (if dev && !old(ready) then old(calls) + [VERIFY_ALL] else old(calls))
      ensures ok ==> table == Capped(Distinct(calls))
      ensures !ok ==> pending == [] && table == [] && calls == []
    {
      if ready { return true; }
      if !armed {
        pending, calls := [], [];
        return false;
      }
      ready := true;
      FlushPendingCommands();
      if dev {
        var _ := RegisterCommand(VERIFY_ALL);
      }
      return true;
    }
  }

  // A name is in the table or the queue if it was called, and if it was called and is in neither, the
  // table is full.
  lemma TakenMeansKnown(calls: seq<Call>, name: string, table: seq<Command>, pending: seq<Command>)
    requires (table == [] && pending == Distinct(calls)) || (pending == [] && table == Capped(Distinct(calls)))
    ensures Has(table + pending, name) ==> Has(Distinct(calls), name)
    ensures Has(Distinct(calls), name) && !Has(table + pending, name) ==> |table| == MAX_COMMANDS
  {
    var cs := Distinct(calls);
    assert table + pending == cs || table + pending == Capped(cs);
    if Has(table + pending, name) {
      var k :| 0 <= k < |table + pending| && (table + pending)[k].name == name;
      assert cs[k] == (table + pending)[k];
    }
  }

  // Names are unique across the slots and the queue at every step.
  lemma NamesStayUnique(console: Console)
    requires console.Valid()
    ensures UniqueNames(console.table + console.pending)
  {
    DistinctIsUnique(console.calls);
  }

  // The calls of a session in the order they count in: the engine's own comes when the console does.
  function AllCalls(calls: seq<Call>, early: nat, dev: bool): seq<Call>
    requires early <= |calls|
  {
    calls[..early] + (if dev then [VERIFY_ALL] else []) + calls[early..]
  }

  // Deferred equals immediate: whatever the calls, and however many of them come before the console
  // is up, the table and the engine end up with the first distinct well-formed names in call order.
  // Out of dev mode that order is the plugins' own; in dev mode the engine's command counts where the
  // console came up.
  method Session(calls: seq<Call>, early: nat, dev: bool) returns (console: Console)
    requires early <= |calls|
    ensures fresh(console) && fresh(console.slots) && console.Valid() && console.ready
    ensures console.calls == AllCalls(calls, early, dev)
    ensures var commands := Capped(Distinct(AllCalls(calls, early, dev)));
            console.table == commands && console.added == NamesOf(commands)
    ensures !dev ==> console.table == Capped(Distinct(calls)) && console.added == NamesOf(Capped(Distinct(calls)))
  {
    hide Distinct, Capped;
    SessionCalls(calls, early, dev);
    console := new Console();
    Register(console, calls, 0, early);
    var _ := console.Init(true, dev);
    Register(console, calls, early, |calls|);
  }

  lemma SessionCalls(calls: seq<Call>, early: nat, dev: bool)
    requires early <= |calls|
    ensures var before := [] + calls[0..early];
            (if dev then before + [VERIFY_ALL] else before) + calls[early..|calls|] == AllCalls(calls, early, dev)
    ensures !dev ==> AllCalls(calls, early, dev) == calls
  {
    assert [] + calls[0..early] == calls[..early] && calls[early..|calls|] == calls[early..];
    if !dev { assert calls[..early] + [] + calls[early..] == calls; }
  }

  // Some of the calls, one after the other.
  method Register(console: Console, calls: seq<Call>, from: nat, to: nat)
    requires console.Valid() && from <= to <= |calls|
    modifies console, console.slots
    ensures console.Valid() && console.ready == old(console.ready) &&
            console.calls == old(console.calls) + calls[from..to]
  {
    for i := from to to
      invariant console.Valid() && console.ready == old(console.ready)
      invariant console.calls == old(console.calls) + calls[from..i]
    {
      assert calls[from..i + 1] == calls[from..i] + [calls[i]];
      var _ := console.RegisterCommand(calls[i]);
    }
  }

  // ---- What the engine's command takes from the plugins ----------------------

  // Commands other than the engine's name.
  function Plugins(cs: seq<Command>): (r: seq<Command>)
    ensures forall c :: c in r <==> c in cs && c.name != VERIFY_ALL.name.value
  {
    if cs == [] then [] else
    var n := |cs| - 1;
    Plugins(cs[..n]) + if cs[n].name != VERIFY_ALL.name.value then [cs[n]] else []
  }

  // What has a name keeps it: later calls only add to the distinct names.
  lemma {:induction false} DistinctGrows(calls: seq<Call>, more: seq<Call>)
    ensures Distinct(calls) <= Distinct(calls + more)
    decreases |more|
  {
    if more == [] {
      assert calls + more == calls;
    } else {
      var n := |more| - 1;
      DistinctGrows(calls, more[..n]);
      assert calls + more == (calls + more[..n]) + [more[n]];
      DistinctSnoc(calls + more[..n], more[n]);
    }
  }

  // With the engine's command in between, the plugins' names are the same in the same order.
  lemma {:induction false} PluginsAsBefore(calls: seq<Call>, more: seq<Call>)
    ensures Plugins(Distinct(calls + [VERIFY_ALL] + more)) == Plugins(Distinct(calls + more))
    decreases |more|
  {
    hide Has, Distinct, Plugins;
    if more == [] {
      assert calls + [VERIFY_ALL] + more == calls + [VERIFY_ALL] && calls + more == calls;
      DistinctSnoc(calls, VERIFY_ALL);
      PluginsSnoc(Distinct(calls), CommandOf(VERIFY_ALL));
    } else {
      var n := |more| - 1; var c := more[n];
      PluginsAsBefore(calls, more[..n]);
      var a, b := calls + [VERIFY_ALL] + more[..n], calls + more[..n];
      assert calls + [VERIFY_ALL] + more == a + [c] && calls + more == b + [c];
      OneMoreCall(a, b, c);
    }
  }

  lemma OneMoreCall(a: seq<Call>, b: seq<Call>, c: Call)
    requires Plugins(Distinct(a)) == Plugins(Distinct(b))
    ensures Plugins(Distinct(a + [c])) == Plugins(Distinct(b + [c]))
  {
    hide Has, Distinct, Plugins;
    DistinctSnoc(a, c);
    DistinctSnoc(b, c);
    if WellFormed(c) {
      PluginsSnoc(Distinct(a), CommandOf(c));
      PluginsSnoc(Distinct(b), CommandOf(c));
      if c.name.value != VERIFY_ALL.name.value {
        HasInPlugins(Distinct(a), c.name.value);
        HasInPlugins(Distinct(b), c.name.value);
      }
    }
  }

  lemma PluginsSnoc(cs: seq<Command>, c: Command)
    ensures Plugins(cs + [c]) == Plugins(cs) + if c.name != VERIFY_ALL.name.value then [c] else []
  {
    assert (cs + [c])[..|cs|] == cs;
  }

  lemma HasInPlugins(cs: seq<Command>, name: string)
    requires name != VERIFY_ALL.name.value
    ensures Has(cs, name) <==> Has(Plugins(cs), name)
  {
    if i :| 0 <= i < |cs| && cs[i].name == name {
      assert cs[i] in Plugins(cs);
    }
    if i :| 0 <= i < |Plugins(cs)| && Plugins(cs)[i].name == name {
      assert Plugins(cs)[i] in cs;
    }
  }

  lemma {:induction false} PluginsOfPrefix(cs: seq<Command>, k: nat)
    requires UniqueNames(cs) && k <= |cs|
    ensures Plugins(cs[..k]) <= Plugins(cs)
    ensures |Plugins(cs[..k])| == k - if Has(cs[..k], VERIFY_ALL.name.value) then 1 else 0
    decreases |cs|
  {
    if cs == [] {
    } else if k < |cs| {
      assert cs[..|cs| - 1][..k] == cs[..k];
      PluginsOfPrefix(cs[..|cs| - 1], k);
    } else {
      var n := |cs| - 1;
      assert cs[..k] == cs && cs[..n] + [cs[n]] == cs && cs[..n][..n] == cs[..n];
      PluginsOfPrefix(cs[..n], n);
      HasSnoc(cs[..n], cs[n], VERIFY_ALL.name.value);
      if Has(cs[..n], VERIFY_ALL.name.value) {
        var i :| 0 <= i < n && cs[..n][i].name == VERIFY_ALL.name.value;
        assert cs[i].name != cs[n].name;
      }
    }
  }

  lemma CappedPlugins(cs: seq<Command>)
    requires UniqueNames(cs)
    ensures Plugins(Capped(cs)) <= Plugins(cs)
    ensures |Plugins(Capped(cs))| == |Capped(cs)| - if Has(Capped(cs), VERIFY_ALL.name.value) then 1 else 0
    ensures |Plugins(cs)| == |cs| - if Has(cs, VERIFY_ALL.name.value) then 1 else 0
    ensures |Capped(cs)| == if |cs| <= MAX_COMMANDS then |cs| else MAX_COMMANDS
  {
    hide Has, UniqueNames;
    PluginsOfPrefix(cs, |Capped(cs)|);
    PluginsOfPrefix(cs, |cs|);
    assert cs[..|cs|] == cs && cs[..|Capped(cs)|] == Capped(cs);
  }

  // Where a name stands that is not among the first ones.
  lemma HasBeyond(first: seq<Command>, cs: seq<Command>, k: nat, name: string)
    requires first <= cs && k <= |cs| && Has(first, name) && UniqueNames(cs)
    ensures Has(cs[..k], name) || k < |first|
  {
    var i :| 0 <= i < |first| && first[i].name == name;
    if |first| <= k { assert cs[..k][i].name == name; }
  }

  // A name that is new at the end of `first` is at that place.
  lemma HasAt(first: seq<Command>, c: Command, cs: seq<Command>, k: nat)
    requires first + [c] <= cs && k <= |cs| && UniqueNames(cs)
    ensures Has(cs[..k], c.name) <==> |first| < k
  {
    assert cs[|first|] == c;
    if |first| < k { assert cs[..k][|first|].name == c.name; }
    if i :| 0 <= i < k && cs[..k][i].name == c.name {
      assert cs[i].name == c.name;
    }
  }

  // In dev mode the plugins keep all they would have without it if and only if the engine's command
  // comes when the table is full already, or they leave a slot free, or one of them has that name in
  // the table anyway.  Otherwise they lose the last of their commands, whichever that is.
  lemma EngineCommandTakesASlot(calls: seq<Call>, early: nat)
    requires early <= |calls|
    ensures var without := Distinct(calls); var with := Distinct(AllCalls(calls, early, true));
            (Plugins(Capped(with)) == Plugins(Capped(without)) <==>
               |Distinct(calls[..early])| >= MAX_COMMANDS || |without| < MAX_COMMANDS ||
               Has(Capped(without), VERIFY_ALL.name.value)) &&
            Plugins(Capped(with)) <= Plugins(Capped(without)) &&
            |Plugins(Capped(without))| <= |Plugins(Capped(with))| + 1
  {
    hide Has, UniqueNames, Distinct, Plugins;
    var first, rest := calls[..early], calls[early..];
    assert first + rest == calls;
    var without, with := Distinct(calls), Distinct(AllCalls(calls, early, true));
    PluginsAsBefore(first, rest);
    DistinctGrows(first, rest);
    DistinctGrows(first + [VERIFY_ALL], rest);
    DistinctSnoc(first, VERIFY_ALL);
    DistinctIsUnique(calls);
    DistinctIsUnique(AllCalls(calls, early, true));
    SlotTaken(Distinct(first), without, with);
  }

  // The same of the three lists of distinct commands: those known when the console came up, and all
  // of them without and with the engine's.
  lemma SlotTaken(first: seq<Command>, without: seq<Command>, with: seq<Command>)
    requires UniqueNames(without) && UniqueNames(with) && Plugins(with) == Plugins(without)
    requires first <= without && first <= with
    requires Has(first, VERIFY_ALL.name.value) || first + [CommandOf(VERIFY_ALL)] <= with
    ensures Plugins(Capped(with)) == Plugins(Capped(without)) <==>
              |first| >= MAX_COMMANDS || |without| < MAX_COMMANDS || Has(Capped(without), VERIFY_ALL.name.value)
    ensures Plugins(Capped(with)) <= Plugins(Capped(without))
    ensures |Plugins(Capped(without))| <= |Plugins(Capped(with))| + 1
  {
    hide Has, UniqueNames, Plugins, Capped;
    HasPrefix(without, VERIFY_ALL.name.value);
    if |first| >= MAX_COMMANDS {
      FullAlready(first, without);
      FullAlready(first, with);
    } else {
      CappedPlugins(without);
      CappedPlugins(with);
      EngineCommandIsIn(first, without, with);
      Prefixes(Plugins(Capped(with)), Plugins(Capped(without)), Plugins(with));
    }
  }

  lemma FullAlready(first: seq<Command>, cs: seq<Command>)
    requires first <= cs && |first| >= MAX_COMMANDS
    ensures Capped(cs) == first[..MAX_COMMANDS]
  {}

  lemma Prefixes<T>(a: seq<T>, b: seq<T>, whole: seq<T>)
    requires a <= whole && b <= whole && |a| <= |b|
    ensures a <= b && (a == b <==> |a| == |b|)
  {}

  lemma EngineCommandIsIn(first: seq<Command>, without: seq<Command>, with: seq<Command>)
    requires UniqueNames(without) && UniqueNames(with) && first <= without && first <= with && |first| < MAX_COMMANDS
    requires Has(first, VERIFY_ALL.name.value) || first + [CommandOf(VERIFY_ALL)] <= with
    ensures Has(Capped(with), VERIFY_ALL.name.value) && Has(with, VERIFY_ALL.name.value)
    ensures Has(first, VERIFY_ALL.name.value) ==> Has(Capped(without), VERIFY_ALL.name.value)
  {
    hide Has, UniqueNames;
    var name := VERIFY_ALL.name.value;
    assert Capped(without) == without[..|Capped(without)|] && Capped(with) == with[..|Capped(with)|];
    if Has(first, name) {
      HasBeyond(first, without, |Capped(without)|, name);
      HasBeyond(first, with, |Capped(with)|, name);
    } else {
      HasAt(first, CommandOf(VERIFY_ALL), with, |Capped(with)|);
    }
    HasPrefix(with, name);
  }

  lemma HasPrefix(cs: seq<Command>, name: string)
    ensures Has(Capped(cs), name) ==> Has(cs, name)
    ensures |cs| <= MAX_COMMANDS ==> Capped(cs) == cs
  {
    if k :| 0 <= k < |Capped(cs)| && Capped(cs)[k].name == name {
      assert cs[k] == Capped(cs)[k];
    }
  }

  // The answers differ in one case only: a new name that comes when as many are known as there are
  // slots is accepted by a console that is down and refused by one that is up.  Both have seen the
  // same calls.
  method AnswersDifferOnlyBeyondTheTable(down: Console, up: Console, call: Call)
    returns (deferred: bool, immediate: bool)
    requires down != up && down.slots != up.slots && down.Valid() && up.Valid() && !down.ready && up.ready
    requires down.calls == up.calls
    modifies down, down.slots, up, up.slots
    ensures deferred != immediate <==>
              WellFormed(call) && !Has(Distinct(old(down.calls)), call.name.value) &&
              |Distinct(old(down.calls))| >= MAX_COMMANDS
    ensures deferred != immediate ==> deferred
    ensures down.Valid() && up.Valid() && down.calls == up.calls == old(down.calls) + [call]
  {
    ghost var known := Distinct(down.calls);
    if WellFormed(call) { HasPrefix(known, call.name.value); }
    assert down.table + down.pending == known && up.table + up.pending == Capped(known);
    deferred := down.RegisterCommand(call);
    immediate := up.RegisterCommand(call);
  }

  // ---- A table that is full --------------------------------------------------

  // The i-th plugin command, and the first n of them.
  function NumberedName(i: nat): (r: string)
    ensures |r| == i + 1 && r[0] == 'c'
  {
    if i == 0 then "c" else NumberedName(i - 1) + "c"
  }

  function Numbered(n: nat): (r: seq<Call>)
    ensures |r| == n && forall i :: 0 <= i < n ==> r[i] == Call(0, Some(NumberedName(i)), "", true)
  {
    if n == 0 then [] else Numbered(n - 1) + [Call(0, Some(NumberedName(n - 1)), "", true)]
  }

  lemma {:induction false} NumberedDistinct(n: nat)
    ensures |Distinct(Numbered(n))| == n
    ensures forall i :: 0 <= i < n ==> Distinct(Numbered(n))[i].name == NumberedName(i)
    decreases n
  {
    hide Distinct, Has;
    if n == 0 {
      NothingDistinct([]);
    } else {
      NumberedDistinct(n - 1);
      NewNumber(Distinct(Numbered(n - 1)));
      DistinctSnoc(Numbered(n - 1), Call(0, Some(NumberedName(n - 1)), "", true));
    }
  }

  lemma NewNumber(cs: seq<Command>)
    requires forall i :: 0 <= i < |cs| ==> cs[i].name == NumberedName(i)
    ensures !Has(cs, NumberedName(|cs|))
  {
    forall i | 0 <= i < |cs| ensures cs[i].name != NumberedName(|cs|) {
      assert |cs[i].name| == i + 1;
    }
  }

  // As many commands as there are slots, then one more: it is accepted while the console is down, and
  // refused once it is up.
  method OneTooMany() returns (deferred: bool, immediate: bool)
    ensures deferred && !immediate
  {
    hide Distinct, Has, Capped;
    var calls := Numbered(MAX_COMMANDS);
    var call := Call(0, Some(NumberedName(MAX_COMMANDS)), "", true);
    NumberedDistinct(MAX_COMMANDS);
    NewNumber(Distinct(calls));
    var down := new Console();
    Register(down, calls, 0, |calls|);
    var up := Session(calls, 0, false);
    AllOfThem(calls);
    deferred, immediate := AnswersDifferOnlyBeyondTheTable(down, up, call);
  }

  lemma AllOfThem(calls: seq<Call>)
    ensures [] + calls[0..|calls|] == calls && AllCalls(calls, 0, false) == calls
  {}

  // The same commands in dev mode, with the console up from the start: the last of them is lost.
  lemma EngineCommandTakesTheLast()
    ensures var calls := Numbered(MAX_COMMANDS);
            Plugins(Capped(Distinct(AllCalls(calls, 0, true)))) != Plugins(Capped(Distinct(calls)))
  {
    hide Plugins, Distinct, Capped;
    var calls := Numbered(MAX_COMMANDS);
    NumberedDistinct(MAX_COMMANDS);
    EngineCommandTakesASlot(calls, 0);
    NothingDistinct(calls);
    if Has(Capped(Distinct(calls)), VERIFY_ALL.name.value) {
      HasPrefix(Distinct(calls), VERIFY_ALL.name.value);
      NotAmongNumbered(MAX_COMMANDS);
    }
  }

  lemma NothingDistinct(calls: seq<Call>)
    ensures Distinct(calls[..0]) == []
  {}

  lemma NotAmongNumbered(n: nat)
    ensures !Has(Distinct(Numbered(n)), VERIFY_ALL.name.value)
  {
    hide Distinct;
    NumberedDistinct(n);
    var cs := Distinct(Numbered(n));
    forall i | 0 <= i < |cs| ensures cs[i].name != VERIFY_ALL.name.value {
      assert cs[i].name[0] == 'c';
    }
  }
}
