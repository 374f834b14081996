/** Common option type. */
module Options {
  datatype Option<+T> = None | Some(value: T)
}

/**
 The state of the behavior layer and its Lua-registry references.

 Every place that can hold a reference (a field of a behavior, of a value handle, of an
 in-flight toggle, or a C++ local) is a `Cell`.  A live registry slot remembers which cell
 holds its reference; `Ledger` says that this bookkeeping is exact, so that a live slot has
 one owner and a held reference is live.  All registry traffic goes through `Ref`, `Unref`
 and `Move`, and each of them keeps `Ledger`.
 */
module RefLedger {
  import opened Options

  const NO_REF := -2   // LUA_NOREF: the cell is empty
  const NIL_REF := -1  // LUA_REFNIL: what luaL_ref answers for nil; it owns no slot

  // A place that holds a Lua-registry reference: a field of a behavior, the `builtRef` of a
  // value handle, the new value of the toggle on stack frame `index`, or a C++ local.
  datatype Cell =
    | DefaultOf(name: string)
    | ImplOf(name: string)
    | RevertOf(name: string)
    | RecordOf(name: string)
    | HandleOf(id: nat)
    | FrameOf(index: nat)
    | Local(k: nat)

  // A Lua value, known by identity only; the functions are the objects with negative ids.
  datatype Value = Nil | Obj(id: int)

  predicate IsFunction(v: Value) {
    v.Obj? && v.id < 0
  }

  datatype Tier = Plugin | Engine

  datatype Behavior = Behavior(
    tier: Tier,
    applied: bool,
    setterAuthor: string,
    setterPlugin: string,
    declareSeq: nat,
    valueGeneration: nat)

  // `mintedValue` is history: the value the behavior had when the handle was minted.
  // A staged payload is named by the VM value it materializes to.
  datatype Handle =
    | BehaviorHandle(fullName: string, mintedGeneration: nat, mintedValue: Value)
    | BuiltHandle(consumed: bool)
    | StagedHandle(payload: Value, consumed: bool)

  datatype Edge = Edge(consumerAuthor: string, consumerPlugin: string, behaviorFullName: string)

  datatype QueuedSet = QueuedSet(name: string, author: string, plugin: string, payload: Value)

  // The value is the toggle's new value.
  datatype Stage = Reverting(value: Value) | Implementing(value: Value)

  // The C++/Lua call stack: user code sits on `Main` or `User`, the engine on the others.  A callback's
  // frame holds the cell its function was read from and the arguments it was called with.
  datatype Frame =
    | Main
    | Drain(invoked: set<string>, pass: seq<string>, calling: Option<string>, callingValue: Value, passNo: nat)
    | Toggle(name: string, stage: Stage, queuedBy: Option<Edge>)
    | Calling
    | User(transient: Option<nat>, fn: Cell, args: seq<Value>)

  // History of what declarer code was called with.
  datatype Entry =
    | ImplCalled(name: string, value: Value)
    | ImplReturned(name: string, value: Value)
    | RevertCalled(name: string, value: Value)
    | DrainCalled(name: string, value: Value, pass: nat)

  datatype Slot = Slot(value: Value, owner: Cell)

  datatype State = State(
    slots: map<int, Slot>,
    refTop: nat,             // no live id is above it
    fault: bool,             // a freed slot was read or released
    store: map<string, Behavior>,
    nextSeq: nat,
    boundaryDone: bool,
    handles: map<nat, Handle>,
    nextHandle: nat,
    edges: seq<Edge>,
    queue: seq<QueuedSet>,
    frames: seq<Frame>,
    refs: map<Cell, int>,    // what each cell holds; an absent cell is empty
    log: seq<Entry>)

  function Init(): State {
    State(map[], 0, false, map[], 0, false, map[], 1, [], [], [Main], map[], [])
  }

  // ---- Cells -----------------------------------------------------------------

  // The reference a cell holds.
  function RefAt(s: State, c: Cell): int {
    if c in s.refs then s.refs[c] else NO_REF
  }

  function Put(s: State, c: Cell, r: int): State {
    s.(refs := s.refs[c := r])
  }

  // lua_rawgeti on the registry.
  function Deref(s: State, r: int): Value {
    if r in s.slots then s.slots[r].value else Nil
  }

  function ValueAt(s: State, c: Cell): Value {
    Deref(s, RefAt(s, c))
  }

  // Reading through a positive reference whose slot is dead is the fault that must not happen.
  function Touch(s: State, r: int): State {
    if r >= 0 && r !in s.slots then s.(fault := true) else s
  }

  // ---- The allocator ---------------------------------------------------------

  // The id luaL_ref hands out.  Any id that is not live may come back, freed ones included:
  // the hint is the allocator's own choice, the top of the array its fallback.
  function FreshId(s: State, hint: int): int {
    if hint > 0 && hint !in s.slots then hint else s.refTop + 1
  }

  // luaL_ref(v) stored into cell c.
  function Ref(s: State, hint: int, v: Value, c: Cell): (t: State)
    ensures t.store == s.store && t.frames == s.frames && t.log == s.log && t.boundaryDone == s.boundaryDone
    ensures t.nextSeq == s.nextSeq && t.edges == s.edges && t.queue == s.queue
    ensures t.handles == s.handles && t.nextHandle == s.nextHandle
  {
    if v.Nil? then Put(s, c, NIL_REF) else
    var r := FreshId(s, hint);
    Put(s.(slots := s.slots[r := Slot(v, c)], refTop := if r > s.refTop then r else s.refTop), c, r)
  }

  // luaL_unref of the reference in cell c; the cell is emptied.
  function Unref(s: State, c: Cell): (t: State)
    ensures t.store == s.store && t.frames == s.frames && t.log == s.log && t.boundaryDone == s.boundaryDone
    ensures t.nextSeq == s.nextSeq && t.edges == s.edges && t.queue == s.queue
    ensures t.handles == s.handles && t.nextHandle == s.nextHandle
  {
    var r := RefAt(s, c);
    if r < 0 then Put(s, c, NO_REF)
    else if r in s.slots then Put(s.(slots := s.slots - {r}), c, NO_REF)
    else s.(fault := true)
  }

  // Ownership of a reference passes from cell c to cell d.
  function Move(s: State, c: Cell, d: Cell): (t: State)
    ensures t.store == s.store && t.frames == s.frames && t.log == s.log && t.boundaryDone == s.boundaryDone
    ensures t.nextSeq == s.nextSeq && t.edges == s.edges && t.queue == s.queue
    ensures t.handles == s.handles && t.nextHandle == s.nextHandle
  {
    var r := RefAt(s, c);
    var s1 := if r in s.slots then s.(slots := s.slots[r := s.slots[r].(owner := d)]) else s;
    Put(Put(s1, c, NO_REF), d, r)
  }

  // ---- The ledger ------------------------------------------------------------

  // Cells and slots match one to one: a slot is held by its owner, and a held reference is
  // positive exactly when its slot is live.
  ghost predicate Exact(refs: map<Cell, int>, slots: map<int, Slot>) {
    && (forall r :: r in slots ==> r > 0 && slots[r].owner in refs && refs[slots[r].owner] == r)
    && (forall c :: c in refs && refs[c] >= 0 ==> refs[c] in slots && slots[refs[c]].owner == c)
  }

  ghost predicate Ledger(s: State) {
    && !s.fault
    && Exact(s.refs, s.slots)
    && (forall r :: r in s.slots ==> r <= s.refTop && s.slots[r].value.Obj?)
  }

  // The cells in `cs` aside, both states hold the same references to the same values.
  ghost predicate SameBut(s: State, t: State, cs: set<Cell>) {
    forall d :: d !in cs ==> RefAt(t, d) == RefAt(s, d) && ValueAt(t, d) == ValueAt(s, d)
  }

  // Nothing but cells, slots and handles differs.
  predicate SameFrame(s: State, t: State) {
    && t.store == s.store && t.frames == s.frames && t.log == s.log && t.boundaryDone == s.boundaryDone
    && t.nextSeq == s.nextSeq && t.edges == s.edges && t.queue == s.queue
  }

  predicate SameHandles(s: State, t: State) {
    t.handles == s.handles && t.nextHandle == s.nextHandle
  }

  lemma ExactAfterRef(refs: map<Cell, int>, slots: map<int, Slot>, c: Cell, r: int, v: Value)
    requires Exact(refs, slots) && r > 0 && r !in slots && (c in refs ==> refs[c] < 0)
    ensures Exact(refs[c := r], slots[r := Slot(v, c)])
  {}

  lemma ExactAfterUnref(refs: map<Cell, int>, slots: map<int, Slot>, c: Cell)
    requires Exact(refs, slots) && c in refs && refs[c] >= 0
    ensures Exact(refs[c := NO_REF], slots - {refs[c]})
  {}

  lemma ExactAfterClear(refs: map<Cell, int>, slots: map<int, Slot>, c: Cell, r: int)
    requires Exact(refs, slots) && (c in refs ==> refs[c] < 0) && r < 0
    ensures Exact(refs[c := r], slots)
  {}

  // luaL_ref into an empty cell keeps the ledger: the new slot is owned by that cell alone.
  lemma RefKeepsLedger(s: State, hint: int, v: Value, c: Cell)
    requires Ledger(s) && RefAt(s, c) < 0
    ensures Ledger(Ref(s, hint, v, c))
    ensures SameBut(s, Ref(s, hint, v, c), {c}) && SameFrame(s, Ref(s, hint, v, c)) &&
            SameHandles(s, Ref(s, hint, v, c))
    ensures ValueAt(Ref(s, hint, v, c), c) == v
    ensures RefAt(Ref(s, hint, v, c), c) != NO_REF
    ensures RefAt(Ref(s, hint, v, c), c) == NIL_REF <==> v.Nil?
  {
    if v.Nil? {
      ExactAfterClear(s.refs, s.slots, c, NIL_REF);
    } else {
      ExactAfterRef(s.refs, s.slots, c, FreshId(s, hint), v);
    }
  }

  lemma UnrefKeepsLedger(s: State, c: Cell)
    requires Ledger(s)
    ensures Ledger(Unref(s, c))
    ensures SameBut(s, Unref(s, c), {c}) && SameFrame(s, Unref(s, c)) && SameHandles(s, Unref(s, c))
    ensures RefAt(Unref(s, c), c) == NO_REF
  {
    if RefAt(s, c) < 0 {
      ExactAfterClear(s.refs, s.slots, c, NO_REF);
    } else {
      ExactAfterUnref(s.refs, s.slots, c);
    }
  }

  lemma ExactAfterMove(refs: map<Cell, int>, slots: map<int, Slot>, c: Cell, d: Cell, r: int)
    requires Exact(refs, slots) && c != d && (d in refs ==> refs[d] < 0)
    requires r == (if c in refs then refs[c] else NO_REF)
    ensures r in slots <==> r >= 0
    ensures Exact(refs[c := NO_REF][d := r], if r in slots then slots[r := slots[r].(owner := d)] else slots)
  {
    if r >= 0 {
      ExactAfterUnref(refs, slots, c);
      ExactAfterRef(refs[c := NO_REF], slots - {r}, d, r, slots[r].value);
      assert (slots - {r})[r := Slot(slots[r].value, d)] == slots[r := slots[r].(owner := d)];
    }
  }

  lemma MoveKeepsLedger(s: State, c: Cell, d: Cell)
    requires Ledger(s) && c != d && RefAt(s, d) < 0
    ensures Ledger(Move(s, c, d))
    ensures RefAt(Move(s, c, d), c) == NO_REF
    ensures RefAt(Move(s, c, d), d) == RefAt(s, c)
    ensures ValueAt(Move(s, c, d), d) == ValueAt(s, c)
    ensures SameBut(s, Move(s, c, d), {c, d}) && SameFrame(s, Move(s, c, d)) && SameHandles(s, Move(s, c, d))
  {
    hide Exact;
    ExactAfterMove(s.refs, s.slots, c, d, RefAt(s, c));
  }

  // A step that touches no cell and no slot keeps the ledger.
  lemma SameCellsKeepsLedger(s: State, t: State)
    requires Ledger(s)
    requires t.slots == s.slots && t.refTop == s.refTop && t.fault == s.fault && t.refs == s.refs
    ensures Ledger(t) && SameBut(s, t, {})
  {}

  // Reading through a held cell does not fault.
  lemma TouchHeld(s: State, c: Cell)
    requires Ledger(s)
    ensures Touch(s, RefAt(s, c)) == s
  {}
}
