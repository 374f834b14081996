/**
 Values built on the VM and values built off the main thread.  The same builder calls either work
 on live tables or append to a plain description, whose array and field entries are kept in two
 lists and replayed later; the outcome is the same value.
 */
module StagedValues {
  import opened Options

  // A scalar, by its builder and argument: both paths push it with the same conversion.
  datatype Scalar = Bool(b: bool) | Int64(i: int) | Double(bits: int) | Text(s: string) | Callable(fn: int, ctx: int)

  datatype Key = At(index: int) | Field(name: string)

  predicate InInt(i: int) {
    -0x8000_0000 <= i < 0x8000_0000
  }

  predicate SameIndex(i: int, j: int) {
    (i - j) % 0x1_0000_0000 == 0
  }

  // static_cast<int> of a 64-bit index.
  function ToInt(i: int): (r: int)
    ensures InInt(r) && SameIndex(r, i) && (InInt(i) ==> r == i)
  {
    var u := i % 0x1_0000_0000;
    if u >= 0x8000_0000 then u - 0x1_0000_0000 else u
  }

  // An int is the index that every 64-bit number with the same low half becomes.
  lemma CastIs(i: int, j: int)
    requires InInt(j)
    ensures ToInt(i) == j <==> SameIndex(i, j)
  {
    if SameIndex(i, j) {
      SumOfMultiples(ToInt(i) - i, i - j);
      SmallMultiple(ToInt(i) - j);
    }
    if ToInt(i) == j { NegatedMultiple(ToInt(i) - i); }
  }

  lemma SumOfMultiples(a: int, b: int)
    requires a % 0x1_0000_0000 == 0 && b % 0x1_0000_0000 == 0
    ensures (a + b) % 0x1_0000_0000 == 0
  {}

  lemma NegatedMultiple(a: int)
    requires a % 0x1_0000_0000 == 0
    ensures (-a) % 0x1_0000_0000 == 0
  {}

  lemma SmallMultiple(d: int)
    requires d % 0x1_0000_0000 == 0 && -0x1_0000_0000 < d < 0x1_0000_0000
    ensures d == 0
  {}

  // A value as its reader sees it: a finite tree.
  datatype Tree = Leaf(s: Scalar) | Node(entries: map<Key, Tree>)

  // The plain description of a value.
  datatype Staged = Plain(s: Scalar) | Table(arr: seq<ArrayEntry>, fields: seq<FieldEntry>)

  datatype ArrayEntry = ArrayEntry(index: int, child: Staged)

  datatype FieldEntry = FieldEntry(name: string, child: Staged)

  // ---- What a description stands for -----------------------------------------

  function TreeOf(sv: Staged): Tree
    decreases sv
  {
    match sv
    case Plain(s) => Leaf(s)
    case Table(arr, fields) => Node(ArrayPart(arr) + FieldPart(fields))
  }

  function ArrayPart(arr: seq<ArrayEntry>): map<Key, Tree>
    decreases arr
  {
    if arr == [] then map[] else
    var n := |arr| - 1;
    var e := arr[n];
    assert e.child < e;
    ArrayPart(arr[..n])[At(ToInt(e.index)) := TreeOf(e.child)]
  }

  function FieldPart(fields: seq<FieldEntry>): map<Key, Tree>
    decreases fields
  {
    if fields == [] then map[] else
    var n := |fields| - 1;
    var e := fields[n];
    FieldPart(fields[..n])[Field(e.name) := TreeOf(e.child)]
  }

  lemma {:induction false} PartKeys(arr: seq<ArrayEntry>, fields: seq<FieldEntry>)
    ensures forall k :: k in ArrayPart(arr) ==> k.At?
    ensures forall k :: k in FieldPart(fields) ==> k.Field?
    decreases |arr| + |fields|
  {
    if arr != [] { PartKeys(arr[..|arr| - 1], fields); }
    if fields != [] { PartKeys(arr, fields[..|fields| - 1]); }
  }

  // Two lists hold what one map would: an entry of either kind can be put in at any time.
  lemma AppendArray(arr: seq<ArrayEntry>, fields: seq<FieldEntry>, i: int, child: Staged)
    ensures TreeOf(Table(arr + [ArrayEntry(i, child)], fields)) ==
            Node(TreeOf(Table(arr, fields)).entries[At(ToInt(i)) := TreeOf(child)])
  {
    PartKeys(arr, fields);
    assert (arr + [ArrayEntry(i, child)])[..|arr|] == arr;
  }

  lemma AppendField(arr: seq<ArrayEntry>, fields: seq<FieldEntry>, key: string, child: Staged)
    ensures TreeOf(Table(arr, fields + [FieldEntry(key, child)])) ==
            Node(TreeOf(Table(arr, fields)).entries[Field(key) := TreeOf(child)])
  {
    PartKeys(arr, fields);
    assert (fields + [FieldEntry(key, child)])[..|fields|] == fields;
  }

  // Entry k is the last array entry, or field entry, of its key.
  ghost predicate LastIndex(arr: seq<ArrayEntry>, k: int, j: int) {
    0 <= k < |arr| && SameIndex(arr[k].index, j) && forall m :: k < m < |arr| ==> !SameIndex(arr[m].index, j)
  }

  ghost predicate LastField(fields: seq<FieldEntry>, k: int, name: string) {
    0 <= k < |fields| && fields[k].name == name && forall m :: k < m < |fields| ==> fields[m].name != name
  }

  lemma {:induction false} ArrayReads(arr: seq<ArrayEntry>, j: int)
    requires InInt(j)
    ensures At(j) in ArrayPart(arr) <==> exists k :: LastIndex(arr, k, j)
    ensures forall k :: LastIndex(arr, k, j) ==> ArrayPart(arr)[At(j)] == TreeOf(arr[k].child)
    decreases |arr|
  {
    hide ToInt, SameIndex, InInt, TreeOf;
    if arr != [] {
      var n := |arr| - 1;
      CastIs(arr[n].index, j);
      ArrayReads(arr[..n], j);
      assert ToInt(arr[n].index) == j <==> SameIndex(arr[n].index, j);
      if SameIndex(arr[n].index, j) {
        assert LastIndex(arr, n, j);
      } else {
        assert forall k :: LastIndex(arr, k, j) <==> LastIndex(arr[..n], k, j);
      }
    }
  }

  lemma {:induction false} FieldsRead(fields: seq<FieldEntry>, name: string)
    ensures Field(name) in FieldPart(fields) <==> exists k :: LastField(fields, k, name)
    ensures forall k :: LastField(fields, k, name) ==> FieldPart(fields)[Field(name)] == TreeOf(fields[k].child)
    decreases |fields|
  {
    hide TreeOf;
    if fields != [] {
      var n := |fields| - 1;
      FieldsRead(fields[..n], name);
      if fields[n].name == name {
        assert LastField(fields, n, name);
      } else {
        assert forall k :: LastField(fields, k, name) <==> LastField(fields[..n], k, name);
      }
    }
  }

  // What a described table reads at an index or a name is what was put there last: nothing if nothing
  // was.  Indices are the same when they agree modulo 2^32, and a key outside the int range is never there.
  lemma TableReads(arr: seq<ArrayEntry>, fields: seq<FieldEntry>, j: int, name: string)
    ensures var entries := TreeOf(Table(arr, fields)).entries;
            (At(j) in entries <==> InInt(j) && exists k :: LastIndex(arr, k, j)) &&
            (forall k :: InInt(j) && LastIndex(arr, k, j) ==> entries[At(j)] == TreeOf(arr[k].child)) &&
            (Field(name) in entries <==> exists k :: LastField(fields, k, name)) &&
            (forall k :: LastField(fields, k, name) ==> entries[Field(name)] == TreeOf(fields[k].child))
  {
    hide InInt;
    PartKeys(arr, fields);
    FieldsRead(fields, name);
    if InInt(j) { ArrayReads(arr, j); } else { ArrayInInt(arr, j); }
  }

  lemma {:induction false} ArrayInInt(arr: seq<ArrayEntry>, j: int)
    requires !InInt(j)
    ensures At(j) !in ArrayPart(arr)
    decreases |arr|
  {
    if arr != [] { ArrayInInt(arr[..|arr| - 1], j); }
  }

  // ---- Live values -----------------------------------------------------------

  // A Lua value: tables have identity.
  datatype Val = Scalar(s: Scalar) | TableRef(id: nat)

  type Heap = map<nat, map<Key, Val>>

  // A tree with the identity of every table in it.
  datatype Shape = ShapeLeaf(s: Scalar) | ShapeNode(id: nat, entries: map<Key, Shape>)

  function Root(sh: Shape): Val {
    match sh
    case ShapeLeaf(s) => Scalar(s)
    case ShapeNode(id, _) => TableRef(id)
  }

  function Erase(sh: Shape): Tree {
    match sh
    case ShapeLeaf(s) => Leaf(s)
    case ShapeNode(_, entries) => Node(map k | k in entries :: Erase(entries[k]))
  }

  function Ids(sh: Shape): set<nat> {
    match sh
    case ShapeLeaf(_) => {}
    case ShapeNode(id, entries) => {id} + (set k, x | k in entries && x in Ids(entries[k]) :: x)
  }

  lemma ChildIds(sh: Shape, k: Key)
    requires sh.ShapeNode? && k in sh.entries
    ensures Ids(sh.entries[k]) <= Ids(sh) && sh.id in Ids(sh)
  {}

  // No table occurs twice.
  ghost predicate Distinct(sh: Shape) {
    match sh
    case ShapeLeaf(_) => true
    case ShapeNode(id, entries) =>
      (forall k :: k in entries ==> Distinct(entries[k]) && id !in Ids(entries[k])) &&
      (forall j, k :: j in entries && k in entries && j != k ==> Ids(entries[j]) !! Ids(entries[k]))
  }

  ghost predicate Matches(heap: Heap, sh: Shape) {
    match sh
    case ShapeLeaf(_) => true
    case ShapeNode(id, entries) =>
      id in heap && heap[id].Keys == entries.Keys &&
      forall k :: k in entries ==> heap[id][k] == Root(entries[k]) && Matches(heap, entries[k])
  }

  // The value v is, in this heap, the tree t: finite, and without sharing.
  ghost predicate Holds(heap: Heap, v: Val, t: Tree) {
    exists sh :: Root(sh) == v && Matches(heap, sh) && Distinct(sh) && Erase(sh) == t
  }

  // Tables outside the shape do not matter to it.
  lemma {:induction false} Framed(heap: Heap, heap': Heap, sh: Shape)
    requires Matches(heap, sh) && forall x :: x in Ids(sh) && x in heap ==> x in heap' && heap'[x] == heap[x]
    ensures Matches(heap', sh)
    decreases sh
  {
    if sh.ShapeNode? {
      assert sh.id in Ids(sh);
      forall k | k in sh.entries ensures Matches(heap', sh.entries[k]) {
        ChildIds(sh, k);
        Framed(heap, heap', sh.entries[k]);
      }
    }
  }

  lemma {:induction false} IdsLive(heap: Heap, sh: Shape)
    requires Matches(heap, sh)
    ensures Ids(sh) <= heap.Keys
    decreases sh
  {
    if sh.ShapeNode? {
      forall x | x in Ids(sh) ensures x in heap {
        if x != sh.id {
          var k :| k in sh.entries && x in Ids(sh.entries[k]);
          IdsLive(heap, sh.entries[k]);
        }
      }
    }
  }

  // Putting one value into a table of another.
  function Insert(parent: Shape, key: Key, child: Shape): Shape
    requires parent.ShapeNode?
  {
    ShapeNode(parent.id, parent.entries[key := child])
  }

  function HeapSet(heap: Heap, id: nat, key: Key, v: Val): Heap
    requires id in heap
  {
    heap[id := heap[id][key := v]]
  }

  lemma InsertKeeps(heap: Heap, parent: Shape, key: Key, child: Shape)
    requires parent.ShapeNode? && Matches(heap, parent) && Distinct(parent) && Matches(heap, child) && Distinct(child)
    requires Ids(parent) !! Ids(child)
    ensures var heap' := HeapSet(heap, parent.id, key, Root(child)); var sh := Insert(parent, key, child);
            Matches(heap', sh) && Distinct(sh) && Ids(sh) <= Ids(parent) + Ids(child) &&
            Erase(sh) == Node(Erase(parent).entries[key := Erase(child)])
  {
    hide Matches, Distinct, Erase, Ids;
    InsertMatches(heap, parent, key, child);
    InsertDistinct(parent, key, child);
    InsertErases(parent, key, child);
  }

  lemma InsertErases(parent: Shape, key: Key, child: Shape)
    requires parent.ShapeNode?
    ensures Erase(Insert(parent, key, child)) == Node(Erase(parent).entries[key := Erase(child)])
  {}

  lemma InsertMatches(heap: Heap, parent: Shape, key: Key, child: Shape)
    requires parent.ShapeNode? && Matches(heap, parent) && Distinct(parent) && Matches(heap, child)
    requires Ids(parent) !! Ids(child)
    ensures Matches(HeapSet(heap, parent.id, key, Root(child)), Insert(parent, key, child))
  {
    hide Ids;
    var heap' := HeapSet(heap, parent.id, key, Root(child));
    var sh := Insert(parent, key, child);
    assert parent.id in Ids(parent) by { OwnId(parent); }
    forall k | k in sh.entries ensures Matches(heap', sh.entries[k]) && heap'[parent.id][k] == Root(sh.entries[k]) {
      if k == key { Framed(heap, heap', child); } else { Framed(heap, heap', parent.entries[k]); }
    }
    assert heap'[parent.id].Keys == sh.entries.Keys;
  }

  lemma OwnId(sh: Shape)
    requires sh.ShapeNode?
    ensures sh.id in Ids(sh)
  {}

  lemma InsertDistinct(parent: Shape, key: Key, child: Shape)
    requires parent.ShapeNode? && Distinct(parent) && Distinct(child) && Ids(parent) !! Ids(child)
    ensures Distinct(Insert(parent, key, child)) && Ids(Insert(parent, key, child)) <= Ids(parent) + Ids(child)
  {
    var sh := Insert(parent, key, child);
    forall k | k in parent.entries ensures Ids(parent.entries[k]) <= Ids(parent) {}
    forall j, k | j in sh.entries && k in sh.entries && j != k ensures Ids(sh.entries[j]) !! Ids(sh.entries[k]) {
      assert j != key ==> Ids(sh.entries[j]) <= Ids(parent);
      assert k != key ==> Ids(sh.entries[k]) <= Ids(parent);
    }
    assert parent.id in Ids(parent);
  }

  // ---- The builder calls -----------------------------------------------------

  datatype Call =
    | NewScalar(s: Scalar)
    | NewTable
    | SetIndex(table: nat, index: int, child: nat)
    | SetField(table: nat, key: string, child: nat)

  datatype Answer = Handle(h: nat) | Ok | TypeError | BadHandle

  // On the VM: the unconsumed built handles, and the tables.
  datatype Direct = Direct(heap: Heap, handles: map<nat, Val>, next: nat, nextTable: nat)

  // Off the main thread: the unconsumed staged handles.
  datatype Offline = Offline(handles: map<nat, Staged>, next: nat)

  function InsertDirect(d: Direct, table: nat, key: Key, child: nat): (Direct, Answer) {
    if table !in d.handles || !d.handles[table].TableRef? || d.handles[table].id !in d.heap then (d, TypeError)
    else if child !in d.handles then (d, BadHandle)
    else (d.(heap := HeapSet(d.heap, d.handles[table].id, key, d.handles[child]), handles := d.handles - {child}), Ok)
  }

  function StepDirect(d: Direct, c: Call): (Direct, Answer) {
    match c
    case NewScalar(s) => (d.(handles := d.handles[d.next := Scalar(s)], next := d.next + 1), Handle(d.next))
    case NewTable =>
      (d.(heap := d.heap[d.nextTable := map[]], handles := d.handles[d.next := TableRef(d.nextTable)],
          next := d.next + 1, nextTable := d.nextTable + 1), Handle(d.next))
    case SetIndex(table, index, child) => InsertDirect(d, table, At(ToInt(index)), child)
    case SetField(table, key, child) => InsertDirect(d, table, Field(key), child)
  }

  // A description moved into itself is gone with its handle.
  function StepStaged(z: Offline, c: Call): (Offline, Answer) {
    match c
    case NewScalar(s) => (z.(handles := z.handles[z.next := Plain(s)], next := z.next + 1), Handle(z.next))
    case NewTable => (z.(handles := z.handles[z.next := Table([], [])], next := z.next + 1), Handle(z.next))
    case SetIndex(table, index, child) =>
      if table !in z.handles || !z.handles[table].Table? then (z, TypeError)
      else if child !in z.handles then (z, BadHandle)
      else
        var sv := z.handles[table];
        (z.(handles := z.handles[table := sv.(arr := sv.arr + [ArrayEntry(index, z.handles[child])])] - {child}), Ok)
    case SetField(table, key, child) =>
      if table !in z.handles || !z.handles[table].Table? then (z, TypeError)
      else if child !in z.handles then (z, BadHandle)
      else
        var sv := z.handles[table];
        (z.(handles := z.handles[table := sv.(fields := sv.fields + [FieldEntry(key, z.handles[child])])] - {child}),
         Ok)
  }

  function RunDirect(d: Direct, calls: seq<Call>): (Direct, seq<Answer>)
    decreases |calls|
  {
    if calls == [] then (d, []) else
    var (d1, a) := StepDirect(d, calls[0]);
    var (d2, rest) := RunDirect(d1, calls[1..]);
    (d2, [a] + rest)
  }

  function RunStaged(z: Offline, calls: seq<Call>): (Offline, seq<Answer>)
    decreases |calls|
  {
    if calls == [] then (z, []) else
    var (z1, a) := StepStaged(z, calls[0]);
    var (z2, rest) := RunStaged(z1, calls[1..]);
    (z2, [a] + rest)
  }

  // ---- The two agree ---------------------------------------------------------

  // Handle by handle the live value is the described one, and no table belongs to two handles.
  ghost predicate Agree(d: Direct, z: Offline, shapes: map<nat, Shape>) {
    && d.handles.Keys == z.handles.Keys == shapes.Keys && d.next == z.next
    && (forall h :: h in shapes ==> h < d.next && Same(d, z, shapes[h], h))
    && (forall h, g :: h in shapes && g in shapes && h != g ==> Ids(shapes[h]) !! Ids(shapes[g]))
    && (forall i :: i in d.heap ==> i < d.nextTable)
  }

  ghost predicate Same(d: Direct, z: Offline, sh: Shape, h: nat) {
    h in d.handles && h in z.handles &&
    Root(sh) == d.handles[h] && Matches(d.heap, sh) && Distinct(sh) && Erase(sh) == TreeOf(z.handles[h])
  }

  lemma TableShape(d: Direct, z: Offline, sh: Shape, h: nat)
    requires Same(d, z, sh, h)
    ensures d.handles[h].TableRef? <==> z.handles[h].Table?
    ensures sh.ShapeNode? <==> z.handles[h].Table?
    ensures sh.ShapeNode? ==> sh.id in d.heap && d.handles[h] == TableRef(sh.id)
  {}

  lemma InsertAgrees(d: Direct, z: Offline, shapes: map<nat, Shape>, table: nat, key: Key, child: nat, z': Offline)
    returns (shapes': map<nat, Shape>)
    requires Agree(d, z, shapes) && table in z.handles && z.handles[table].Table? && child in z.handles
    requires z'.next == z.next && z'.handles.Keys == z.handles.Keys - {child}
    requires forall h :: h in z'.handles && h != table ==> z'.handles[h] == z.handles[h]
    requires table in z'.handles ==>
               TreeOf(z'.handles[table]) == Node(TreeOf(z.handles[table]).entries[key := TreeOf(z.handles[child])])
    ensures Agree(InsertDirect(d, table, key, child).0, z', shapes') && InsertDirect(d, table, key, child).1 == Ok
  {
    hide Same, Distinct, Matches, Erase, Ids, TreeOf;
    assert Same(d, z, shapes[table], table) && Same(d, z, shapes[child], child);
    TableShape(d, z, shapes[table], table);
    var d' := InsertDirect(d, table, key, child).0;
    var sh := Insert(shapes[table], key, shapes[child]);
    shapes' := shapes[table := sh] - {child};
    assert shapes'.Keys == shapes.Keys - {child};
    if table != child {
      TableGrows(d, z, shapes, table, key, child, z');
    }
    forall h | h in shapes' && h != table ensures Same(d', z', shapes'[h], h) {
      OtherStays(d, z, shapes, table, key, child, z', h);
    }
    assert forall h, g :: h in shapes' && g in shapes' && h != g ==> Ids(shapes'[h]) !! Ids(shapes'[g]) by {
      StillDisjoint(shapes, table, child, sh, shapes');
    }
  }

  // The grown table has the nodes of both, and the child's handle is gone.
  lemma StillDisjoint(shapes: map<nat, Shape>, table: nat, child: nat, sh: Shape, shapes': map<nat, Shape>)
    requires table in shapes && child in shapes && shapes' == shapes[table := sh] - {child}
    requires forall h, g :: h in shapes && g in shapes && h != g ==> Ids(shapes[h]) !! Ids(shapes[g])
    requires table != child ==> Ids(sh) <= Ids(shapes[table]) + Ids(shapes[child])
    ensures forall h, g :: h in shapes' && g in shapes' && h != g ==> Ids(shapes'[h]) !! Ids(shapes'[g])
  {
    hide Ids;
  }

  lemma TableGrows(d: Direct, z: Offline, shapes: map<nat, Shape>, table: nat, key: Key, child: nat, z': Offline)
    requires Agree(d, z, shapes) && table in z.handles && z.handles[table].Table? && child in z.handles &&
             table != child
    requires table in z'.handles &&
             TreeOf(z'.handles[table]) == Node(TreeOf(z.handles[table]).entries[key := TreeOf(z.handles[child])])
    ensures shapes[table].ShapeNode?
    ensures var sh := Insert(shapes[table], key, shapes[child]);
            Same(InsertDirect(d, table, key, child).0, z', sh, table) &&
            Ids(sh) <= Ids(shapes[table]) + Ids(shapes[child])
  {
    hide Distinct, Matches, Ids, TreeOf;
    assert Same(d, z, shapes[table], table) && Same(d, z, shapes[child], child);
    TableShape(d, z, shapes[table], table);
    InsertKeeps(d.heap, shapes[table], key, shapes[child]);
  }

  lemma OtherStays(d: Direct, z: Offline, shapes: map<nat, Shape>, table: nat, key: Key, child: nat, z': Offline,
                   h: nat)
    requires Agree(d, z, shapes) && table in z.handles && z.handles[table].Table? && child in z.handles
    requires h in shapes && h != table && h != child && h in z'.handles && z'.handles[h] == z.handles[h]
    ensures Same(InsertDirect(d, table, key, child).0, z', shapes[h], h)
  {
    hide Distinct, Matches, TreeOf;
    assert Same(d, z, shapes[table], table) && Same(d, z, shapes[child], child) && Same(d, z, shapes[h], h);
    TableShape(d, z, shapes[table], table);
    var d' := InsertDirect(d, table, key, child).0;
    assert shapes[table].id in Ids(shapes[table]);
    Framed(d.heap, d'.heap, shapes[h]);
  }

  lemma NewAgrees(d: Direct, z: Offline, shapes: map<nat, Shape>, c: Call) returns (shapes': map<nat, Shape>)
    requires Agree(d, z, shapes) && (c.NewScalar? || c.NewTable?)
    ensures Agree(StepDirect(d, c).0, StepStaged(z, c).0, shapes') && StepDirect(d, c).1 == StepStaged(z, c).1
  {
    hide Same, Matches, Distinct, TreeOf;
    var sh := if c.NewScalar? then ShapeLeaf(c.s) else ShapeNode(d.nextTable, map[]);
    shapes' := shapes[d.next := sh];
    var d', z' := StepDirect(d, c).0, StepStaged(z, c).0;
    forall h | h in shapes ensures Same(d', z', shapes[h], h) && Ids(sh) !! Ids(shapes[h]) {
      NewKeeps(d, z, c, shapes[h], h);
    }
    NewSame(d, z, c);
  }

  lemma NewKeeps(d: Direct, z: Offline, c: Call, sh: Shape, h: nat)
    requires Same(d, z, sh, h) && (c.NewScalar? || c.NewTable?) && h < d.next && d.next == z.next
    requires forall i :: i in d.heap ==> i < d.nextTable
    ensures Same(StepDirect(d, c).0, StepStaged(z, c).0, sh, h) && d.nextTable !in Ids(sh)
  {
    hide Matches, Distinct, TreeOf;
    IdsLive(d.heap, sh);
    Framed(d.heap, StepDirect(d, c).0.heap, sh);
  }

  lemma NewSame(d: Direct, z: Offline, c: Call)
    requires (c.NewScalar? || c.NewTable?) && d.next == z.next
    ensures var sh := if c.NewScalar? then ShapeLeaf(c.s) else ShapeNode(d.nextTable, map[]);
            Same(StepDirect(d, c).0, StepStaged(z, c).0, sh, d.next)
  {
    EmptyParts();
  }

  lemma EmptyParts()
    ensures TreeOf(Table([], [])) == Node(map[])
  {}

  lemma StepAgrees(d: Direct, z: Offline, shapes: map<nat, Shape>, c: Call) returns (shapes': map<nat, Shape>)
    requires Agree(d, z, shapes)
    ensures Agree(StepDirect(d, c).0, StepStaged(z, c).0, shapes') && StepDirect(d, c).1 == StepStaged(z, c).1
  {
    hide Agree, InsertDirect, TreeOf;
    match c {
      case NewScalar(_) => shapes' := NewAgrees(d, z, shapes, c);
      case NewTable => shapes' := NewAgrees(d, z, shapes, c);
      case SetIndex(table, index, child) =>
        if table in z.handles && z.handles[table].Table? && child in z.handles {
          AppendArray(z.handles[table].arr, z.handles[table].fields, index, z.handles[child]);
          shapes' := InsertAgrees(d, z, shapes, table, At(ToInt(index)), child, StepStaged(z, c).0);
        } else {
          Refused(d, z, shapes, table, At(ToInt(index)), child);
          shapes' := shapes;
        }
      case SetField(table, key, child) =>
        if table in z.handles && z.handles[table].Table? && child in z.handles {
          AppendField(z.handles[table].arr, z.handles[table].fields, key, z.handles[child]);
          shapes' := InsertAgrees(d, z, shapes, table, Field(key), child, StepStaged(z, c).0);
        } else {
          Refused(d, z, shapes, table, Field(key), child);
          shapes' := shapes;
        }
    }
  }

  lemma Refused(d: Direct, z: Offline, shapes: map<nat, Shape>, table: nat, key: Key, child: nat)
    requires Agree(d, z, shapes) && !(table in z.handles && z.handles[table].Table? && child in z.handles)
    ensures InsertDirect(d, table, key, child) ==
            (d, if table !in z.handles || !z.handles[table].Table? then TypeError else BadHandle)
  {
    hide Same;
    if table in z.handles {
      assert Same(d, z, shapes[table], table);
      TableShape(d, z, shapes[table], table);
    }
  }

  lemma {:induction false} RunsAgree(d: Direct, z: Offline, shapes: map<nat, Shape>, calls: seq<Call>)
    returns (shapes': map<nat, Shape>)
    requires Agree(d, z, shapes)
    ensures Agree(RunDirect(d, calls).0, RunStaged(z, calls).0, shapes') &&
            RunDirect(d, calls).1 == RunStaged(z, calls).1
    decreases |calls|
  {
    hide Agree, StepDirect, StepStaged;
    shapes' := shapes;
    if calls != [] {
      var shapes1 := StepAgrees(d, z, shapes, calls[0]);
      shapes' := RunsAgree(StepDirect(d, calls[0]).0, StepStaged(z, calls[0]).0, shapes1, calls[1..]);
    }
  }

  // For every series of builder calls: the answers are the same, the same handles are left, and what
  // a handle describes off the main thread is the value it has when the calls work on the VM.
  lemma StagedEqualsDirect(calls: seq<Call>)
    ensures var (d, a) := RunDirect(Direct(map[], map[], 1, 0), calls);
            var (z, b) := RunStaged(Offline(map[], 1), calls);
            a == b && d.handles.Keys == z.handles.Keys &&
            forall h :: h in z.handles ==> Holds(d.heap, d.handles[h], TreeOf(z.handles[h]))
  {
    hide RunDirect, RunStaged, TreeOf, Matches, Distinct, Erase;
    var shapes := RunsAgree(Direct(map[], map[], 1, 0), Offline(map[], 1), map[], calls);
    var d, z := RunDirect(Direct(map[], map[], 1, 0), calls).0, RunStaged(Offline(map[], 1), calls).0;
    forall h | h in z.handles ensures Holds(d.heap, d.handles[h], TreeOf(z.handles[h])) {
      assert Same(d, z, shapes[h], h);
    }
  }

  // What is refused and why, on either side: a table that is none, or a child that is no handle (any more).
  // A refusal changes nothing, and what is taken takes the child's handle.
  lemma InsertAnswers(d: Direct, z: Offline, c: Call)
    requires c.SetIndex? || c.SetField?
    ensures var (d', a) := StepDirect(d, c);
            (a.Ok? ==> c.child in d.handles && d'.handles == d.handles - {c.child}) && (!a.Ok? ==> d' == d) &&
            (a.TypeError? <==> !(exists id :: c.table in d.handles && d.handles[c.table] == TableRef(id) &&
                                              id in d.heap)) &&
            (!a.TypeError? ==> (a.BadHandle? <==> c.child !in d.handles)) && !a.Handle?
    ensures var (z', b) := StepStaged(z, c);
            (b.Ok? ==> c.child in z.handles && z'.handles.Keys == z.handles.Keys - {c.child}) && (!b.Ok? ==> z' == z) &&
            (b.TypeError? <==> !(c.table in z.handles && z.handles[c.table].Table?)) &&
            (!b.TypeError? ==> (b.BadHandle? <==> c.child !in z.handles)) && !b.Handle?
  {
    hide ToInt;
  }

  // Two children put in at two indices are both there, each under its own: on the VM as in the description.
  lemma TwoIndicesStay(d: Direct, z: Offline, table: nat, i: int, a: nat, j: int, b: nat)
    requires InInt(i) && InInt(j) && i != j && a != b && table != a && table != b
    requires table in d.handles && d.handles[table].TableRef? && d.handles[table].id in d.heap
    requires a in d.handles && b in d.handles
    requires table in z.handles && z.handles[table].Table? && a in z.handles && b in z.handles
    ensures var d' := StepDirect(StepDirect(d, SetIndex(table, i, a)).0, SetIndex(table, j, b)).0;
            var entries := d'.heap[d.handles[table].id];
            At(i) in entries && At(j) in entries && entries[At(i)] == d.handles[a] && entries[At(j)] == d.handles[b]
    ensures var z' := StepStaged(StepStaged(z, SetIndex(table, i, a)).0, SetIndex(table, j, b)).0;
            table in z'.handles && z'.handles[table].Table? &&
            var entries := TreeOf(z'.handles[table]).entries;
            At(i) in entries && At(j) in entries &&
            entries[At(i)] == TreeOf(z.handles[a]) && entries[At(j)] == TreeOf(z.handles[b])
  {
    hide TreeOf;
    var sv := z.handles[table];
    var e := ArrayEntry(i, z.handles[a]);
    AppendArray(sv.arr, sv.fields, i, z.handles[a]);
    AppendArray(sv.arr + [e], sv.fields, j, z.handles[b]);
  }

  // ---- Materializing ---------------------------------------------------------

  // A description whose callables can all be wrapped.
  predicate Builds(sv: Staged, wraps: (int, int) -> bool)
    decreases sv
  {
    match sv
    case Plain(s) => s.Callable? ==> wraps(s.fn, s.ctx)
    case Table(arr, fields) =>
      (forall i :: 0 <= i < |arr| ==> Builds(arr[i].child, wraps)) &&
      (forall i :: 0 <= i < |fields| ==> Builds(fields[i].child, wraps))
  }

  class Vm {
    var heap: Heap
    var refs: map<int, Val>     // the live registry slots
    var nextTable: nat

    ghost predicate Valid()
      reads this
    {
      forall i :: i in heap ==> i < nextTable
    }

    constructor ()
      ensures Valid() && heap == map[] && refs == map[]
    {
      heap, refs, nextTable := map[], map[], 0;
    }

    // Some id that is not in use: the allocator's choice.
    method Ref(v: Val) returns (r: int)
      modifies `refs
      ensures r > 0 && r !in old(refs) && refs == old(refs)[r := v]
    {
      r := 1;
      ghost var above := set k | k in refs && k >= r;
      while r in refs
        invariant r > 0 && above == set k | k in refs && k >= r
        decreases above
      {
        assert r in above;
        r := r + 1;
        above := set k | k in refs && k >= r;
      }
      refs := refs[r := v];
    }

    // A stack push of the value behind a reference, which is released.
    method Take(r: int) returns (v: Val)
      requires r in refs
      modifies `refs
      ensures v == old(refs)[r] && refs == old(refs) - {r}
    {
      v := refs[r];
      refs := refs - {r};
    }

    // The references after materializing are those before it and, on success, one more, which holds
    // a value that is the described tree in fresh tables; older tables are as they were.
    method MaterializeStaged(sv: Staged, wraps: (int, int) -> bool) returns (r: Option<int>, ghost sh: Shape)
      requires Valid()
      modifies this
      ensures Valid() && r.Some? == Builds(sv, wraps) && nextTable >= old(nextTable)
      ensures forall i :: i in old(heap) ==> i in heap && heap[i] == old(heap)[i]
      ensures r.None? ==> refs == old(refs)
      ensures r.Some? ==>
                r.value !in old(refs) && refs == old(refs)[r.value := Root(sh)] &&
                Matches(heap, sh) && Distinct(sh) && Erase(sh) == TreeOf(sv) &&
                (forall i :: i in Ids(sh) ==> i >= old(nextTable))
      decreases sv, 0
    {
      match sv
      case Plain(s) =>
        r, sh := MaterializeScalar(s, wraps);
      case Table(arr, fields) =>
        hide Builds, Matches, Distinct, Erase, Ids, TreeOf;
        var t := nextTable;
        nextTable := t + 1;
        heap := heap[t := map[]];
        sh := ShapeNode(t, map[]);
        BuildsParts(sv, wraps);
        var ok;
        ok, sh := ReplayArray(t, arr, wraps, sh);
        if !ok { return None, sh; }
        ok, sh := ReplayFields(t, arr, fields, wraps, sh);
        if !ok { return None, sh; }
        var id := Ref(TableRef(t));
        r := Some(id);
    }

    method MaterializeScalar(s: Scalar, wraps: (int, int) -> bool) returns (r: Option<int>, ghost sh: Shape)
      requires Valid()
      modifies this
      ensures Valid() && r.Some? == Builds(Plain(s), wraps) && heap == old(heap) && nextTable == old(nextTable)
      ensures r.None? ==> refs == old(refs)
      ensures sh == ShapeLeaf(s) && Matches(heap, sh) && Distinct(sh) && Erase(sh) == TreeOf(Plain(s)) && Ids(sh) == {}
      ensures r.Some? ==> r.value !in old(refs) && refs == old(refs)[r.value := Root(sh)]
    {
      sh := ShapeLeaf(s);
      if s.Callable? && !wraps(s.fn, s.ctx) { return None, sh; }
      var id := Ref(Scalar(s));
      r := Some(id);
    }

    // The array entries go in first, in the order of the calls.
    method ReplayArray(t: nat, arr: seq<ArrayEntry>, wraps: (int, int) -> bool, ghost empty: Shape)
      returns (ok: bool, ghost sh: Shape)
      requires Valid() && t in heap && empty == ShapeNode(t, map[]) && heap[t] == map[]
      modifies this
      ensures Valid() && nextTable >= old(nextTable) && refs == old(refs)
      ensures ok == forall i :: 0 <= i < |arr| ==> Builds(arr[i].child, wraps)
      ensures forall i :: i in old(heap) && i != t ==> i in heap && heap[i] == old(heap)[i]
      ensures ok ==>
                sh.ShapeNode? && sh.id == t && Matches(heap, sh) && Distinct(sh) &&
                Erase(sh) == Node(ArrayPart(arr)) && (forall i :: i in Ids(sh) ==> i == t || i >= old(nextTable))
      decreases arr, 2
    {
      hide Matches, Distinct, Erase, Ids, Builds;
      sh := empty;
      EmptyShape(heap, t);
      var i := 0;
      while i < |arr|
        invariant i <= |arr| && Valid() && nextTable >= old(nextTable) && refs == old(refs) && t in heap
        invariant forall k :: 0 <= k < i ==> Builds(arr[k].child, wraps)
        invariant forall k :: k in old(heap) && k != t ==> k in heap && heap[k] == old(heap)[k]
        invariant sh.ShapeNode? && sh.id == t && Matches(heap, sh) && Distinct(sh) &&
                  Erase(sh) == Node(ArrayPart(arr[..i]))
        invariant forall k :: k in Ids(sh) ==> k == t || k >= old(nextTable)
      {
        var e := arr[i];
        assert e.child < e;
        var done;
        done, sh := ReplayOne(t, At(ToInt(e.index)), e.child, wraps, sh);
        if !done { return false, sh; }
        assert arr[..i + 1][..i] == arr[..i];
        i := i + 1;
      }
      assert arr[..i] == arr;
      ok := true;
    }

    method ReplayFields(t: nat, ghost arr: seq<ArrayEntry>, fields: seq<FieldEntry>, wraps: (int, int) -> bool,
                        ghost before: Shape)
      returns (ok: bool, ghost sh: Shape)
      requires Valid() && t in heap && before.ShapeNode? && before.id == t && Matches(heap, before) && Distinct(before)
      requires Erase(before) == Node(ArrayPart(arr))
      modifies this
      ensures Valid() && nextTable >= old(nextTable) && refs == old(refs)
      ensures ok == forall i :: 0 <= i < |fields| ==> Builds(fields[i].child, wraps)
      ensures forall i :: i in old(heap) && i != t && i !in Ids(before) ==> i in heap && heap[i] == old(heap)[i]
      ensures ok ==>
                sh.ShapeNode? && sh.id == t && Matches(heap, sh) && Distinct(sh) &&
                Erase(sh) == TreeOf(Table(arr, fields)) &&
                (forall i :: i in Ids(sh) ==> i in Ids(before) || i == t || i >= old(nextTable))
      decreases fields, 2
    {
      hide Matches, Distinct, Erase, Ids, Builds, TreeOf;
      sh := before;
      NoFields(arr);
      var i := 0;
      assert fields[..0] == [];
      while i < |fields|
        invariant i <= |fields| && Valid() && nextTable >= old(nextTable) && refs == old(refs) && t in heap
        invariant forall k :: 0 <= k < i ==> Builds(fields[k].child, wraps)
        invariant forall k :: k in old(heap) && k != t && k !in Ids(before) ==> k in heap && heap[k] == old(heap)[k]
        invariant sh.ShapeNode? && sh.id == t && Matches(heap, sh) && Distinct(sh) &&
                  Erase(sh) == TreeOf(Table(arr, fields[..i]))
        invariant forall k :: k in Ids(sh) ==> k in Ids(before) || k == t || k >= old(nextTable)
      {
        var done;
        AppendField(arr, fields[..i], fields[i].name, fields[i].child);
        done, sh := ReplayOne(t, Field(fields[i].name), fields[i].child, wraps, sh);
        if !done { return false, sh; }
        assert fields[..i + 1] == fields[..i] + [fields[i]];
        i := i + 1;
      }
      assert fields[..i] == fields;
      ok := true;
    }

    // One entry: the child is materialized, its reference released again, and the value stored.
    method ReplayOne(t: nat, key: Key, child: Staged, wraps: (int, int) -> bool, ghost before: Shape)
      returns (ok: bool, ghost sh: Shape)
      requires Valid() && t in heap && before.ShapeNode? && before.id == t && Matches(heap, before) && Distinct(before)
      modifies this
      ensures Valid() && nextTable >= old(nextTable) && refs == old(refs) && ok == Builds(child, wraps) && t in heap
      ensures forall i :: i in old(heap) && i != t ==> i in heap && heap[i] == old(heap)[i]
      ensures ok ==> sh.ShapeNode? && sh.id == t && Matches(heap, sh) && Distinct(sh) &&
                     Erase(sh) == Node(Erase(before).entries[key := TreeOf(child)]) &&
                     (forall i :: i in Ids(sh) ==> i in Ids(before) || i >= old(nextTable))
      decreases child, 1
    {
      hide Matches, Distinct, Erase, Ids, Builds, TreeOf;
      sh := before;
      IdsLive(heap, before);
      var r, c := MaterializeStaged(child, wraps);
      if r.None? { return false, sh; }
      ghost var h := heap;
      Framed(old(heap), h, before);
      var v := Take(r.value);
      assert refs == old(refs);
      InsertKeeps(h, before, key, c);
      heap := heap[t := heap[t][key := v]];
      sh := Insert(before, key, c);
      ok := true;
    }

    lemma EmptyShape(heap: Heap, t: nat)
      requires t in heap && heap[t] == map[]
      ensures var sh := ShapeNode(t, map[]);
              Matches(heap, sh) && Distinct(sh) && Erase(sh) == Node(ArrayPart([])) && Ids(sh) == {t}
    {}

    lemma NoFields(arr: seq<ArrayEntry>)
      ensures TreeOf(Table(arr, [])) == Node(ArrayPart(arr))
    {
      assert ArrayPart(arr) + FieldPart([]) == ArrayPart(arr);
    }

    lemma BuildsParts(sv: Staged, wraps: (int, int) -> bool)
      requires sv.Table?
      ensures Builds(sv, wraps) <==>
                (forall i :: 0 <= i < |sv.arr| ==> Builds(sv.arr[i].child, wraps)) &&
                (forall i :: 0 <= i < |sv.fields| ==> Builds(sv.fields[i].child, wraps))
    {}
  }
}
