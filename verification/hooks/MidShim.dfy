/**
 The native half of Mid mode: capture slots of sixteen bytes become typed capture values, the
 callback runs on them, and what it left is written back.
 */
module MidShim {
  import opened Options
  import opened HookSignature

  const STRIDE := 16
  const CAP := 16

  // A float is an opaque word; so are the two conversions between its widths.  Nothing is asked of
  // them but the widths: there and back again need not give the same word (a signalling NaN comes
  // back as a quiet one).
  datatype Conversions = Conversions(widen: seq<Byte> -> seq<Byte>, narrow: seq<Byte> -> seq<Byte>) {
    ghost predicate Valid() {
      forall b: seq<Byte> :: (|b| == 4 ==> |widen(b)| == 8) && (|b| == 8 ==> |narrow(b)| == 4)
    }
  }

  datatype Capture = Capture(typeName: Option<string>, int64: seq<Byte>, double: seq<Byte>, ptr: seq<Byte>) {
    predicate Valid() { |int64| == 8 && |double| == 8 && |ptr| == 8 }
  }

  datatype Kind = Single | Double | Pointer | Truth | Integer(width: nat, sign: bool)

  // The chain of string comparisons: what is not recognised is a full-width integer.
  function KindOf(name: string): (k: Kind)
    ensures k.Integer? ==> 0 < k.width <= 8
  {
    if name == "f32" || name == "float" then Single
    else if name == "f64" || name == "double" then Double
    else if name == "ptr" then Pointer
    else if name == "bool" then Truth
    else if name == "i8" then Integer(1, true)
    else if name == "u8" then Integer(1, false)
    else if name == "i16" then Integer(2, true)
    else if name == "u16" then Integer(2, false)
    else if name == "i32" then Integer(4, true)
    else if name == "u32" then Integer(4, false)
    else Integer(8, true)
  }

  const ZERO: seq<Byte> := [0, 0, 0, 0, 0, 0, 0, 0]
  const ONE: seq<Byte> := [1, 0, 0, 0, 0, 0, 0, 0]

  // FillCaptureValueFromSlot.
  function Fill(name: Option<string>, slot: seq<Byte>, c: Conversions): Capture
    requires |slot| == STRIDE
  {
    var v := Capture(name, ZERO, ZERO, ZERO);
    if name.None? then v else
    match KindOf(name.value)
    case Single => v.(double := c.widen(slot[..4]))
    case Double => v.(double := slot[..8])
    case Pointer => v.(ptr := slot[..8])
    case Truth => v.(int64 := if slot[..8] != ZERO then ONE else ZERO)
    case Integer(width, sign) => v.(int64 := Extend(slot[..width], sign))
  }

  // The bytes StoreSlotFromCaptureValue writes to the start of the slot.
  function Stored(v: Capture, c: Conversions): seq<Byte> {
    if v.typeName.None? then [] else
    match KindOf(v.typeName.value)
    case Single => c.narrow(v.double)
    case Double => v.double
    case Pointer => v.ptr
    case Truth => v.int64
    case Integer(_, _) => v.int64
  }

  function AfterStore(v: Capture, slot: seq<Byte>, c: Conversions): seq<Byte>
    requires |slot| == STRIDE && |Stored(v, c)| <= STRIDE
  {
    Stored(v, c) + slot[|Stored(v, c)|..]
  }

  lemma StoredFits(v: Capture, c: Conversions)
    requires v.Valid() && c.Valid()
    ensures |Stored(v, c)| <= 8
  {}

  // What the author's callback makes of the values, and whether the original instruction runs.
  type Callback = seq<Capture> -> (seq<Capture>, int)

  ghost predicate WellBehaved(f: Callback) {
    forall vs :: |f(vs).0| == |vs| && forall i :: 0 <= i < |vs| ==> f(vs).0[i].Valid()
  }

  function SlotAt(payload: seq<Byte>, i: nat): (r: seq<Byte>)
    requires STRIDE * i + STRIDE <= |payload|
    ensures |r| == STRIDE
  {
    payload[STRIDE * i..STRIDE * i + STRIDE]
  }

  function Clamp(count: int): int {
    if count > CAP then CAP else count
  }

  function TypeAt(types: Option<seq<Option<string>>>, i: nat): Option<string>
    requires types.Some? ==> i < |types.value|
  {
    if types.Some? then types.value[i] else None
  }

  function Filled(payload: seq<Byte>, types: Option<seq<Option<string>>>, n: nat, c: Conversions): (r: seq<Capture>)
    requires STRIDE * n <= |payload| && (types.Some? ==> n <= |types.value|)
    ensures |r| == n
  {
    seq(n, i requires 0 <= i < n => Fill(TypeAt(types, i), SlotAt(payload, i), c))
  }

  // MidShimEntry: no callback or no captures leaves everything and answers "run"; otherwise every
  // slot up to the cap holds what the callback left in its value, and the rest of the payload stands.
  method MidShimEntry(payload: array<Byte>, count: int, types: Option<seq<Option<string>>>, f: Option<Callback>,
                      c: Conversions)
    returns (result: int)
    requires c.Valid() && (f.Some? ==> WellBehaved(f.value))
    requires count > 0 ==> STRIDE * Clamp(count) <= payload.Length && (types.Some? ==> Clamp(count) <= |types.value|)
    modifies payload
    ensures f.None? || count <= 0 ==> result == 0 && payload[..] == old(payload[..])
    ensures f.Some? && count > 0 ==>
              var n := if count > 16 then 16 else count; var out := f.value(Filled(old(payload[..]), types, n, c));
              result == out.1 && |out.0| == n && payload[STRIDE * n..] == old(payload[STRIDE * n..]) &&
              forall i :: 0 <= i < n ==>
                |Stored(out.0[i], c)| <= STRIDE &&
                SlotAt(payload[..], i) == AfterStore(out.0[i], SlotAt(old(payload[..]), i), c)
  {
    if f.None? || count <= 0 { return 0; }
    var n := Clamp(count);
    var values := FillValues(payload, n, types, c);
    var out := f.value(values);
    StoreValues(payload, out.0, c);
    return out.1;
  }

  method FillValues(payload: array<Byte>, n: nat, types: Option<seq<Option<string>>>, c: Conversions)
    returns (values: seq<Capture>)
    requires STRIDE * n <= payload.Length && (types.Some? ==> n <= |types.value|)
    ensures values == Filled(payload[..], types, n, c)
  {
    hide Fill;
    values := [];
    var i := 0;
    while i < n
      invariant 0 <= i <= n && values == Filled(payload[..], types, i, c)
    {
      values := values + [Fill(TypeAt(types, i), payload[STRIDE * i..STRIDE * i + STRIDE], c)];
      i := i + 1;
    }
  }

  method StoreValues(payload: array<Byte>, values: seq<Capture>, c: Conversions)
    requires STRIDE * |values| <= payload.Length && c.Valid() && forall v :: v in values ==> v.Valid()
    modifies payload
    ensures payload[STRIDE * |values|..] == old(payload[STRIDE * |values|..])
    ensures forall i :: 0 <= i < |values| ==>
              |Stored(values[i], c)| <= STRIDE &&
              SlotAt(payload[..], i) == AfterStore(values[i], SlotAt(old(payload[..]), i), c)
  {
    hide Stored;
    ghost var before := payload[..];
    var i := 0;
    while i < |values|
      invariant 0 <= i <= |values| && payload[..][STRIDE * i..] == before[STRIDE * i..]
      invariant forall k :: 0 <= k < i ==>
                  |Stored(values[k], c)| <= STRIDE &&
                  SlotAt(payload[..], k) == AfterStore(values[k], SlotAt(before, k), c)
    {
      ghost var was := payload[..];
      StoredFits(values[i], c);
      WriteBytes(payload, STRIDE * i, Stored(values[i], c));
      SlotWritten(was, payload[..], i, Stored(values[i], c));
      SuffixSlot(was, before, i);
      assert before[STRIDE * i..][STRIDE..] == before[STRIDE * (i + 1)..];
      i := i + 1;
    }
  }

  method WriteBytes(a: array<Byte>, at: nat, b: seq<Byte>)
    requires at + |b| <= a.Length
    modifies a
    ensures a[..] == old(a[..at]) + b + old(a[at + |b|..])
  {
    var i := 0;
    while i < |b|
      invariant i <= |b| && a[..at] == old(a[..at]) && a[at..at + i] == b[..i] && a[at + i..] == old(a[at + i..])
    {
      a[at + i] := b[i];
      i := i + 1;
    }
  }

  lemma SuffixSlot(a: seq<Byte>, b: seq<Byte>, i: nat)
    requires STRIDE * i + STRIDE <= |a| && |a| == |b| && a[STRIDE * i..] == b[STRIDE * i..]
    ensures SlotAt(a, i) == SlotAt(b, i)
  {
    assert SlotAt(a, i) == a[STRIDE * i..][..STRIDE] && SlotAt(b, i) == b[STRIDE * i..][..STRIDE];
  }

  // A write to the head of slot i leaves the rest of it and all other slots.
  lemma SlotWritten(was: seq<Byte>, now: seq<Byte>, i: nat, b: seq<Byte>)
    requires STRIDE * i + STRIDE <= |was| && |b| <= STRIDE
    requires now == was[..STRIDE * i] + b + was[STRIDE * i + |b|..]
    ensures SlotAt(now, i) == b + SlotAt(was, i)[|b|..]
    ensures forall k: nat :: k < i ==> SlotAt(now, k) == SlotAt(was, k)
    ensures now[STRIDE * (i + 1)..] == was[STRIDE * i..][STRIDE..]
  {
    forall k: nat | k < i ensures SlotAt(now, k) == SlotAt(was, k) {
      assert now[..STRIDE * i] == was[..STRIDE * i];
      assert SlotAt(now, k) == now[..STRIDE * i][STRIDE * k..STRIDE * k + STRIDE];
      assert SlotAt(was, k) == was[..STRIDE * i][STRIDE * k..STRIDE * k + STRIDE];
    }
  }

  // ---- What a callback that changes nothing leaves ---------------------------

  // Whether a slot already holds its value in full width, and a single one that both conversions
  // leave alone.
  predicate Canonical(name: Option<string>, slot: seq<Byte>, c: Conversions)
    requires |slot| == STRIDE
  {
    name.Some? ==>
      match KindOf(name.value)
      case Single => c.narrow(c.widen(slot[..4])) == slot[..4]
      case Truth => slot[..8] == ZERO || slot[..8] == ONE
      case Integer(width, sign) => slot[..8] == Extend(slot[..width], sign)
      case _ => true
  }

  // Integers and truth values are written back in eight bytes, and a single goes through a double.  A
  // capture the callback does not touch is therefore left as it was if and only if the slot held the
  // extended value to begin with, or a single that comes back from a double unchanged.
  lemma UntouchedCapture(name: Option<string>, slot: seq<Byte>, c: Conversions)
    requires |slot| == STRIDE && c.Valid()
    ensures var v := Fill(name, slot, c);
            |Stored(v, c)| <= 8 && (AfterStore(v, slot, c) == slot <==> Canonical(name, slot, c))
  {
    var v := Fill(name, slot, c);
    var b := Stored(v, c);
    assert slot == slot[..|b|] + slot[|b|..];
    assert AfterStore(v, slot, c)[..|b|] == b;
  }

  // A byte capture over a slot whose second byte is set: the callback does nothing, the slot changes.
  lemma UntouchedByteChanges(c: Conversions)
    requires c.Valid()
    ensures var slot := [1, 1] + ZERO + [0, 0, 0, 0, 0, 0]; var v := Fill(Some("u8"), slot, c);
            |slot| == STRIDE && |Stored(v, c)| <= STRIDE && AfterStore(v, slot, c) != slot
  {
    var slot: seq<Byte> := [1, 1] + ZERO + [0, 0, 0, 0, 0, 0];
    UntouchedCapture(Some("u8"), slot, c);
    assert slot[..8][1] == 1 && Extend(slot[..1], false)[1] == 0;
  }

  // What a capture value holds, by the name of its type: the number of that width and sign, the two
  // float widths as a double, the word of a pointer, and whether anything is set of a truth value; a name
  // that is not known reads all eight bytes.
  lemma CaptureReads(name: string, slot: seq<Byte>, c: Conversions)
    requires |slot| == STRIDE && c.Valid()
    ensures var v := Fill(Some(name), slot, c);
            (name == "i8" ==> Signed(v.int64) == Signed(slot[..1])) &&
            (name == "u8" ==> Unsigned(v.int64) == Unsigned(slot[..1])) &&
            (name == "i16" ==> Signed(v.int64) == Signed(slot[..2])) &&
            (name == "u16" ==> Unsigned(v.int64) == Unsigned(slot[..2])) &&
            (name == "i32" ==> Signed(v.int64) == Signed(slot[..4])) &&
            (name == "u32" ==> Unsigned(v.int64) == Unsigned(slot[..4])) &&
            (name == "f32" || name == "float" ==> v.double == c.widen(slot[..4])) &&
            (name == "f64" || name == "double" ==> v.double == slot[..8]) &&
            (name == "ptr" ==> v.ptr == slot[..8]) &&
            (name == "bool" ==> Unsigned(v.int64) == if exists i :: 0 <= i < 8 && slot[i] != 0 then 1 else 0) &&
            (name !in {"i8", "u8", "i16", "u16", "i32", "u32", "f32", "float", "f64", "double", "ptr", "bool"} ==>
               v.int64 == slot[..8])
  {
    hide Extend, Signed, Unsigned;
    ExtendReads(slot[..1]);
    ExtendReads(slot[..2]);
    ExtendReads(slot[..4]);
    assert Extend(slot[..8], true) == Extend(slot[..8], true)[..8] == slot[..8];
    TruthReads(slot);
  }

  lemma TruthReads(slot: seq<Byte>)
    requires |slot| == STRIDE
    ensures slot[..8] != ZERO <==> exists i :: 0 <= i < 8 && slot[i] != 0
    ensures Unsigned(ZERO) == 0 && Unsigned(ONE) == 1
  {
    ZeroReads(8);
    assert ZERO == seq(8, _ => 0 as Byte);
    assert ONE[1..] == seq(7, _ => 0 as Byte);
    ZeroReads(7);
    if forall i :: 0 <= i < 8 ==> slot[i] == 0 { assert slot[..8] == ZERO; }
  }

  lemma {:induction false} ZeroReads(n: nat)
    ensures Unsigned(seq(n, _ => 0 as Byte)) == 0
  {
    if n > 0 {
      assert seq(n, _ => 0 as Byte)[1..] == seq(n - 1, _ => 0 as Byte);
      ZeroReads(n - 1);
    }
  }

  // Filling after storing gives the typed value back: the value itself, cut to the type's width.
  lemma FillAfterStore(v: Capture, slot: seq<Byte>, c: Conversions)
    requires |slot| == STRIDE && c.Valid() && v.Valid() && v.typeName.Some?
    ensures |Stored(v, c)| <= 8
    ensures var w := Fill(v.typeName, AfterStore(v, slot, c), c);
            match KindOf(v.typeName.value)
            case Single => w.double == c.widen(c.narrow(v.double))
            case Double => w.double == v.double
            case Pointer => w.ptr == v.ptr
            case Truth => (w.int64 == ONE <==> v.int64 != ZERO) && (w.int64 == ZERO <==> v.int64 == ZERO)
            case Integer(width, sign) => w.int64 == Extend(v.int64[..width], sign)
  {
    var s := AfterStore(v, slot, c);
    assert s[..|Stored(v, c)|] == Stored(v, c);
    if KindOf(v.typeName.value).Integer? {
      var width := KindOf(v.typeName.value).width;
      assert s[..width] == s[..8][..width];
    }
  }
}
