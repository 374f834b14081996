/**
 The hook signature types the thunk compiler works from, and what each of them means in memory.
 */
module HookSignature {
  datatype Type = Void | I8 | I16 | I32 | I64 | U8 | U16 | U32 | U64 | F32 | F64 | Ptr | Bool | Wstr | Cstr

  datatype Signature = Signature(returnType: Type, args: seq<Type>)

  datatype Mode = Before | After | Around | Replace | Mid | Callsite

  type Byte = x: int | 0 <= x < 256

  function Width(t: Type): nat {
    match t
    case I8 => 1 case U8 => 1 case Bool => 1
    case I16 => 2 case U16 => 2
    case I32 => 4 case U32 => 4 case F32 => 4
    case _ => 8
  }

  predicate IsFloat(t: Type) {
    t.F32? || t.F64?
  }

  predicate IsSigned(t: Type) {
    t.I8? || t.I16? || t.I32?
  }

  // A value of fewer than eight bytes in an eight-byte register.
  function Extend(b: seq<Byte>, sign: bool): (r: seq<Byte>)
    requires 0 < |b| <= 8
    ensures |r| == 8 && r[..|b|] == b
  {
    b + seq(8 - |b|, _ => if sign && b[|b| - 1] >= 128 then 255 else 0)
  }

  // Write bytes over part of a region.
  function Splice(s: seq<Byte>, at: nat, b: seq<Byte>): (r: seq<Byte>)
    requires at + |b| <= |s|
    ensures |r| == |s| && r[at..at + |b|] == b && r[..at] == s[..at] && r[at + |b|..] == s[at + |b|..]
  {
    s[..at] + b + s[at + |b|..]
  }

  // Four little-endian bytes as a signed integer.
  function Int32(b: seq<Byte>): (r: int)
    requires |b| >= 4
    ensures -0x8000_0000 <= r < 0x8000_0000
  {
    var u: int := (b[0] as int) + 0x100 * (b[1] as int) + 0x1_0000 * (b[2] as int) + 0x100_0000 * (b[3] as int);
    if u < 0x8000_0000 then u else u - 0x1_0000_0000
  }

  // ---- Bytes as numbers ------------------------------------------------------

  // Little-endian, without and with a sign.
  function Unsigned(b: seq<Byte>): int {
    if b == [] then 0 else b[0] + 0x100 * Unsigned(b[1..])
  }

  function Signed(b: seq<Byte>): int
    requires b != []
  {
    if |b| == 1 then (if b[0] < 0x80 then b[0] else b[0] - 0x100) else b[0] + 0x100 * Signed(b[1..])
  }

  // More bytes at the top: zeros leave the number, and copies of the sign leave the signed number.
  lemma {:induction false} Widened(b: seq<Byte>, k: nat, fill: Byte)
    requires b != []
    ensures fill == 0 ==> Unsigned(b + seq(k, _ => fill)) == Unsigned(b)
    ensures fill == (if b[|b| - 1] >= 128 then 255 else 0) ==> Signed(b + seq(k, _ => fill)) == Signed(b)
    decreases |b| + k
  {
    var w := b + seq(k, _ => fill);
    if k == 0 {
      assert w == b;
    } else if |b| == 1 {
      assert w[1..] == [fill] + seq(k - 1, _ => fill);
      Widened([fill], k - 1, fill);
      assert Unsigned(b) == b[0] + 0x100 * Unsigned([]) by { assert b[1..] == []; }
      assert Unsigned([fill]) == fill + 0x100 * Unsigned([]) by { assert [fill][1..] == []; }
    } else {
      assert w[1..] == b[1..] + seq(k, _ => fill);
      Widened(b[1..], k, fill);
    }
  }

  lemma ExtendReads(b: seq<Byte>)
    requires 0 < |b| <= 8
    ensures Unsigned(Extend(b, false)) == Unsigned(b) && Signed(Extend(b, true)) == Signed(b)
  {
    var fill: Byte := if b[|b| - 1] >= 128 then 255 else 0;
    Widened(b, 8 - |b|, 0);
    Widened(b, 8 - |b|, fill);
    assert Extend(b, false) == b + seq(8 - |b|, _ => 0 as Byte);
    assert Extend(b, true) == b + seq(8 - |b|, _ => fill);
  }

  lemma Int32Reads(b: seq<Byte>)
    requires |b| >= 4
    ensures Int32(b) == Signed(b[..4])
  {
    var c := b[..4];
    assert c[1..][1..] == c[2..] && c[2..][1..] == c[3..];
    assert Signed(c) == c[0] + 0x100 * Signed(c[1..]);
    assert Signed(c[1..]) == c[1] + 0x100 * Signed(c[2..]);
    assert Signed(c[2..]) == c[2] + 0x100 * Signed(c[3..]);
  }

  // What a register holds after a typed load from a slot: the number of the type's width, with the type's
  // sign, the low word of a single, or all eight bytes.
  ghost predicate ReadsAs(t: Type, slot: seq<Byte>, bits: seq<Byte>)
    requires |slot| >= 8
  {
    |bits| == 8 &&
    match t
    case I8 => Signed(bits) == Signed(slot[..1])
    case I16 => Signed(bits) == Signed(slot[..2])
    case I32 => Signed(bits) == Signed(slot[..4])
    case U8 => Unsigned(bits) == Unsigned(slot[..1])
    case Bool => Unsigned(bits) == Unsigned(slot[..1])
    case U16 => Unsigned(bits) == Unsigned(slot[..2])
    case U32 => Unsigned(bits) == Unsigned(slot[..4])
    case F32 => bits[..4] == slot[..4]
    case _ => bits == slot[..8]
  }

  lemma TypedLoadReads(t: Type, slot: seq<Byte>)
    requires |slot| >= 8
    ensures ReadsAs(t, slot, Extend(slot[..Width(t)], IsSigned(t)))
  {
    hide Extend, Signed, Unsigned;
    ExtendReads(slot[..Width(t)]);
    if Width(t) == 8 { assert Extend(slot[..8], IsSigned(t))[..8] == Extend(slot[..8], IsSigned(t)); }
  }
}

/**
 The dispatch-thunk compiler: the instructions it emits for a callback in a given mode, a machine
 that runs them, and the contract of each mode.  Floats are carried as opaque words.
 */
module DispatchThunk {
  import opened Options
  import opened HookSignature

  // ---- The intermediate code -------------------------------------------------

  // The memory a thunk touches: the eight-byte parameter slots, the return-value word, and the
  // `args` and `outCount` stack cells of Before mode.
  datatype Region = Params | Rv | Args | OutCount

  // Virtual registers, named by what they are for.
  datatype VReg =
    | VParams | VRv | VOriginal
    | SavedArg(i: nat) | ArgsBase | OutCountBase | TypedArg(i: nat) | OrigReturn
    | Returned | OutCountValue | CopiedArg(i: nat)

  // `Via` goes through a base register, `OnStack` addresses the frame.
  datatype Operand = Via(base: VReg, offset: nat) | OnStack(region: Region, offset: nat)

  datatype Ins =
    | Load(dst: VReg, src: Operand, width: nat, xmm: bool, sign: bool)
    | Store(at: Operand, reg: VReg, width: nat)
    | Zero(dst: VReg)
    | StoreZero32(at: Operand)
    | Lea(dst: VReg, region: Region)
    | Invoke(args: seq<VReg>, ret: Option<VReg>, retXmm: bool)
    | JumpIfLessEqual(tested: VReg, bound: int, mark: nat)
    | Bind(mark: nat)
    | Ret

  // ---- The machine -----------------------------------------------------------

  datatype Val = Word(xmm: bool, bits: seq<Byte>) | Addr(region: Region)

  datatype Memory = Memory(params: seq<Byte>, rv: seq<Byte>, args: seq<Byte>, outCount: seq<Byte>) {
    function At(r: Region): seq<Byte> {
      match r
      case Params => params
      case Rv => rv
      case Args => args
      case OutCount => outCount
    }

    function With(r: Region, b: seq<Byte>): Memory {
      match r
      case Params => this.(params := b)
      case Rv => this.(rv := b)
      case Args => this.(args := b)
      case OutCount => this.(outCount := b)
    }
  }

  // What the callback does with the cells it was given, and the register it returns.
  datatype Effect = Effect(args: seq<Byte>, outCount: seq<Byte>, ret: seq<Byte>)

  type Callback = (seq<Val>, seq<Byte>, seq<Byte>) -> Effect

  ghost predicate WellBehaved(f: Callback) {
    forall passed, args, outCount :: |outCount| == 4 ==>
      var e := f(passed, args, outCount); |e.args| == |args| && |e.outCount| == 4 && |e.ret| == 8
  }

  datatype Machine = Machine(regs: map<VReg, Val>, mem: Memory, passed: Option<seq<Val>>, fault: bool)

  function Where(m: Machine, o: Operand): Option<Region> {
    match o
    case OnStack(region, _) => Some(region)
    case Via(base, _) => if base in m.regs && m.regs[base].Addr? then Some(m.regs[base].region) else None
  }

  predicate InBounds(m: Machine, o: Operand, width: nat) {
    Where(m, o).Some? && o.offset + width <= |m.mem.At(Where(m, o).value)|
  }

  function Fetch(m: Machine, o: Operand, width: nat): seq<Byte>
    requires InBounds(m, o, width)
  {
    m.mem.At(Where(m, o).value)[o.offset..o.offset + width]
  }

  predicate HoldsWord(m: Machine, r: VReg) {
    r in m.regs && m.regs[r].Word? && |m.regs[r].bits| == 8
  }

  function SetReg(m: Machine, r: VReg, v: Val): Machine {
    m.(regs := m.regs[r := v])
  }

  function Write(m: Machine, o: Operand, b: seq<Byte>): Machine
    requires InBounds(m, o, |b|)
  {
    var r := Where(m, o).value;
    m.(mem := m.mem.With(r, Splice(m.mem.At(r), o.offset, b)))
  }

  function Faulted(m: Machine): Machine {
    m.(fault := true)
  }

  function SkipTo(code: seq<Ins>, mark: nat): seq<Ins> {
    if code == [] then [] else if code[0] == Bind(mark) then code[1..] else SkipTo(code[1..], mark)
  }

  lemma {:induction false} SkipToShrinks(code: seq<Ins>, mark: nat)
    ensures |SkipTo(code, mark)| <= |code|
    decreases |code|
  {
    if code != [] { SkipToShrinks(code[1..], mark); }
  }

  // One instruction that does not jump.
  function Do(i: Ins, m: Machine, f: Callback): Machine {
    match i
    case Load(dst, src, width, xmm, sign) =>
      if 0 < width <= 8 && InBounds(m, src, width) then SetReg(m, dst, Word(xmm, Extend(Fetch(m, src, width), sign)))
      else Faulted(m)
    case Store(dst, src, width) =>
      if width <= 8 && HoldsWord(m, src) && InBounds(m, dst, width) then Write(m, dst, m.regs[src].bits[..width])
      else Faulted(m)
    case Zero(dst) => SetReg(m, dst, Word(false, Zeros(8)))
    case StoreZero32(dst) => if InBounds(m, dst, 4) then Write(m, dst, Zeros(4)) else Faulted(m)
    case Lea(dst, region) => SetReg(m, dst, Addr(region))
    case Invoke(args, ret, retXmm) =>
      if forall k :: 0 <= k < |args| ==> args[k] in m.regs then
        var passed := seq(|args|, k requires 0 <= k < |args| => m.regs[args[k]]);
        var e := f(passed, m.mem.args, m.mem.outCount);
        var m1 := m.(mem := m.mem.(args := e.args, outCount := e.outCount), passed := Some(passed));
        if ret.Some? then SetReg(m1, ret.value, Word(retXmm, e.ret)) else m1
      else Faulted(m)
    case JumpIfLessEqual(_, _, _) => m
    case Bind(_) => m
    case Ret => m
  }

  function Zeros(n: nat): (r: seq<Byte>)
    ensures |r| == n && forall i :: 0 <= i < n ==> r[i] == 0
  {
    seq(n, _ => 0)
  }

  function Exec(code: seq<Ins>, m: Machine, f: Callback): Machine
    decreases |code|
  {
    if m.fault || code == [] || code[0].Ret? then m else
    if code[0].JumpIfLessEqual? then
      if !HoldsWord(m, code[0].tested) then Faulted(m)
      else if Int32(m.regs[code[0].tested].bits) <= code[0].bound then
        SkipToShrinks(code[1..], code[0].mark);
        Exec(SkipTo(code[1..], code[0].mark), m, f)
      else Exec(code[1..], m, f)
    else Exec(code[1..], Do(code[0], m, f), f)
  }

  // ---- What is emitted -------------------------------------------------------

  function LoadTyped(dst: VReg, src: Operand, t: Type): Ins {
    Load(dst, src, Width(t), IsFloat(t), IsSigned(t))
  }

  // Before: the args channel starts out as a copy of the slots.
  function SaveArgs(i: nat, n: nat): seq<Ins>
    decreases n - i
  {
    if i >= n then [] else
    [Load(SavedArg(i), Via(VParams, 8 * i), 8, false, false), Store(OnStack(Args, 8 * i), SavedArg(i), 8)] +
    SaveArgs(i + 1, n)
  }

  function UnpackArgs(types: seq<Type>, i: nat): seq<Ins>
    decreases |types| - i
  {
    if i >= |types| then [] else [LoadTyped(TypedArg(i), Via(VParams, 8 * i), types[i])] + UnpackArgs(types, i + 1)
  }

  // Before: slot i is written back when outCount is greater than i.
  function CopyBack(i: nat, n: nat): seq<Ins>
    decreases n - i
  {
    if i >= n then [] else
    CopyOne(i) + CopyBack(i + 1, n)
  }

  function CopyOne(i: nat): seq<Ins> {
    [JumpIfLessEqual(OutCountValue, i, i), Load(CopiedArg(i), OnStack(Args, 8 * i), 8, false, false),
     Store(Via(VParams, 8 * i), CopiedArg(i), 8), Bind(i)]
  }

  predicate WantsReturn(sig: Signature, mode: Mode) {
    mode.Around? || mode.Replace? || (mode.After? && !sig.returnType.Void?)
  }

  function Opening(sig: Signature, mode: Mode): seq<Ins> {
    if mode.Before? then
      SaveArgs(0, |sig.args|) +
      [StoreZero32(OnStack(OutCount, 0)), if |sig.args| > 0 then Lea(ArgsBase, Args) else Zero(ArgsBase),
       Lea(OutCountBase, OutCount)]
    else []
  }

  function LeadingRegs(sig: Signature, mode: Mode): seq<VReg> {
    match mode
    case Before => [ArgsBase, OutCountBase]
    case Around => [VOriginal]
    case After => if sig.returnType.Void? then [] else [OrigReturn]
    case _ => []
  }

  function TypedRegs(n: nat): (r: seq<VReg>)
    ensures |r| == n && forall i :: 0 <= i < n ==> r[i] == TypedArg(i)
  {
    seq(n, i requires 0 <= i < n => TypedArg(i))
  }

  function Call(sig: Signature, mode: Mode): Ins {
    Invoke(LeadingRegs(sig, mode) + TypedRegs(|sig.args|),
           if WantsReturn(sig, mode) then Some(Returned) else None,
           WantsReturn(sig, mode) && IsFloat(sig.returnType))
  }

  function Closing(sig: Signature, mode: Mode): seq<Ins> {
    if mode.Before? then [Load(OutCountValue, OnStack(OutCount, 0), 4, false, false)] + CopyBack(0, |sig.args|)
    else if WantsReturn(sig, mode) && !sig.returnType.Void? then [Store(Via(VRv, 0), Returned, Width(sig.returnType))]
    else []
  }

  function OrigReturnLoad(sig: Signature, mode: Mode): seq<Ins> {
    if mode.After? && !sig.returnType.Void? then [LoadTyped(OrigReturn, Via(VRv, 0), sig.returnType)] else []
  }

  function Thunk(sig: Signature, mode: Mode): seq<Ins> {
    Opening(sig, mode) + (UnpackArgs(sig.args, 0) +
                          (OrigReturnLoad(sig, mode) + ([Call(sig, mode)] + (Closing(sig, mode) + [Ret]))))
  }

  // The compiler object the instructions are appended to.
  class Compiler {
    var code: seq<Ins>

    constructor ()
      ensures code == []
    {
      code := [];
    }

    method Emit(i: Ins)
      modifies this
      ensures code == old(code) + [i]
    {
      code := code + [i];
    }

    // StoreReturn: the typed slice of the return register goes to the return-value word.
    method StoreReturn(t: Type)
      modifies this
      ensures code == old(code) + (if t.Void? then [] else [Store(Via(VRv, 0), Returned, Width(t))])
    {
      if t.Void? { return; }
      Emit(Store(Via(VRv, 0), Returned, Width(t)));
    }

    method EmitOpening(sig: Signature, mode: Mode)
      modifies this
      ensures code == old(code) + Opening(sig, mode)
    {
      hide SaveArgs;
      if !mode.Before? { return; }
      EmitSaves(|sig.args|);
      EmitBases(|sig.args|);
    }

    // The argument words go onto the stack.
    method EmitSaves(n: nat)
      modifies this
      ensures code == old(code) + SaveArgs(0, n)
    {
      var i := 0;
      while i < n
        invariant i <= n && code + SaveArgs(i, n) == old(code) + SaveArgs(0, n)
      {
        ghost var c := code;
        Emit(Load(SavedArg(i), Via(VParams, 8 * i), 8, false, false));
        Emit(Store(OnStack(Args, 8 * i), SavedArg(i), 8));
        assert code + SaveArgs(i + 1, n) == c + SaveArgs(i, n);
        i := i + 1;
      }
      assert code == code + SaveArgs(i, n);
    }

    // Where they are, and where the callback leaves its count.
    method EmitBases(n: nat)
      modifies this
      ensures code == old(code) +
                [StoreZero32(OnStack(OutCount, 0)), if n > 0 then Lea(ArgsBase, Args) else Zero(ArgsBase),
                 Lea(OutCountBase, OutCount)]
    {
      Emit(StoreZero32(OnStack(OutCount, 0)));
      if n > 0 {
        Emit(Lea(ArgsBase, Args));
      } else {
        Emit(Zero(ArgsBase));
      }
      Emit(Lea(OutCountBase, OutCount));
    }

    method EmitClosing(sig: Signature, mode: Mode)
      modifies this
      ensures code == old(code) + Closing(sig, mode)
    {
      if mode.Before? {
        Emit(Load(OutCountValue, OnStack(OutCount, 0), 4, false, false));
        ghost var c := code;
        var n := |sig.args|;
        var i := 0;
        while i < n
          invariant i <= n && code + CopyBack(i, n) == c + CopyBack(0, n)
        {
          Emit(JumpIfLessEqual(OutCountValue, i, i));
          Emit(Load(CopiedArg(i), OnStack(Args, 8 * i), 8, false, false));
          Emit(Store(Via(VParams, 8 * i), CopiedArg(i), 8));
          Emit(Bind(i));
          assert CopyBack(i, n) == CopyOne(i) + CopyBack(i + 1, n);
          i := i + 1;
        }
        assert code == c + CopyBack(0, n);
      } else if WantsReturn(sig, mode) {
        StoreReturn(sig.returnType);
      }
    }

    // Every typed argument gets a register of its own.
    method EmitUnpack(types: seq<Type>) returns (regs: seq<VReg>)
      modifies this
      ensures code == old(code) + UnpackArgs(types, 0) && regs == TypedRegs(|types|)
    {
      regs := [];
      var i := 0;
      while i < |types|
        invariant i <= |types| && regs == TypedRegs(i)
        invariant code + UnpackArgs(types, i) == old(code) + UnpackArgs(types, 0)
      {
        Emit(LoadTyped(TypedArg(i), Via(VParams, 8 * i), types[i]));
        regs := regs + [TypedArg(i)];
        i := i + 1;
      }
      assert code == old(code) + UnpackArgs(types, 0);
    }

    // BuildCDispatchThunk for the modes that work on parameter slots.
    method Build(sig: Signature, mode: Mode)
      requires !mode.Mid?
      modifies this
      ensures code == old(code) + Thunk(sig, mode)
    {
      hide Opening, UnpackArgs, Closing;
      EmitOpening(sig, mode);
      var regs := EmitUnpack(sig.args);
      if mode.After? && !sig.returnType.Void? {
        Emit(LoadTyped(OrigReturn, Via(VRv, 0), sig.returnType));
      }
      Emit(Invoke(LeadingRegs(sig, mode) + regs,
                  if WantsReturn(sig, mode) then Some(Returned) else None,
                  WantsReturn(sig, mode) && IsFloat(sig.returnType)));
      EmitClosing(sig, mode);
      Emit(Ret);
      Assemble(old(code), Opening(sig, mode), UnpackArgs(sig.args, 0), OrigReturnLoad(sig, mode), [Call(sig, mode)],
               Closing(sig, mode));
    }
  }

  lemma Assemble(c: seq<Ins>, a: seq<Ins>, b: seq<Ins>, d: seq<Ins>, e: seq<Ins>, g: seq<Ins>)
    ensures c + a + b + d + e + g + [Ret] == c + (a + (b + (d + (e + (g + [Ret])))))
  {}

  // ---- The contract of each mode ---------------------------------------------

  // What a typed argument reads from its slot.
  function Typed(t: Type, slot: seq<Byte>): Val
    requires |slot| >= 8
  {
    Word(IsFloat(t), Extend(slot[..Width(t)], IsSigned(t)))
  }

  function Slot(params: seq<Byte>, i: nat): (r: seq<Byte>)
    requires 8 * i + 8 <= |params|
    ensures |r| == 8
  {
    params[8 * i..8 * i + 8]
  }

  // The arguments the mode puts before the typed ones.
  function Leading(sig: Signature, mode: Mode, rv: seq<Byte>, original: seq<Byte>): seq<Val>
    requires |rv| == 8
  {
    match mode
    case Before => [if |sig.args| > 0 then Addr(Args) else Word(false, Zeros(8)), Addr(OutCount)]
    case Around => [Word(false, original)]
    case After => if sig.returnType.Void? then [] else [Typed(sig.returnType, rv)]
    case _ => []
  }

  // What the callback must be given.
  ghost predicate PassedRight(sig: Signature, mode: Mode, mem: Memory, original: seq<Byte>, passed: seq<Val>)
    requires |mem.params| == 8 * |sig.args| && |mem.rv| == 8
  {
    var leading := Leading(sig, mode, mem.rv, original);
    |passed| == |leading| + |sig.args| && passed[..|leading|] == leading &&
    forall i :: 0 <= i < |sig.args| ==> passed[|leading| + i] == Typed(sig.args[i], Slot(mem.params, i))
  }

  // What must be left behind, given what the callback did.
  ghost predicate LeftRight(sig: Signature, mode: Mode, mem: Memory, e: Effect, after: Memory)
    requires |mem.params| == 8 * |sig.args| && |mem.rv| == 8
  {
    |after.params| == |mem.params| && |after.rv| == 8 &&
    (if mode.Before? then
       |e.args| == |mem.params| && |e.outCount| == 4 && after.rv == mem.rv &&
       forall i :: 0 <= i < |sig.args| ==>
         Slot(after.params, i) == if Int32(e.outCount) > i then Slot(e.args, i) else Slot(mem.params, i)
     else
       after.params == mem.params && |e.ret| == 8 &&
       var w := if WantsReturn(sig, mode) && !sig.returnType.Void? then Width(sig.returnType) else 0;
       after.rv[..w] == e.ret[..w] && after.rv[w..] == mem.rv[w..])
  }

  // The state in which the engine calls a thunk.
  ghost predicate Entered(sig: Signature, mode: Mode, m: Machine, original: seq<Byte>) {
    && !m.fault && m.passed.None?
    && |m.mem.params| == 8 * |sig.args| && |m.mem.rv| == 8 && |m.mem.args| == 8 * |sig.args| && |m.mem.outCount| == 4
    && VParams in m.regs && m.regs[VParams] == Addr(Params)
    && (mode.After? || mode.Around? || mode.Replace? ==> VRv in m.regs && m.regs[VRv] == Addr(Rv))
    && (mode.Around? ==> VOriginal in m.regs && m.regs[VOriginal] == Word(false, original))
  }

  // ---- Proof: phase by phase -------------------------------------------------

  predicate Inputs(r: VReg) {
    r.VParams? || r.VRv? || r.VOriginal?
  }

  // Registers other than those a phase is about keep their values.
  ghost predicate Keeps(m: Machine, t: Machine, touched: VReg -> bool) {
    forall r :: r in m.regs && !touched(r) ==> r in t.regs && t.regs[r] == m.regs[r]
  }

  lemma LoadRuns(dst: VReg, src: Operand, width: nat, xmm: bool, sign: bool, rest: seq<Ins>, m: Machine, f: Callback)
    requires !m.fault && 0 < width <= 8 && InBounds(m, src, width)
    ensures Exec([Load(dst, src, width, xmm, sign)] + rest, m, f) ==
            Exec(rest, SetReg(m, dst, Word(xmm, Extend(Fetch(m, src, width), sign))), f)
  {
    hide InBounds, Fetch, Extend, SetReg;
    assert ([Load(dst, src, width, xmm, sign)] + rest)[1..] == rest;
  }

  lemma StoreRuns(at: Operand, reg: VReg, width: nat, rest: seq<Ins>, m: Machine, f: Callback)
    requires !m.fault && width <= 8 && HoldsWord(m, reg) && InBounds(m, at, width)
    ensures Exec([Store(at, reg, width)] + rest, m, f) == Exec(rest, Write(m, at, m.regs[reg].bits[..width]), f)
  {
    hide InBounds, Write;
    assert ([Store(at, reg, width)] + rest)[1..] == rest;
  }

  // Eight bytes move from one place to another through a register.
  lemma MoveRuns(tmp: VReg, src: Operand, dst: Operand, rest: seq<Ins>, m: Machine, f: Callback)
    requires !m.fault && InBounds(m, src, 8) && InBounds(m, dst, 8) && (dst.Via? ==> dst.base != tmp)
    ensures var b := Fetch(m, src, 8); var m1 := SetReg(m, tmp, Word(false, b));
            InBounds(m1, dst, 8) && Where(m1, dst) == Where(m, dst) && |b| == 8 &&
            Exec([Load(tmp, src, 8, false, false), Store(dst, tmp, 8)] + rest, m, f) == Exec(rest, Write(m1, dst, b), f)
  {
    hide Exec, Write;
    var b := Fetch(m, src, 8);
    assert Extend(b, false) == b && b[..8] == b;
    var i0, i1 := Load(tmp, src, 8, false, false), Store(dst, tmp, 8);
    assert [i0, i1] + rest == [i0] + ([i1] + rest);
    LoadRuns(tmp, src, 8, false, false, [i1] + rest, m, f);
    StoreRuns(dst, tmp, 8, rest, SetReg(m, tmp, Word(false, b)), f);
  }

  // The args channel holds a copy of the slots from i on.
  lemma {:induction false} SaveArgsRuns(i: nat, n: nat, rest: seq<Ins>, m: Machine, f: Callback) returns (t: Machine)
    requires i <= n && !m.fault && |m.mem.params| == 8 * n && |m.mem.args| == 8 * n
    requires VParams in m.regs && m.regs[VParams] == Addr(Params)
    ensures Exec(SaveArgs(i, n) + rest, m, f) == Exec(rest, t, f)
    ensures !t.fault && t.passed == m.passed && Keeps(m, t, (r: VReg) => r.SavedArg?)
    ensures t.mem == m.mem.(args := m.mem.args[..8 * i] + m.mem.params[8 * i..])
    decreases n - i
  {
    hide Exec;
    if i == n {
      t := m;
      assert SaveArgs(i, n) + rest == rest;
      assert m.mem.args[..8 * i] + m.mem.params[8 * i..] == m.mem.args;
    } else {
      var src, dst := Via(VParams, 8 * i), OnStack(Args, 8 * i);
      var tail := SaveArgs(i + 1, n) + rest;
      assert SaveArgs(i, n) + rest == [Load(SavedArg(i), src, 8, false, false), Store(dst, SavedArg(i), 8)] + tail;
      MoveRuns(SavedArg(i), src, dst, tail, m, f);
      var b := Fetch(m, src, 8);
      var m1 := Write(SetReg(m, SavedArg(i), Word(false, b)), dst, b);
      t := SaveArgsRuns(i + 1, n, rest, m1, f);
      assert m1.mem.args[..8 * (i + 1)] + m.mem.params[8 * (i + 1)..] == m.mem.args[..8 * i] + m.mem.params[8 * i..];
    }
  }

  lemma {:induction false} UnpackRuns(types: seq<Type>, i: nat, rest: seq<Ins>, m: Machine, f: Callback)
    returns (t: Machine)
    requires i <= |types| && !m.fault && |m.mem.params| == 8 * |types|
    requires VParams in m.regs && m.regs[VParams] == Addr(Params)
    ensures Exec(UnpackArgs(types, i) + rest, m, f) == Exec(rest, t, f)
    ensures !t.fault && t.passed == m.passed && t.mem == m.mem && Keeps(m, t, (r: VReg) => r.TypedArg? && r.i >= i)
    ensures forall k :: i <= k < |types| ==>
              TypedArg(k) in t.regs && t.regs[TypedArg(k)] == Typed(types[k], Slot(m.mem.params, k))
    decreases |types| - i
  {
    hide Exec, Extend, Typed, Keeps;
    if i == |types| {
      t := m;
      assert UnpackArgs(types, i) + rest == rest;
      KeepsItself(m, (r: VReg) => r.TypedArg? && r.i >= i);
    } else {
      var tail := UnpackArgs(types, i + 1) + rest;
      assert UnpackArgs(types, i) + rest == [LoadTyped(TypedArg(i), Via(VParams, 8 * i), types[i])] + tail;
      UnpackOne(types[i], i, tail, m, f);
      var v := Typed(types[i], Slot(m.mem.params, i));
      t := UnpackRuns(types, i + 1, rest, SetReg(m, TypedArg(i), v), f);
      KeepsTyped(m, i, v, t);
    }
  }

  // One argument is loaded in its type.
  lemma UnpackOne(ty: Type, i: nat, tail: seq<Ins>, m: Machine, f: Callback)
    requires !m.fault && 8 * i + 8 <= |m.mem.params| && VParams in m.regs && m.regs[VParams] == Addr(Params)
    ensures Exec([LoadTyped(TypedArg(i), Via(VParams, 8 * i), ty)] + tail, m, f) ==
            Exec(tail, SetReg(m, TypedArg(i), Typed(ty, Slot(m.mem.params, i))), f)
  {
    hide Exec, Extend;
    var src, w := Via(VParams, 8 * i), Width(ty);
    LoadRuns(TypedArg(i), src, w, IsFloat(ty), IsSigned(ty), tail, m, f);
    HeadOfSlot(m.mem.params, i, w);
  }

  lemma HeadOfSlot(params: seq<Byte>, i: nat, w: nat)
    requires 8 * i + 8 <= |params| && w <= 8
    ensures params[8 * i..8 * i + w] == Slot(params, i)[..w]
  {}

  lemma KeepsItself(m: Machine, touched: VReg -> bool)
    ensures Keeps(m, m, touched)
  {}

  lemma KeepsTyped(m: Machine, i: nat, v: Val, t: Machine)
    requires Keeps(SetReg(m, TypedArg(i), v), t, (r: VReg) => r.TypedArg? && r.i >= i + 1)
    ensures Keeps(m, t, (r: VReg) => r.TypedArg? && r.i >= i)
    ensures TypedArg(i) in t.regs && t.regs[TypedArg(i)] == v
  {}

  // Slots from i on are written back where the count allows it.
  lemma {:induction false} CopyBackRuns(i: nat, n: nat, rest: seq<Ins>, m: Machine, f: Callback) returns (t: Machine)
    requires i <= n && !m.fault && |m.mem.params| == 8 * n && |m.mem.args| == 8 * n
    requires VParams in m.regs && m.regs[VParams] == Addr(Params) && HoldsWord(m, OutCountValue)
    ensures Exec(CopyBack(i, n) + rest, m, f) == Exec(rest, t, f)
    ensures !t.fault && t.passed == m.passed && t.mem == m.mem.(params := t.mem.params) && |t.mem.params| == 8 * n
    ensures t.mem.params[..8 * i] == m.mem.params[..8 * i]
    ensures forall k :: i <= k < n ==>
              Slot(t.mem.params, k) == if Int32(m.regs[OutCountValue].bits) > k then Slot(m.mem.args, k)
                                       else Slot(m.mem.params, k)
    decreases n - i
  {
    hide Exec, Int32;
    if i == n {
      t := m;
      assert CopyBack(i, n) + rest == rest;
    } else {
      assert CopyBack(i, n) + rest == CopyOne(i) + (CopyBack(i + 1, n) + rest);
      var m1 := CopyOneRuns(i, n, CopyBack(i + 1, n) + rest, m, f);
      t := CopyBackRuns(i + 1, n, rest, m1, f);
      PrefixOf(t.mem.params, m1.mem.params, i);
      forall k | i < k < n ensures Slot(m1.mem.params, k) == Slot(m.mem.params, k) {
        SuffixSlot(m1.mem.params, m.mem.params, i + 1, k);
      }
    }
  }

  lemma PrefixOf(a: seq<Byte>, b: seq<Byte>, i: nat)
    requires 8 * (i + 1) <= |a| && 8 * (i + 1) <= |b| && a[..8 * (i + 1)] == b[..8 * (i + 1)]
    ensures a[..8 * i] == b[..8 * i] && Slot(a, i) == Slot(b, i)
  {
    assert a[..8 * i] == a[..8 * (i + 1)][..8 * i] && b[..8 * i] == b[..8 * (i + 1)][..8 * i];
    assert Slot(a, i) == a[..8 * (i + 1)][8 * i..] && Slot(b, i) == b[..8 * (i + 1)][8 * i..];
  }

  lemma SuffixSlot(a: seq<Byte>, b: seq<Byte>, i: nat, k: nat)
    requires i <= k && 8 * k + 8 <= |a| && |a| == |b| && a[8 * i..] == b[8 * i..]
    ensures Slot(a, k) == Slot(b, k)
  {
    var at := 8 * k - 8 * i;
    assert Slot(a, k) == a[8 * i..][at..at + 8] && Slot(b, k) == b[8 * i..][at..at + 8];
  }

  lemma CopyOneRuns(i: nat, n: nat, rest: seq<Ins>, m: Machine, f: Callback) returns (t: Machine)
    requires i < n && !m.fault && |m.mem.params| == 8 * n && |m.mem.args| == 8 * n
    requires VParams in m.regs && m.regs[VParams] == Addr(Params) && HoldsWord(m, OutCountValue)
    ensures Exec(CopyOne(i) + rest, m, f) == Exec(rest, t, f)
    ensures !t.fault && t.passed == m.passed && t.mem == m.mem.(params := t.mem.params) && |t.mem.params| == 8 * n
    ensures Keeps(m, t, (r: VReg) => r.CopiedArg?)
    ensures t.mem.params[..8 * i] == m.mem.params[..8 * i] && t.mem.params[8 * (i + 1)..] == m.mem.params[8 * (i + 1)..]
    ensures Slot(t.mem.params, i) == if Int32(m.regs[OutCountValue].bits) > i then Slot(m.mem.args, i)
                                     else Slot(m.mem.params, i)
  {
    hide Exec, Int32;
    var src, dst := OnStack(Args, 8 * i), Via(VParams, 8 * i);
    JumpRuns(i, rest, m, f);
    if Int32(m.regs[OutCountValue].bits) <= i {
      t := m;
    } else {
      var move := [Load(CopiedArg(i), src, 8, false, false), Store(dst, CopiedArg(i), 8)];
      MoveRuns(CopiedArg(i), src, dst, [Bind(i)] + rest, m, f);
      var b := Fetch(m, src, 8);
      t := Write(SetReg(m, CopiedArg(i), Word(false, b)), dst, b);
      BindRuns(i, rest, t, f);
    }
  }

  lemma BindRuns(i: nat, rest: seq<Ins>, m: Machine, f: Callback)
    requires !m.fault
    ensures Exec([Bind(i)] + rest, m, f) == Exec(rest, m, f)
  {
    assert ([Bind(i)] + rest)[1..] == rest;
  }

  // The jump of slot i either falls into its copy or lands behind it.
  lemma JumpRuns(i: nat, rest: seq<Ins>, m: Machine, f: Callback)
    requires !m.fault && HoldsWord(m, OutCountValue)
    ensures var copy := [Load(CopiedArg(i), OnStack(Args, 8 * i), 8, false, false),
                         Store(Via(VParams, 8 * i), CopiedArg(i), 8)];
            Exec(CopyOne(i) + rest, m, f) ==
            if Int32(m.regs[OutCountValue].bits) <= i then Exec(rest, m, f) else Exec(copy + ([Bind(i)] + rest), m, f)
  {
    hide Int32, Do;
    var i1, i2 := Load(CopiedArg(i), OnStack(Args, 8 * i), 8, false, false),
        Store(Via(VParams, 8 * i), CopiedArg(i), 8);
    var code := CopyOne(i) + rest;
    assert code[1..] == [i1, i2] + ([Bind(i)] + rest);
    assert code[1..][1..][1..][1..] == rest;
    assert code[1..][1..][1..][0] == Bind(i);
    assert SkipTo(code[1..], i) == SkipTo(code[1..][1..], i) == SkipTo(code[1..][1..][1..], i) == rest;
  }

  lemma OpeningRuns(sig: Signature, mode: Mode, rest: seq<Ins>, m: Machine, original: seq<Byte>, f: Callback)
    returns (t: Machine)
    requires Entered(sig, mode, m, original)
    ensures Exec(Opening(sig, mode) + rest, m, f) == Exec(rest, t, f)
    ensures !t.fault && t.passed.None? && Keeps(m, t, (r: VReg) => !Inputs(r))
    ensures t.mem == if mode.Before? then m.mem.(args := m.mem.params, outCount := Zeros(4)) else m.mem
    ensures mode.Before? ==>
              ArgsBase in t.regs && t.regs[ArgsBase] == (if |sig.args| > 0 then Addr(Args)
                                                         else Word(false, Zeros(8))) &&
              OutCountBase in t.regs && t.regs[OutCountBase] == Addr(OutCount)
  {
    hide Exec, SaveArgs;
    if mode.Before? {
      var n := |sig.args|;
      var i0 := StoreZero32(OnStack(OutCount, 0));
      var i1 := if n > 0 then Lea(ArgsBase, Args) else Zero(ArgsBase);
      var i2 := Lea(OutCountBase, OutCount);
      assert Opening(sig, mode) + rest == SaveArgs(0, n) + ([i0] + ([i1] + ([i2] + rest)));
      var m1 := SaveArgsRuns(0, n, [i0] + ([i1] + ([i2] + rest)), m, f);
      assert m1.mem.args == m.mem.params;
      DoRuns(i0, [i1] + ([i2] + rest), m1, f);
      var m2 := Do(i0, m1, f);
      assert m2.mem.outCount == Zeros(4);
      DoRuns(i1, [i2] + rest, m2, f);
      var m3 := Do(i1, m2, f);
      DoRuns(i2, rest, m3, f);
      t := Do(i2, m3, f);
    } else {
      t := m;
      assert Opening(sig, mode) + rest == rest;
    }
  }

  lemma DoRuns(i: Ins, rest: seq<Ins>, m: Machine, f: Callback)
    requires !m.fault && !i.Ret? && !i.JumpIfLessEqual?
    ensures Exec([i] + rest, m, f) == Exec(rest, Do(i, m, f), f)
  {
    hide Do;
    assert ([i] + rest)[1..] == rest;
  }

  lemma OrigReturnRuns(sig: Signature, mode: Mode, rest: seq<Ins>, m: Machine, f: Callback) returns (t: Machine)
    requires !m.fault && |m.mem.rv| == 8 && (mode.After? ==> VRv in m.regs && m.regs[VRv] == Addr(Rv))
    ensures Exec(OrigReturnLoad(sig, mode) + rest, m, f) == Exec(rest, t, f)
    ensures !t.fault && t.passed == m.passed && t.mem == m.mem && Keeps(m, t, (r: VReg) => r.OrigReturn?)
    ensures mode.After? && !sig.returnType.Void? ==>
              OrigReturn in t.regs && t.regs[OrigReturn] == Typed(sig.returnType, m.mem.rv)
  {
    hide Exec, Extend;
    if mode.After? && !sig.returnType.Void? {
      var src, ty := Via(VRv, 0), sig.returnType;
      LoadRuns(OrigReturn, src, Width(ty), IsFloat(ty), IsSigned(ty), rest, m, f);
      assert Fetch(m, src, Width(ty)) == m.mem.rv[..Width(ty)];
      t := SetReg(m, OrigReturn, Typed(ty, m.mem.rv));
    } else {
      t := m;
      assert OrigReturnLoad(sig, mode) + rest == rest;
    }
  }

  // Everything is in its register when the callback is called.
  ghost predicate Ready(sig: Signature, mode: Mode, mem: Memory, original: seq<Byte>, m: Machine)
    requires |mem.params| == 8 * |sig.args| && |mem.rv| == 8
  {
    var regs, leading := LeadingRegs(sig, mode), Leading(sig, mode, mem.rv, original);
    && (forall k :: 0 <= k < |regs| ==> regs[k] in m.regs && m.regs[regs[k]] == leading[k])
    && (forall k :: 0 <= k < |sig.args| ==>
          TypedArg(k) in m.regs && m.regs[TypedArg(k)] == Typed(sig.args[k], Slot(mem.params, k)))
  }

  lemma CallRuns(sig: Signature, mode: Mode, mem: Memory, original: seq<Byte>, rest: seq<Ins>, m: Machine, f: Callback)
    returns (t: Machine, e: Effect)
    requires !m.fault && |mem.params| == 8 * |sig.args| && |mem.rv| == 8 && Ready(sig, mode, mem, original, m)
    ensures Exec([Call(sig, mode)] + rest, m, f) == Exec(rest, t, f)
    ensures !t.fault && t.passed.Some? && PassedRight(sig, mode, mem, original, t.passed.value)
    ensures e == f(t.passed.value, m.mem.args, m.mem.outCount)
    ensures t.mem == m.mem.(args := e.args, outCount := e.outCount) && Keeps(m, t, (r: VReg) => r.Returned?)
    ensures WantsReturn(sig, mode) ==> Returned in t.regs && t.regs[Returned] == Word(IsFloat(sig.returnType), e.ret)
  {
    hide Exec, PassedRight, Ready, Do, LeadingRegs;
    DoRuns(Call(sig, mode), rest, m, f);
    t := Do(Call(sig, mode), m, f);
    e := CallEffect(sig, mode, mem, original, m, f);
  }

  lemma CallEffect(sig: Signature, mode: Mode, mem: Memory, original: seq<Byte>, m: Machine, f: Callback)
    returns (e: Effect)
    requires !m.fault && |mem.params| == 8 * |sig.args| && |mem.rv| == 8 && Ready(sig, mode, mem, original, m)
    ensures var t := Do(Call(sig, mode), m, f);
            !t.fault && t.passed.Some? && PassedRight(sig, mode, mem, original, t.passed.value) &&
            e == f(t.passed.value, m.mem.args, m.mem.outCount) &&
            t.mem == m.mem.(args := e.args, outCount := e.outCount) && Keeps(m, t, (r: VReg) => r.Returned?) &&
            (WantsReturn(sig, mode) ==> Returned in t.regs && t.regs[Returned] == Word(IsFloat(sig.returnType), e.ret))
  {
    hide Exec, PassedRight, Ready, LeadingRegs, Typed;
    var regs := LeadingRegs(sig, mode) + TypedRegs(|sig.args|);
    RegsReady(sig, mode, mem, original, m);
    var passed := seq(|regs|, k requires 0 <= k < |regs| => m.regs[regs[k]]);
    PassedInOrder(sig, mode, mem, original, m, passed);
    e := f(passed, m.mem.args, m.mem.outCount);
  }

  lemma RegsReady(sig: Signature, mode: Mode, mem: Memory, original: seq<Byte>, m: Machine)
    requires |mem.params| == 8 * |sig.args| && |mem.rv| == 8 && Ready(sig, mode, mem, original, m)
    ensures var regs := LeadingRegs(sig, mode) + TypedRegs(|sig.args|); forall k :: 0 <= k < |regs| ==>
            regs[k] in m.regs
  {
    hide Typed, Slot;
  }

  lemma PassedInOrder(sig: Signature, mode: Mode, mem: Memory, original: seq<Byte>, m: Machine, passed: seq<Val>)
    requires |mem.params| == 8 * |sig.args| && |mem.rv| == 8 && Ready(sig, mode, mem, original, m)
    requires var regs := LeadingRegs(sig, mode) + TypedRegs(|sig.args|);
             |passed| == |regs| && forall k :: 0 <= k < |regs| ==> regs[k] in m.regs && passed[k] == m.regs[regs[k]]
    ensures PassedRight(sig, mode, mem, original, passed)
  {
    hide Typed, Slot, Leading, LeadingRegs, Ready;
    var leading := Leading(sig, mode, mem.rv, original);
    SameLength(sig, mode, mem.rv, original);
    forall k | 0 <= k < |leading| ensures passed[k] == leading[k] {
      assert (LeadingRegs(sig, mode) + TypedRegs(|sig.args|))[k] == LeadingRegs(sig, mode)[k];
      LeadingPassed(sig, mode, mem, original, m, passed, k);
    }
    assert passed[..|leading|] == leading;
    forall i | 0 <= i < |sig.args| ensures passed[|leading| + i] == Typed(sig.args[i], Slot(mem.params, i)) {
      TypedPassed(sig, mode, mem, original, m, passed, i);
    }
  }

  lemma SameLength(sig: Signature, mode: Mode, rv: seq<Byte>, original: seq<Byte>)
    requires |rv| == 8
    ensures |LeadingRegs(sig, mode)| == |Leading(sig, mode, rv, original)|
  {
    hide Typed;
  }

  lemma LeadingPassed(sig: Signature, mode: Mode, mem: Memory, original: seq<Byte>, m: Machine, passed: seq<Val>,
                      k: nat)
    requires |mem.params| == 8 * |sig.args| && |mem.rv| == 8 && Ready(sig, mode, mem, original, m) &&
             k < |LeadingRegs(sig, mode)|
    requires |passed| > k && LeadingRegs(sig, mode)[k] in m.regs &&
             passed[k] == m.regs[(LeadingRegs(sig, mode) + TypedRegs(|sig.args|))[k]]
    ensures k < |Leading(sig, mode, mem.rv, original)| && passed[k] == Leading(sig, mode, mem.rv, original)[k]
  {
    hide Typed, Slot;
  }

  lemma TypedPassed(sig: Signature, mode: Mode, mem: Memory, original: seq<Byte>, m: Machine, passed: seq<Val>, i: nat)
    requires |mem.params| == 8 * |sig.args| && |mem.rv| == 8 && Ready(sig, mode, mem, original, m) && i < |sig.args|
    requires var k := |LeadingRegs(sig, mode)| + i; var regs := LeadingRegs(sig, mode) + TypedRegs(|sig.args|);
             k < |passed| && regs[k] in m.regs && passed[k] == m.regs[regs[k]]
    ensures passed[|LeadingRegs(sig, mode)| + i] == Typed(sig.args[i], Slot(mem.params, i))
  {
    hide Typed, Slot, LeadingRegs, Leading;
    SameLength(sig, mode, mem.rv, original);
    assert TypedRegs(|sig.args|)[i] == TypedArg(i);
  }

  lemma ClosingRuns(sig: Signature, mode: Mode, mem: Memory, e: Effect, m: Machine, f: Callback) returns (t: Machine)
    requires !m.fault && |mem.params| == 8 * |sig.args| && |mem.rv| == 8 && |e.ret| == 8 && |e.outCount| == 4
    requires mode.Before? ==> |e.args| == 8 * |sig.args|
    requires VParams in m.regs && m.regs[VParams] == Addr(Params) &&
             (WantsReturn(sig, mode) ==> VRv in m.regs && m.regs[VRv] == Addr(Rv))
    requires m.mem == mem.(args := e.args, outCount := e.outCount)
    requires WantsReturn(sig, mode) ==> Returned in m.regs && m.regs[Returned] == Word(IsFloat(sig.returnType), e.ret)
    ensures Exec(Closing(sig, mode) + [Ret], m, f) == t && !t.fault && t.passed == m.passed &&
            LeftRight(sig, mode, mem, e, t.mem)
  {
    hide Exec, CopyBack, Int32;
    RetRuns(m, f);
    if mode.Before? {
      t := CopyingRuns(sig, e.outCount, m, f);
    } else if WantsReturn(sig, mode) && !sig.returnType.Void? {
      var w := Width(sig.returnType);
      StoreRuns(Via(VRv, 0), Returned, w, [Ret], m, f);
      t := Write(m, Via(VRv, 0), e.ret[..w]);
      RetRuns(t, f);
    } else {
      t := m;
      assert Closing(sig, mode) + [Ret] == [Ret];
    }
  }

  lemma RetRuns(m: Machine, f: Callback)
    ensures Exec([Ret], m, f) == m
  {}

  // The end of a Before thunk.
  lemma CopyingRuns(sig: Signature, count: seq<Byte>, m: Machine, f: Callback) returns (t: Machine)
    requires !m.fault && |m.mem.params| == 8 * |sig.args| && |m.mem.args| == 8 * |sig.args| &&
             m.mem.outCount == count && |count| == 4
    requires VParams in m.regs && m.regs[VParams] == Addr(Params)
    ensures Exec(Closing(sig, Before) + [Ret], m, f) == t && !t.fault && t.passed == m.passed
    ensures t.mem == m.mem.(params := t.mem.params) && |t.mem.params| == |m.mem.params|
    ensures forall k :: 0 <= k < |sig.args| ==>
              Slot(t.mem.params, k) == if Int32(count) > k then Slot(m.mem.args, k) else Slot(m.mem.params, k)
  {
    hide Exec, CopyBack, Int32;
    var n := |sig.args|;
    var i0 := Load(OutCountValue, OnStack(OutCount, 0), 4, false, false);
    assert Closing(sig, Before) + [Ret] == [i0] + (CopyBack(0, n) + [Ret]);
    LoadRuns(OutCountValue, OnStack(OutCount, 0), 4, false, false, CopyBack(0, n) + [Ret], m, f);
    var bits := Extend(Fetch(m, OnStack(OutCount, 0), 4), false);
    assert bits[..4] == count;
    SameInt32(bits, count);
    var m1 := SetReg(m, OutCountValue, Word(false, bits));
    t := CopyBackRuns(0, n, [Ret], m1, f);
    RetRuns(t, f);
  }

  lemma SameInt32(a: seq<Byte>, b: seq<Byte>)
    requires |a| >= 4 && |b| == 4 && a[..4] == b
    ensures Int32(a) == Int32(b)
  {
    assert a[0] == a[..4][0] && a[1] == a[..4][1] && a[2] == a[..4][2] && a[3] == a[..4][3];
  }

  // ---- The theorem -----------------------------------------------------------

  // For every signature, every contents of the slots and of the return word, and whatever the
  // callback does: the emitted code runs without a fault, calls the callback with exactly the
  // mode's arguments, and leaves behind exactly what the mode promises.
  lemma ThunkMeetsContract(sig: Signature, mode: Mode, m: Machine, original: seq<Byte>, f: Callback)
    requires !mode.Mid? && Entered(sig, mode, m, original) && WellBehaved(f)
    ensures var t := Exec(Thunk(sig, mode), m, f);
            !t.fault && t.passed.Some? && PassedRight(sig, mode, m.mem, original, t.passed.value) &&
            var e := if mode.Before? then f(t.passed.value, m.mem.params, Zeros(4))
                                     else f(t.passed.value, m.mem.args, m.mem.outCount);
            LeftRight(sig, mode, m.mem, e, t.mem)
  {
    hide Exec, Opening, UnpackArgs, OrigReturnLoad, Call, Closing, Typed, Zeros, PassedRight, LeftRight;
    var c1 := OrigReturnLoad(sig, mode) + ([Call(sig, mode)] + (Closing(sig, mode) + [Ret]));
    var m1 := OpeningRuns(sig, mode, UnpackArgs(sig.args, 0) + c1, m, original, f);
    var m2 := UnpackRuns(sig.args, 0, c1, m1, f);
    var m3 := OrigReturnRuns(sig, mode, [Call(sig, mode)] + (Closing(sig, mode) + [Ret]), m2, f);
    assert Ready(sig, mode, m.mem, original, m3);
    var m4, e := CallRuns(sig, mode, m.mem, original, Closing(sig, mode) + [Ret], m3, f);
    assert |m3.mem.outCount| == 4 by { ZerosLength(); }
    var t := ClosingRuns(sig, mode, m.mem, e, m4, f);
  }

  // The number of bytes a typed return takes.
  function ReturnBytes(t: Type): nat {
    match t
    case Void => 0
    case I8 => 1 case U8 => 1 case Bool => 1
    case I16 => 2 case U16 => 2
    case I32 => 4 case U32 => 4 case F32 => 4
    case I64 => 8 case U64 => 8 case F64 => 8 case Ptr => 8 case Wstr => 8 case Cstr => 8
  }

  // How many arguments the mode puts before the typed ones.
  function Prepended(sig: Signature, mode: Mode): nat {
    if mode.Before? then 2
    else if mode.Around? || (mode.After? && !sig.returnType.Void?) then 1
    else 0
  }

  // What the callback sees, said in numbers: behind what the mode puts first, argument i is the number
  // its type reads from slot i.
  ghost predicate Sees(sig: Signature, mode: Mode, mem: Memory, original: seq<Byte>, p: seq<Val>)
    requires |mem.params| == 8 * |sig.args| && |mem.rv| == 8
  {
    var k := Prepended(sig, mode);
    && |p| == k + |sig.args|
    && (mode.Before? ==> p[1] == Addr(OutCount) && (sig.args != [] ==> p[0] == Addr(Args)))
    && (mode.Around? ==> p[0] == Word(false, original))
    && (mode.After? && k == 1 ==> p[0].Word? && ReadsAs(sig.returnType, mem.rv, p[0].bits))
    && forall i :: 0 <= i < |sig.args| ==> SeesArgument(sig.args[i], Slot(mem.params, i), p[k + i])
  }

  ghost predicate SeesArgument(t: Type, slot: seq<Byte>, v: Val)
    requires |slot| >= 8
  {
    v.Word? && ReadsAs(t, slot, v.bits) && (v.xmm <==> t.F32? || t.F64?)
  }

  // What it leaves in the return word: the bytes of its type where the mode takes the callback's return,
  // and nothing otherwise.
  ghost predicate Returns(sig: Signature, mode: Mode, rv: seq<Byte>, ret: seq<Byte>, after: seq<Byte>) {
    |rv| == 8 && |after| == 8 &&
    if mode.Around? || mode.Replace? || mode.After? then
      var w := ReturnBytes(sig.returnType);
      |ret| == 8 && after[..w] == ret[..w] && after[w..] == rv[w..]
    else after == rv
  }

  lemma RightIsSeen(sig: Signature, mode: Mode, mem: Memory, original: seq<Byte>, p: seq<Val>)
    requires !mode.Mid? && |mem.params| == 8 * |sig.args| && |mem.rv| == 8 && PassedRight(sig, mode, mem, original, p)
    ensures Sees(sig, mode, mem, original, p)
  {
    hide Extend, ReadsAs, Width, IsSigned, Zeros, Slot;
    TypedLoadReads(sig.returnType, mem.rv);
    var k, leading := Prepended(sig, mode), Leading(sig, mode, mem.rv, original);
    assert |leading| == k;
    forall i | 0 <= i < k ensures p[i] == leading[i] { assert p[..k][i] == leading[i]; }
    if mode.After? && k == 1 { assert p[0] == leading[0] == Typed(sig.returnType, mem.rv); }
    if mode.Around? { assert p[0] == leading[0]; }
    if mode.Before? { assert p[0] == leading[0] && p[1] == leading[1]; }
    forall i | 0 <= i < |sig.args| ensures SeesArgument(sig.args[i], Slot(mem.params, i), p[k + i]) {
      TypedLoadReads(sig.args[i], Slot(mem.params, i));
      assert p[k + i] == Typed(sig.args[i], Slot(mem.params, i));
    }
  }

  lemma RightIsReturned(sig: Signature, mode: Mode, mem: Memory, e: Effect, after: Memory)
    requires |mem.params| == 8 * |sig.args| && |mem.rv| == 8 && LeftRight(sig, mode, mem, e, after)
    ensures Returns(sig, mode, mem.rv, e.ret, after.rv)
  {
    hide Int32, Slot;
    assert after.rv[0..] == after.rv && mem.rv[0..] == mem.rv;
  }

  // So it is for every signature, every contents of memory and every callback.
  lemma CallbackSees(sig: Signature, mode: Mode, m: Machine, original: seq<Byte>, f: Callback)
    requires !mode.Mid? && Entered(sig, mode, m, original) && WellBehaved(f)
    ensures var t := Exec(Thunk(sig, mode), m, f);
            t.passed.Some? && Sees(sig, mode, m.mem, original, t.passed.value) &&
            Returns(sig, mode, m.mem.rv, f(t.passed.value, m.mem.args, m.mem.outCount).ret, t.mem.rv)
  {
    hide Exec, Thunk, PassedRight, LeftRight, Sees;
    ThunkMeetsContract(sig, mode, m, original, f);
    var t := Exec(Thunk(sig, mode), m, f);
    RightIsSeen(sig, mode, m.mem, original, t.passed.value);
    var e := if mode.Before? then f(t.passed.value, m.mem.params, Zeros(4))
             else f(t.passed.value, m.mem.args, m.mem.outCount);
    RightIsReturned(sig, mode, m.mem, e, t.mem);
  }

  lemma ZerosLength()
    ensures |Zeros(4)| == 4
  {}

  // A callback that leaves outCount alone, or sets it negative, changes no argument; one that sets
  // it to the number of arguments or beyond replaces them all.
  lemma BeforeExtremes(sig: Signature, mem: Memory, e: Effect, after: Memory)
    requires |mem.params| == 8 * |sig.args| && |mem.rv| == 8 && LeftRight(sig, Before, mem, e, after)
    ensures Int32(Zeros(4)) == 0
    ensures Int32(e.outCount) <= 0 ==> after.params == mem.params
    ensures Int32(e.outCount) >= |sig.args| ==> after.params == e.args
  {
    if Int32(e.outCount) <= 0 { SameSlots(after.params, mem.params, |sig.args|); }
    if Int32(e.outCount) >= |sig.args| { SameSlots(after.params, e.args, |sig.args|); }
  }

  lemma SameSlots(a: seq<Byte>, b: seq<Byte>, n: nat)
    requires |a| == 8 * n && |b| == 8 * n && forall i :: 0 <= i < n ==> Slot(a, i) == Slot(b, i)
    ensures a == b
  {
    forall k | 0 <= k < 8 * n ensures a[k] == b[k] {
      var i := k / 8;
      assert 8 * i <= k < 8 * i + 8 && i < n;
      assert Slot(a, i)[k - 8 * i] == a[k] && Slot(b, i)[k - 8 * i] == b[k];
    }
  }

  // Loading after storing: whatever a Replace or Around thunk stored as the typed return, an After
  // thunk that runs next hands on as the original return, byte for byte.
  lemma ReturnIsHandedOn(sig: Signature, mode: Mode, m: Machine, f: Callback, m2: Machine, g: Callback,
                         original: seq<Byte>)
    requires (mode.Replace? || mode.Around?) && !sig.returnType.Void? && WellBehaved(f) && WellBehaved(g)
    requires Entered(sig, mode, m, original) && Entered(sig, After, m2, original)
    requires m2.mem.rv == Exec(Thunk(sig, mode), m, f).mem.rv
    ensures var t := Exec(Thunk(sig, mode), m, f); var t2 := Exec(Thunk(sig, After), m2, g);
            t.passed.Some? && t2.passed.Some? && |t2.passed.value| > 0 &&
            var ret := f(t.passed.value, m.mem.args, m.mem.outCount).ret; var w := Width(sig.returnType);
            |ret| == 8 && t2.passed.value[0] == Word(IsFloat(sig.returnType),
                                                     Extend(ret[..w], IsSigned(sig.returnType)))
  {
    hide Exec, Thunk, Extend;
    ThunkMeetsContract(sig, mode, m, original, f);
    ThunkMeetsContract(sig, After, m2, original, g);
  }

  // ---- The signatures of the call --------------------------------------------

  datatype TypeId = KVoid | KInt8 | KUInt8 | KInt16 | KInt32 | KInt64 | KFloat32 | KFloat64 | KUIntPtr

  // SigTypeToAbiString followed by get_type_id: the unsigned types ride under the signed ids.
  function TypeIdOf(t: Type): TypeId {
    match t
    case Void => KVoid
    case Bool => KUInt8
    case I8 => KInt8 case U8 => KInt8
    case I16 => KInt16 case U16 => KInt16
    case I32 => KInt32 case U32 => KInt32
    case I64 => KInt64 case U64 => KInt64
    case F32 => KFloat32
    case F64 => KFloat64
    case Ptr => KUIntPtr case Wstr => KUIntPtr case Cstr => KUIntPtr
  }

  predicate IsXmm(id: TypeId) {
    id.KFloat32? || id.KFloat64?
  }

  function SizeOfId(id: TypeId): nat {
    match id
    case KVoid => 0
    case KInt8 => 1 case KUInt8 => 1
    case KInt16 => 2
    case KInt32 => 4 case KFloat32 => 4
    case KInt64 => 8 case KFloat64 => 8 case KUIntPtr => 8
  }

  datatype CallSig = CallSig(ret: TypeId, args: seq<TypeId>)

  // CFnSigFor: how the author's function is declared.
  function CFnSigFor(sig: Signature, mode: Mode): CallSig {
    var ret := if mode.After? || mode.Around? || mode.Replace? then TypeIdOf(sig.returnType) else KVoid;
    var leading :=
      match mode
      case Before => [KUIntPtr, KUIntPtr]
      case Around => [KUIntPtr]
      case After => if sig.returnType.Void? then [] else [TypeIdOf(sig.returnType)]
      case _ => [];
    CallSig(ret, leading + seq(|sig.args|, i requires 0 <= i < |sig.args| => TypeIdOf(sig.args[i])))
  }

  // Whether a value can be passed under a type id: the register class is the id's.
  predicate Fits(v: Val, id: TypeId) {
    match v
    case Addr(_) => id.KUIntPtr?
    case Word(xmm, _) => !id.KVoid? && xmm == IsXmm(id)
  }

  // What the thunk passes agrees with the declared signature of the callback, position by position,
  // and the bytes loaded for a typed argument are as many as its type id has.
  lemma CallMatchesSignature(sig: Signature, mode: Mode, mem: Memory, original: seq<Byte>, passed: seq<Val>)
    requires !mode.Mid? && |mem.params| == 8 * |sig.args| && |mem.rv| == 8 &&
             PassedRight(sig, mode, mem, original, passed)
    requires forall a :: a in sig.args ==> !a.Void?
    ensures var c := CFnSigFor(sig, mode);
            |c.args| == |passed| && (forall i :: 0 <= i < |passed| ==> Fits(passed[i], c.args[i])) &&
            (WantsReturn(sig, mode) ==> c.ret == TypeIdOf(sig.returnType) && IsXmm(c.ret) == IsFloat(sig.returnType)) &&
            (mode.Before? || mode.Callsite? ==> c.ret == KVoid)
    ensures forall t: Type :: !t.Void? ==> SizeOfId(TypeIdOf(t)) == Width(t) && IsXmm(TypeIdOf(t)) == IsFloat(t)
  {
    hide Typed, CFnSigFor;
    LeadingFits(sig, mode, mem.rv, original);
    var c := CFnSigFor(sig, mode);
    var leading := Leading(sig, mode, mem.rv, original);
    forall i | 0 <= i < |passed| ensures Fits(passed[i], c.args[i]) {
      if i < |leading| {
        assert passed[i] == passed[..|leading|][i];
      } else {
        var k := i - |leading|;
        assert passed[|leading| + k] == Typed(sig.args[k], Slot(mem.params, k));
        TypedFits(sig.args[k], Slot(mem.params, k));
        assert sig.args[k] in sig.args;
      }
    }
    ReturnFits(sig, mode);
  }

  lemma TypedFits(t: Type, slot: seq<Byte>)
    requires |slot| >= 8
    ensures !t.Void? ==> Fits(Typed(t, slot), TypeIdOf(t))
  {
    hide Extend;
  }

  lemma ReturnFits(sig: Signature, mode: Mode)
    ensures var c := CFnSigFor(sig, mode);
            (WantsReturn(sig, mode) ==> c.ret == TypeIdOf(sig.returnType) && IsXmm(c.ret) == IsFloat(sig.returnType)) &&
            (mode.Before? || mode.Callsite? ==> c.ret == KVoid)
  {}

  // The prepended positions, and where the typed ones begin.
  lemma LeadingFits(sig: Signature, mode: Mode, rv: seq<Byte>, original: seq<Byte>)
    requires |rv| == 8 && !mode.Mid?
    ensures var c := CFnSigFor(sig, mode); var leading := Leading(sig, mode, rv, original);
            |c.args| == |leading| + |sig.args| &&
            (forall i :: 0 <= i < |leading| ==> Fits(leading[i], c.args[i])) &&
            (forall i :: 0 <= i < |sig.args| ==> c.args[|leading| + i] == TypeIdOf(sig.args[i]))
  {
    hide Typed, TypeIdOf;
    TypedFits(sig.returnType, rv);
  }
}
