/**
  Pulley operations and their encoding, for any table of operations.

  An operand is read and written as one or two little-endian words.  What the words of a type look like
  is all that the codec depends on.
 */
module PulleyOps {
  import opened Bits
  import opened Packing

  datatype RegClass = X | F | V

  datatype FieldType =
    | U(bytes: nat)
    | I(bytes: nat)
    | Reg(bank: RegClass)
    | PcRel
    | Binary(dst: RegClass, src1: RegClass, src2: RegClass)
    | BinaryU6(dst: RegClass, src1: RegClass)
    | UpperRegs(bank: RegClass)
    | O32
    | Z
    | G32
    | G32Bne

  datatype Operand =
    | Num(value: int)
    | RegIndex(index: nat)
    | BinaryOperands(dst: nat, src1: nat, src2: nat)
    | RegOffset(addr: nat, offset: int)
    | AddrG32(base: nat, bound: nat, wasm: nat, displacement: nat)
    | AddrG32Bne(base: nat, boundAddr: nat, boundOffset: nat, wasm: nat, displacement: nat)

  /** The ordinary operations and the extended ones, each with the types of its fields. */
  datatype OpTable = OpTable(ops: seq<seq<FieldType>>, extended: seq<seq<FieldType>>)

  datatype Op = Op(isExtended: bool, code: nat, fields: seq<Operand>)

  predicate TypeOk(ty: FieldType) {
    ty.U? || ty.I? ==> ty.bytes in {1, 2, 4, 8, 16}
  }

  /** The opcode after the ordinary ones announces an extended one, so at most 255 fit in a byte. */
  predicate TableOk(t: OpTable) {
    && |t.ops| <= 255
    && 0 < |t.extended| <= 0x1_0000
    && (forall k :: 0 <= k < |t.ops| ==> forall ty :: ty in t.ops[k] ==> TypeOk(ty))
    && (forall k :: 0 <= k < |t.extended| ==> forall ty :: ty in t.extended[k] ==> TypeOk(ty))
  }

  predicate IsReg(r: nat) {
    r < 32
  }

  predicate Fits(ty: FieldType, v: Operand) {
    match ty
    case U(n) => v.Num? && 0 <= v.value < Limit(n)
    case I(n) => v.Num? && SignedFits(n, v.value)
    case Reg(_) => v.RegIndex? && IsReg(v.index)
    case PcRel => v.Num? && SignedFits(4, v.value)
    case Binary(_, _, _) => v.BinaryOperands? && IsReg(v.dst) && IsReg(v.src1) && IsReg(v.src2)
    case BinaryU6(_, _) => v.BinaryOperands? && IsReg(v.dst) && IsReg(v.src1) && v.src2 < 0x40
    case UpperRegs(_) => v.Num? && 0 <= v.value < Limit(2)
    case O32 => v.RegOffset? && IsReg(v.addr) && SignedFits(4, v.offset)
    case Z => v.RegOffset? && IsReg(v.addr) && SignedFits(4, v.offset)
    case G32 => v.AddrG32? && IsReg(v.base) && IsReg(v.bound) && IsReg(v.wasm) && v.displacement < 0x1_0000
    case G32Bne => v.AddrG32Bne? && IsReg(v.base) && IsReg(v.boundAddr) && IsReg(v.wasm)
                   && v.boundOffset < 0x100 && v.displacement < 0x100
  }

  // ----- Words -----

  /** One read: its size, whether only register numbers are valid, and whether the top bit is ignored. */
  datatype Atom = Atom(bytes: nat, reg: bool, spare: bool)

  function Atoms(ty: FieldType): (r: seq<Atom>)
    ensures 1 <= |r| <= 2
  {
    match ty
    case U(n) => [Atom(n, false, false)]
    case I(n) => [Atom(n, false, false)]
    case Reg(_) => [Atom(1, true, false)]
    case PcRel => [Atom(4, false, false)]
    case Binary(_, _, _) => [Atom(2, false, true)]
    case BinaryU6(_, _) => [Atom(2, false, false)]
    case UpperRegs(_) => [Atom(2, false, false)]
    case O32 => [Atom(1, true, false), Atom(4, false, false)]
    case Z => [Atom(1, true, false), Atom(4, false, false)]
    case G32 => [Atom(4, false, true)]
    case G32Bne => [Atom(4, false, true)]
  }

  predicate RawWord(a: Atom, w: nat) {
    w < Limit(a.bytes) && (a.reg ==> IsReg(w))
  }

  /** The word that is written: an ignored bit is zero. */
  function Canon(a: Atom, w: nat): nat {
    if a.spare then w % (128 * Limit(if a.bytes == 0 then 0 else a.bytes - 1)) else w
  }

  function Words(ty: FieldType, v: Operand): seq<nat>
    requires Fits(ty, v)
  {
    match ty
    case U(n) => [v.value]
    case I(n) => [ToUnsigned(n, v.value)]
    case Reg(_) => [v.index]
    case PcRel => [ToUnsigned(4, v.value)]
    case Binary(_, _, _) => [PackBinary(v.dst, v.src1, v.src2)]
    case BinaryU6(_, _) => [PackBinary(v.dst, v.src1, v.src2)]
    case UpperRegs(_) => [v.value]
    case O32 => [v.addr, ToUnsigned(4, v.offset)]
    case Z => [v.addr, ToUnsigned(4, v.offset)]
    case G32 => [PackG32(v.base, v.bound, v.wasm, v.displacement)]
    case G32Bne => [PackG32Bne(v.base, v.boundAddr, v.boundOffset, v.wasm, v.displacement)]
  }

  ghost predicate RawWords(atoms: seq<Atom>, ws: seq<nat>) {
    |ws| == |atoms| && forall k :: 0 <= k < |ws| ==> RawWord(atoms[k], ws[k])
  }

  function FromWords(ty: FieldType, ws: seq<nat>): Operand
    requires RawWords(Atoms(ty), ws)
  {
    assert RawWord(Atoms(ty)[0], ws[0]);
    match ty
    case U(n) => Num(ws[0])
    case I(n) => Num(ToSigned(n, ws[0]))
    case Reg(_) => RegIndex(ws[0])
    case PcRel => Num(ToSigned(4, ws[0]))
    case Binary(_, _, _) => var u := UnpackBinary(ws[0]); BinaryOperands(u.0, u.1, u.2)
    case BinaryU6(_, _) => var u := UnpackBinaryU6(ws[0]); BinaryOperands(u.0, u.1, u.2)
    case UpperRegs(_) => Num(ws[0])
    case O32 => assert RawWord(Atoms(ty)[1], ws[1]); RegOffset(ws[0], ToSigned(4, ws[1]))
    case Z => assert RawWord(Atoms(ty)[1], ws[1]); RegOffset(ws[0], ToSigned(4, ws[1]))
    case G32 => var u := UnpackG32(ws[0]); AddrG32(u.0, u.1, u.2, u.3)
    case G32Bne => var u := UnpackG32Bne(ws[0]); AddrG32Bne(u.0, u.1, u.2, u.3, u.4)
  }

  /** What a type writes is canonical, and reading it gives the operand back. */
  lemma {:induction false} OperandWords(ty: FieldType, v: Operand)
    requires TypeOk(ty) && Fits(ty, v)
    ensures var ws := Words(ty, v);
            && RawWords(Atoms(ty), ws)
            && (forall k :: 0 <= k < |ws| ==> Canon(Atoms(ty)[k], ws[k]) == ws[k])
            && FromWords(ty, ws) == v
  {
    Limits();
    hide Limit, PackBinary, UnpackBinary, UnpackBinaryU6, PackG32, UnpackG32, PackG32Bne, UnpackG32Bne, ToSigned, ToUnsigned;
    match ty
    case U(n) =>
    case I(n) => SignedRoundTrip(n, v.value);
    case Reg(_) =>
    case PcRel => SignedRoundTrip(4, v.value);
    case Binary(_, _, _) => BinaryRoundTrip(v.dst, v.src1, v.src2);
    case BinaryU6(_, _) => BinaryRoundTrip(v.dst, v.src1, v.src2);
    case UpperRegs(_) =>
    case O32 => SignedRoundTrip(4, v.offset);
    case Z => SignedRoundTrip(4, v.offset);
    case G32 => G32RoundTrip(v.base, v.bound, v.wasm, v.displacement);
    case G32Bne => G32BneRoundTrip(v.base, v.boundAddr, v.boundOffset, v.wasm, v.displacement);
  }

  /** Whatever is read is an operand of the type, and is written as the canonical form of what was read. */
  lemma {:induction false} WordsOperand(ty: FieldType, ws: seq<nat>)
    requires TypeOk(ty) && RawWords(Atoms(ty), ws)
    ensures Fits(ty, FromWords(ty, ws))
    ensures var v := FromWords(ty, ws);
            |Words(ty, v)| == |ws| && forall k :: 0 <= k < |ws| ==> Words(ty, v)[k] == Canon(Atoms(ty)[k], ws[k])
  {
    Limits();
    hide Limit, PackBinary, UnpackBinary, UnpackBinaryU6, PackG32, UnpackG32, PackG32Bne, UnpackG32Bne, ToSigned, ToUnsigned;
    assert RawWord(Atoms(ty)[0], ws[0]);
    match ty
    case U(n) =>
    case I(n) => UnsignedRoundTrip(n, ws[0]);
    case Reg(_) =>
    case PcRel => UnsignedRoundTrip(4, ws[0]);
    case Binary(_, _, _) => BinaryWord(ws[0]);
    case BinaryU6(_, _) => BinaryWord(ws[0]);
    case UpperRegs(_) =>
    case O32 => assert RawWord(Atoms(ty)[1], ws[1]); UnsignedRoundTrip(4, ws[1]);
    case Z => assert RawWord(Atoms(ty)[1], ws[1]); UnsignedRoundTrip(4, ws[1]);
    case G32 => G32Word(ws[0]);
    case G32Bne => G32BneWord(ws[0]);
  }

  // ----- Encoding -----

  function EncodeWords(atoms: seq<Atom>, ws: seq<nat>): seq<Byte>
    requires |ws| == |atoms|
    decreases |atoms|
  {
    if atoms == [] then [] else LeBytes(atoms[0].bytes, ws[0]) + EncodeWords(atoms[1..], ws[1..])
  }

  function EncodeField(ty: FieldType, v: Operand): seq<Byte>
    requires TypeOk(ty) && Fits(ty, v)
  {
    OperandWords(ty, v);
    EncodeWords(Atoms(ty), Words(ty, v))
  }

  ghost predicate FieldsOk(tys: seq<FieldType>, vs: seq<Operand>) {
    && |vs| == |tys|
    && (forall ty :: ty in tys ==> TypeOk(ty))
    && forall k :: 0 <= k < |vs| ==> Fits(tys[k], vs[k])
  }

  function EncodeFields(tys: seq<FieldType>, vs: seq<Operand>): seq<Byte>
    requires FieldsOk(tys, vs)
    decreases |tys|
  {
    if tys == [] then []
    else
      assert tys[0] in tys && forall ty :: ty in tys[1..] ==> ty in tys;
      EncodeField(tys[0], vs[0]) + EncodeFields(tys[1..], vs[1..])
  }

  function TypesOf(t: OpTable, isExtended: bool, code: nat): seq<FieldType> {
    if isExtended then if code < |t.extended| then t.extended[code] else []
    else if code < |t.ops| then t.ops[code] else []
  }

  ghost predicate OpOk(t: OpTable, op: Op) {
    && op.code < (if op.isExtended then |t.extended| else |t.ops|)
    && FieldsOk(TypesOf(t, op.isExtended, op.code), op.fields)
  }

  /** One byte of opcode; for an extended operation the byte that says so and two more. */
  function Header(t: OpTable, op: Op): seq<Byte>
    requires TableOk(t) && OpOk(t, op)
  {
    if op.isExtended then LeBytes(1, |t.ops|) + LeBytes(2, op.code) else LeBytes(1, op.code)
  }

  function EncodeOp(t: OpTable, op: Op): seq<Byte>
    requires TableOk(t) && OpOk(t, op)
  {
    Header(t, op) + EncodeFields(TypesOf(t, op.isExtended, op.code), op.fields)
  }

  ghost predicate OpsOk(t: OpTable, ops: seq<Op>) {
    forall op :: op in ops ==> OpOk(t, op)
  }

  function EncodeOps(t: OpTable, ops: seq<Op>): seq<Byte>
    requires TableOk(t) && OpsOk(t, ops)
  {
    if ops == [] then [] else EncodeOp(t, ops[0]) + EncodeOps(t, ops[1..])
  }

  // ----- Widths -----

  function WidthOf(ty: FieldType): nat {
    match ty
    case U(n) => n
    case I(n) => n
    case Reg(_) => 1
    case PcRel => 4
    case Binary(_, _, _) => 2
    case BinaryU6(_, _) => 2
    case UpperRegs(_) => 2
    case O32 => 5
    case Z => 5
    case G32 => 4
    case G32Bne => 4
  }

  function WidthsOf(tys: seq<FieldType>): nat {
    if tys == [] then 0 else WidthOf(tys[0]) + WidthsOf(tys[1..])
  }

  function Width(t: OpTable, op: Op): nat {
    (if op.isExtended then 3 else 1) + WidthsOf(TypesOf(t, op.isExtended, op.code))
  }

  lemma {:induction false} FieldWidth(ty: FieldType, v: Operand)
    requires TypeOk(ty) && Fits(ty, v)
    ensures |EncodeField(ty, v)| == WidthOf(ty)
  {
    hide Words;
    OperandWords(ty, v);
    var atoms, ws := Atoms(ty), Words(ty, v);
    assert EncodeWords(atoms[1..], ws[1..]) ==
           if |atoms| == 1 then [] else LeBytes(atoms[1].bytes, ws[1]) + EncodeWords(atoms[2..], ws[2..]);
  }

  lemma {:induction false} FieldsWidth(tys: seq<FieldType>, vs: seq<Operand>)
    requires FieldsOk(tys, vs)
    ensures |EncodeFields(tys, vs)| == WidthsOf(tys)
    decreases |tys|
  {
    if tys != [] {
      assert tys[0] in tys && forall ty :: ty in tys[1..] ==> ty in tys;
      FieldWidth(tys[0], vs[0]);
      FieldsWidth(tys[1..], vs[1..]);
    }
  }

  /** `width` is the number of bytes that the operation is encoded in. */
  lemma WidthIsLength(t: OpTable, op: Op)
    requires TableOk(t) && OpOk(t, op)
    ensures |EncodeOp(t, op)| == Width(t, op) > 0
  {
    FieldsWidth(TypesOf(t, op.isExtended, op.code), op.fields);
  }
}
