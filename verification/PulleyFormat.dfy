/** The bytes of an operation, place by place: which bits hold which operand, and in which order. */
module PulleyFormat {
  import opened Bits
  import opened Packing
  import opened PulleyOps

  /** Byte `k` of a word is its digit of 256 to the `k`. */
  lemma {:induction false} ByteAt(n: nat, x: nat, k: nat)
    requires k < n
    ensures LeBytes(n, x)[k] == x / Limit(k) % 256
  {
    if k == 0 {
      assert Limit(0) == 1;
    } else {
      ByteAt(n - 1, x / 256, k - 1);
      Quotients(x, Limit(k - 1));
    }
  }

  lemma Quotients(x: nat, m: nat)
    requires m > 0
    ensures x / 256 / m == x / (256 * m)
  {
    DivDiv(x, 256, m);
  }

  /** The words of an operand, by its type. */
  lemma {:induction false} OperandFormat(ty: FieldType, v: Operand)
    requires TypeOk(ty) && Fits(ty, v)
    ensures var ws := Words(ty, v);
            match ty
            case U(_) => ws == [v.value]
            case I(n) => ws == [if v.value < 0 then v.value + Limit(n) else v.value]
            case Reg(_) => ws == [v.index]
            case PcRel => ws == [if v.value < 0 then v.value + 0x1_0000_0000 else v.value]
            case Binary(_, _, _) => ws == [v.dst + 0x20 * v.src1 + 0x400 * v.src2]
            case BinaryU6(_, _) => ws == [v.dst + 0x20 * v.src1 + 0x400 * v.src2]
            case UpperRegs(_) => ws == [v.value]
            case O32 => ws == [v.addr, if v.offset < 0 then v.offset + 0x1_0000_0000 else v.offset]
            case Z => ws == [v.addr, if v.offset < 0 then v.offset + 0x1_0000_0000 else v.offset]
            case G32 => ws == [v.displacement + 0x1_0000 * v.wasm + 0x20_0000 * v.bound + 0x400_0000 * v.base]
            case G32Bne =>
              ws == [v.displacement + 0x100 * v.boundOffset + 0x1_0000 * v.wasm + 0x20_0000 * v.boundAddr + 0x400_0000 * v.base]
  {
    Limits();
    hide Limit, PackBinary, PackG32, PackG32Bne, ToUnsigned;
    match ty
    case U(_) =>
    case I(n) => UnsignedIs(n, v.value);
    case Reg(_) =>
    case PcRel => UnsignedIs(4, v.value);
    case Binary(_, _, _) => PackBinaryIs(v.dst, v.src1, v.src2);
    case BinaryU6(_, _) => PackBinaryIs(v.dst, v.src1, v.src2);
    case UpperRegs(_) =>
    case O32 => UnsignedIs(4, v.offset);
    case Z => UnsignedIs(4, v.offset);
    case G32 => PackG32Is(v.base, v.bound, v.wasm, v.displacement);
    case G32Bne => PackG32BneIs(v.base, v.boundAddr, v.boundOffset, v.wasm, v.displacement);
  }

  lemma UnsignedIs(n: nat, i: int)
    requires SignedFits(n, i)
    ensures ToUnsigned(n, i) == if i < 0 then i + Limit(n) else i
  {
    if i < 0 {
      DivModUnique(i, Limit(n), -1, i + Limit(n));
    } else {
      DivModUnique(i, Limit(n), 0, i);
    }
  }

  /** Types of one word and of two. */
  lemma {:induction false} FieldFormat(ty: FieldType, v: Operand)
    requires TypeOk(ty) && Fits(ty, v)
    ensures var e, ws := EncodeField(ty, v), Words(ty, v);
            match ty
            case O32 => e == LeBytes(1, ws[0]) + LeBytes(4, ws[1])
            case Z => e == LeBytes(1, ws[0]) + LeBytes(4, ws[1])
            case _ => e == LeBytes(WidthOf(ty), ws[0])
  {
    hide Words, LeBytes;
    OperandWords(ty, v);
    var atoms, ws := Atoms(ty), Words(ty, v);
    assert EncodeWords(atoms, ws) == LeBytes(atoms[0].bytes, ws[0]) + EncodeWords(atoms[1..], ws[1..]);
    if |atoms| == 2 {
      assert EncodeWords(atoms[1..], ws[1..]) == LeBytes(atoms[1].bytes, ws[1]) + EncodeWords(atoms[1..][1..], ws[1..][1..]);
      assert EncodeWords(atoms[1..][1..], ws[1..][1..]) == [];
    } else {
      assert EncodeWords(atoms[1..], ws[1..]) == [];
    }
  }

  /** An ordinary operation starts with its code, an extended one with the first free code and its own in two bytes. */
  lemma {:induction false} OpFormat(t: OpTable, op: Op)
    requires TableOk(t) && OpOk(t, op)
    ensures var e := EncodeOp(t, op);
            if op.isExtended
            then |e| >= 3 && e[0] == |t.ops| && e[1] == op.code % 256 && e[2] == op.code / 256
                 && e[3..] == EncodeFields(t.extended[op.code], op.fields)
            else e != [] && e[0] == op.code && e[1..] == EncodeFields(t.ops[op.code], op.fields)
  {
    hide EncodeFields;
    if op.isExtended {
      assert LeBytes(1, |t.ops|) == [|t.ops|];
      assert LeBytes(2, op.code) == [op.code % 256, op.code / 256 % 256];
    } else {
      assert LeBytes(1, op.code) == [op.code];
    }
  }
}
