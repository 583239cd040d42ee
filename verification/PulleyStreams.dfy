/** The streams and the sink that are updated in place, and the loops that read and write them. */
module PulleyStreams {
  import opened Bits
  import opened PulleyOps
  import opened PulleyDecode

  // ----- Reading -----

  class SafeBytecodeStream {
    var bytecode: seq<Byte>
    var position: nat

    function View(): Stream
      reads this
    {
      Safe(bytecode, position)
    }

    constructor (bytes: seq<Byte>)
      ensures View() == Safe(bytes, 0)
    {
      bytecode, position := bytes, 0;
    }

    method Read(n: nat) returns (r: Decoded<seq<Byte>>)
      modifies this
      ensures Reading(r, View()) == PulleyDecode.Read(old(View()), n)
    {
      if |bytecode| < n {
        r := Err(UnexpectedEof(position));
      } else {
        r := Ok(bytecode[..n]);
        bytecode, position := bytecode[n..], position + n;
      }
    }

    method DecodeWord(a: Atom) returns (r: Decoded<nat>)
      modifies this
      ensures Reading(r, View()) == DecodeAtom(a, old(View()))
    {
      var bytes := Read(a.bytes);
      match bytes
      case Err(e) => r := Err(e);
      case Ok(bs) =>
        var w := FromLe(bs);
        r := if a.reg && !IsReg(w) then Err(InvalidReg(position, w)) else Ok(w);
    }

    method DecodeOperand(ty: FieldType) returns (r: Decoded<Operand>)
      modifies this
      ensures Reading(r, View()) == DecodeField(ty, old(View()))
    {
      hide FromWords, DecodeAtom;
      var atoms := Atoms(ty);
      AtomsInTwo(atoms, View());
      var first := DecodeWord(atoms[0]);
      if first.Err? {
        return Err(first.error);
      }
      var words := [first.value];
      if |atoms| == 2 {
        var second := DecodeWord(atoms[1]);
        if second.Err? {
          return Err(second.error);
        }
        words := words + [second.value];
      }
      r := Ok(FromWords(ty, words));
    }

    /** The operands one after the other, the first failure ending it. */
    method DecodeOperands(tys: seq<FieldType>) returns (r: Decoded<seq<Operand>>)
      modifies this
      ensures Reading(r, View()) == DecodeFields(tys, old(View()))
    {
      hide DecodeField;
      var vs: seq<Operand> := [];
      assert tys[0..] == tys;
      ghost var all := DecodeFields(tys, View());
      assert all.result.Ok? ==> [] + all.result.value == all.result.value;
      for i := 0 to |tys|
        invariant all == Prefixed(vs, DecodeFields(tys[i..], View()))
      {
        ghost var s := View();
        assert tys[i..][0] == tys[i] && tys[i..][1..] == tys[i + 1..];
        var v := DecodeOperand(tys[i]);
        if v.Err? {
          return Err(v.error);
        }
        ghost var rest := DecodeFields(tys[i + 1..], View());
        assert rest.result.Ok? ==> vs + ([v.value] + rest.result.value) == vs + [v.value] + rest.result.value;
        vs := vs + [v.value];
      }
      assert vs + [] == vs;
      r := Ok(vs);
    }

    method DecodeOneOp(t: OpTable) returns (r: Decoded<Op>)
      modifies this
      ensures Reading(r, View()) == DecodeOne(t, old(View()))
    {
      hide DecodeFields, DecodeAtom;
      var opcode := DecodeWord(Atom(1, false, false));
      if opcode.Err? {
        return Err(opcode.error);
      }
      var isExtended, code := opcode.value == |t.ops|, opcode.value;
      if code > |t.ops| {
        assert Limit(1) == 256;
        return Err(InvalidOpcode(position - 1, code));
      }
      if isExtended {
        var extended := DecodeWord(Atom(2, false, false));
        if extended.Err? {
          return Err(extended.error);
        }
        code := extended.value;
        if code >= |t.extended| {
          return Err(InvalidExtendedOpcode(position, code));
        }
      }
      var operands := DecodeOperands(TypesOf(t, isExtended, code));
      match operands
      case Err(e) => r := Err(e);
      case Ok(vs) => r := Ok(Op(isExtended, code, vs));
    }

    /** `decode_all` with the visitor that materializes operations. */
    method DecodeAllOps(t: OpTable) returns (r: Decoded<seq<Op>>)
      modifies this
      ensures r == DecodeAll(t, old(View()))
      ensures r.Ok? ==> bytecode == [] && position == old(position + |bytecode|)
    {
      hide DecodeOne;
      var results: seq<Op> := [];
      ghost var all := DecodeAll(t, View());
      assert all.Ok? ==> [] + all.value == all.value;
      while bytecode != []
        invariant all == PrefixedOps(results, DecodeAll(t, View()))
        invariant position + |bytecode| == old(position + |bytecode|)
        decreases |bytecode|
      {
        OneMoves(t, View());
        var op := DecodeOneOp(t);
        if op.Err? {
          return Err(op.error);
        }
        ghost var rest := DecodeAll(t, View());
        assert rest.Ok? ==> results + ([op.value] + rest.value) == results + [op.value] + rest.value;
        results := results + [op.value];
      }
      assert results + [] == results;
      r := Ok(results);
    }
  }

  ghost function Prefixed(vs: seq<Operand>, r: Reading<seq<Operand>>): Reading<seq<Operand>> {
    match r.result case Err(e) => r case Ok(rest) => Reading(Ok(vs + rest), r.stream)
  }

  ghost function PrefixedOps(ops: seq<Op>, r: Decoded<seq<Op>>): Decoded<seq<Op>> {
    match r case Err(e) => r case Ok(rest) => Ok(ops + rest)
  }

  lemma AtomsInTwo(atoms: seq<Atom>, s: Stream)
    requires 1 <= |atoms| <= 2
    ensures var first := DecodeAtom(atoms[0], s);
            first.result.Err? ==> DecodeAtoms(atoms, s) == Reading(Err(first.result.error), first.stream)
    ensures var first := DecodeAtom(atoms[0], s);
            first.result.Ok? && |atoms| == 1 ==> DecodeAtoms(atoms, s) == Reading(Ok([first.result.value]), first.stream)
    ensures var first := DecodeAtom(atoms[0], s);
            first.result.Ok? && |atoms| == 2 ==>
              var second := DecodeAtom(atoms[1], first.stream);
              match second.result
              case Err(e) => DecodeAtoms(atoms, s) == Reading(Err(e), second.stream)
              case Ok(w) => DecodeAtoms(atoms, s) == Reading(Ok([first.result.value] + [w]), second.stream)
  {
    hide DecodeAtom;
    var rest := DecodeAtom(atoms[0], s).stream;
    if |atoms| == 2 {
      assert atoms[1..] == [atoms[1]] && atoms[1..][1..] == [];
    } else {
      assert atoms[1..] == [] && DecodeAtoms([], rest) == Reading(Ok([]), rest);
      var first := DecodeAtom(atoms[0], s).result;
      assert first.Ok? ==> [first.value] + [] == [first.value];
    }
  }

  /** A pointer into memory that nothing checks. */
  class UnsafeBytecodeStream {
    const memory: map<nat, Byte>
    var ptr: nat

    function View(): Stream
      reads this
    {
      Raw(memory, ptr)
    }

    constructor (memory: map<nat, Byte>, pc: nat)
      ensures View() == Raw(memory, pc)
    {
      this.memory, ptr := memory, pc;
    }

    method Read(n: nat) returns (bytes: seq<Byte>)
      requires Mapped(memory, ptr, n)
      modifies this
      ensures Reading(Ok(bytes), View()) == PulleyDecode.Read(old(View()), n)
    {
      bytes := seq(n, k requires 0 <= k < n && Mapped(memory, ptr, n) reads this => memory[ptr + k]);
      assert bytes == PulleyDecode.Read(View(), n).result.value;
      ptr := ptr + n;
    }
  }

  // ----- Writing -----

  class Sink {
    var data: seq<Byte>

    constructor ()
      ensures data == []
    {
      data := [];
    }

    method Extend(bytes: seq<Byte>)
      modifies this
      ensures data == old(data) + bytes
    {
      data := data + bytes;
    }

    /** One or two little-endian words. */
    method EncodeOperand(ty: FieldType, v: Operand)
      requires TypeOk(ty) && Fits(ty, v)
      modifies this
      ensures data == old(data) + EncodeField(ty, v)
      ensures |data| == old(|data|) + WidthOf(ty)
    {
      FieldWidth(ty, v);
      OperandWords(ty, v);
      hide Words, Fits, FromWords;
      var atoms, words := Atoms(ty), Words(ty, v);
      Extend(LeBytes(atoms[0].bytes, words[0]));
      ghost var rest := EncodeWords(atoms[1..], words[1..]);
      if |atoms| == 2 {
        assert rest == LeBytes(atoms[1].bytes, words[1]) + EncodeWords(atoms[2..], words[2..]);
        Extend(LeBytes(atoms[1].bytes, words[1]));
      } else {
        assert rest == [];
      }
    }

    method EncodeOpcode(t: OpTable, op: Op)
      requires TableOk(t) && OpOk(t, op)
      modifies this
      ensures data == old(data) + Header(t, op)
    {
      hide LeBytes, TypeOk, FieldsOk;
      if op.isExtended {
        Extend(LeBytes(1, |t.ops|));
        Extend(LeBytes(2, op.code));
      } else {
        Extend(LeBytes(1, op.code));
      }
    }

    method EncodeOperation(t: OpTable, op: Op)
      requires TableOk(t) && OpOk(t, op)
      modifies this
      ensures data == old(data) + EncodeOp(t, op)
      ensures |data| == old(|data|) + Width(t, op)
    {
      hide Header, EncodeFields, FieldsOk, Width, TypeOk;
      WidthIsLength(t, op);
      EncodeOpcode(t, op);
      EncodeOperands(TypesOf(t, op.isExtended, op.code), op.fields);
    }

    method EncodeOperands(tys: seq<FieldType>, vs: seq<Operand>)
      requires FieldsOk(tys, vs)
      modifies this
      ensures data == old(data) + EncodeFields(tys, vs)
    {
      hide EncodeField, Fits;
      assert tys[0..] == tys && vs[0..] == vs;
      for i := 0 to |tys|
        invariant FieldsOk(tys[i..], vs[i..])
        invariant data + EncodeFields(tys[i..], vs[i..]) == old(data) + EncodeFields(tys, vs)
      {
        assert tys[i..][0] == tys[i] && tys[i..][1..] == tys[i + 1..] && vs[i..][0] == vs[i] && vs[i..][1..] == vs[i + 1..];
        assert tys[i] in tys;
        assert forall ty :: ty in tys[i + 1..] ==> ty in tys[i..];
        EncodeOperand(tys[i], vs[i]);
      }
    }
  }
}
