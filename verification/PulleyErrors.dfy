/** Where decoding says that it failed: at an opcode, after an extended opcode, after a register. */
module PulleyErrors {
  import opened Bits
  import opened PulleyOps
  import opened PulleyDecode

  /** All reads of the operands, in order. */
  function FieldAtoms(tys: seq<FieldType>): seq<Atom> {
    if tys == [] then [] else Atoms(tys[0]) + FieldAtoms(tys[1..])
  }

  /** The first `j` reads and no more. */
  function ReadEnd(atoms: seq<Atom>, j: nat): nat
    requires j <= |atoms|
    decreases j
  {
    if j == 0 then 0 else atoms[0].bytes + ReadEnd(atoms[1..], j - 1)
  }

  /** The read `j` is that of a register, and its byte is there and is none. */
  ghost predicate BadRegister(atoms: seq<Atom>, b: seq<Byte>, j: nat) {
    j < |atoms| && atoms[j].reg && ReadEnd(atoms, j) < |b| && !IsReg(b[ReadEnd(atoms, j)])
  }

  /** And it is the first one. */
  ghost predicate FirstBad(atoms: seq<Atom>, b: seq<Byte>, j: nat) {
    BadRegister(atoms, b, j) && forall k :: 0 <= k < j ==> !BadRegister(atoms, b, k)
  }

  predicate RegsAreBytes(atoms: seq<Atom>) {
    forall k :: 0 <= k < |atoms| ==> (atoms[k].reg ==> atoms[k].bytes == 1)
  }

  lemma LaterBad(atoms: seq<Atom>, b: seq<Byte>, k: nat)
    requires atoms != [] && atoms[0].bytes <= |b|
    ensures BadRegister(atoms, b, k + 1) <==> BadRegister(atoms[1..], b[atoms[0].bytes..], k)
    ensures k < |atoms| - 1 ==> ReadEnd(atoms, k + 1) == atoms[0].bytes + ReadEnd(atoms[1..], k)
  {
  }

  /** What is read is an invalid register exactly if there is one; it is the first, reported just after its byte. */
  lemma {:induction false} AtomsError(atoms: seq<Atom>, b: seq<Byte>, p: nat)
    requires RegsAreBytes(atoms)
    ensures var r := DecodeAtoms(atoms, Safe(b, p)).result;
            && (r.Err? ==> r.error.InvalidReg? || r.error.UnexpectedEof?)
            && (r.Err? && r.error.InvalidReg? ==> exists j: nat :: FirstBad(atoms, b, j))
            && (forall j: nat :: FirstBad(atoms, b, j) ==> r == Err(InvalidReg(p + ReadEnd(atoms, j) + 1, b[ReadEnd(atoms, j)])))
    decreases |atoms|
  {
    hide DecodeAtom, BadRegister, RawWords;
    if atoms == [] {
      NoneBad(atoms, b);
    } else {
      var a := atoms[0];
      var first := DecodeAtom(a, Safe(b, p));
      AtomError(a, b, p);
      BadThere(atoms, b);
      if first.result.Ok? {
        AtomStream(a, b, p);
        var rest, left := atoms[1..], b[a.bytes..];
        AtomsError(rest, left, p + a.bytes);
        forall j: nat ensures FirstBad(atoms, b, j) ==> j > 0 && FirstBad(rest, left, j - 1) {
          LaterFirst(atoms, b, j);
        }
        var r := DecodeAtoms(rest, first.stream).result;
        if r.Err? && r.error.InvalidReg? {
          var j: nat :| FirstBad(rest, left, j);
          LaterFirst(atoms, b, j + 1);
        }
        forall j: nat | FirstBad(atoms, b, j)
          ensures r == Err(InvalidReg(p + ReadEnd(atoms, j) + 1, b[ReadEnd(atoms, j)]))
        {
          BadThere(rest, left);
          LaterBad(atoms, b, j - 1);
        }
      } else if first.result.error.InvalidReg? {
        assert FirstBad(atoms, b, 0);
      } else {
        forall j: nat ensures !FirstBad(atoms, b, j) {
          EndsBefore(atoms, b, j);
        }
      }
    }
  }

  lemma NoneBad(atoms: seq<Atom>, b: seq<Byte>)
    requires atoms == []
    ensures forall j: nat :: !FirstBad(atoms, b, j)
  {
  }

  /** A bad register is there, and the first read is one exactly if its byte is. */
  lemma BadThere(atoms: seq<Atom>, b: seq<Byte>)
    ensures forall j: nat :: BadRegister(atoms, b, j) ==> j < |atoms| && ReadEnd(atoms, j) < |b|
    ensures BadRegister(atoms, b, 0) <==> atoms != [] && atoms[0].reg && b != [] && !IsReg(b[0])
  {
  }

  lemma LaterFirst(atoms: seq<Atom>, b: seq<Byte>, j: nat)
    requires atoms != [] && atoms[0].bytes <= |b| && !BadRegister(atoms, b, 0)
    ensures FirstBad(atoms, b, j) <==> j > 0 && FirstBad(atoms[1..], b[atoms[0].bytes..], j - 1)
  {
    hide BadRegister;
    var rest, left := atoms[1..], b[atoms[0].bytes..];
    forall k: nat ensures BadRegister(atoms, b, k + 1) <==> BadRegister(rest, left, k) {
      LaterBad(atoms, b, k);
    }
    if j > 0 && FirstBad(rest, left, j - 1) {
      forall k | 0 <= k < j ensures !BadRegister(atoms, b, k) {
        assert k > 0 ==> !BadRegister(rest, left, k - 1);
      }
    }
    if j > 0 && FirstBad(atoms, b, j) {
      forall k | 0 <= k < j - 1 ensures !BadRegister(rest, left, k) {
        assert !BadRegister(atoms, b, k + 1);
      }
    }
  }

  lemma EndsBefore(atoms: seq<Atom>, b: seq<Byte>, j: nat)
    requires atoms != [] && |b| < atoms[0].bytes && RegsAreBytes(atoms)
    ensures !BadRegister(atoms, b, j)
  {
  }

  lemma AtomStream(a: Atom, b: seq<Byte>, p: nat)
    requires DecodeAtom(a, Safe(b, p)).result.Ok?
    ensures a.bytes <= |b| && DecodeAtom(a, Safe(b, p)).stream == Safe(b[a.bytes..], p + a.bytes)
  {
  }

  lemma AtomError(a: Atom, b: seq<Byte>, p: nat)
    requires a.reg ==> a.bytes == 1
    ensures var r := DecodeAtom(a, Safe(b, p)).result;
            && (r.Err? ==> (r.error == UnexpectedEof(p) && |b| < a.bytes) || (b != [] && a.reg && r.error == InvalidReg(p + 1, b[0]) && !IsReg(b[0])))
            && (r.Ok? ==> !(a.reg && b != [] && !IsReg(b[0])))
  {
    if a.reg && b != [] {
      assert b[..1] == [b[0]];
      FromOne(b[0]);
    }
  }

  lemma FromOne(x: Byte)
    ensures FromLe([x]) == x
  {
    assert [x][1..] == [];
  }

  lemma {:induction false} FieldsAsAtoms(tys: seq<FieldType>, s: Stream)
    ensures DecodeFields(tys, s).stream == DecodeAtoms(FieldAtoms(tys), s).stream
    ensures var a, r := DecodeAtoms(FieldAtoms(tys), s).result, DecodeFields(tys, s).result;
            (a.Ok? <==> r.Ok?) && (a.Err? ==> r == Err(a.error))
    decreases |tys|
  {
    hide FromWords, RawWords, DecodeAtom;
    if tys != [] {
      AtomsConcat(Atoms(tys[0]), FieldAtoms(tys[1..]), s);
      FieldsAsAtoms(tys[1..], DecodeAtoms(Atoms(tys[0]), s).stream);
    } else {
      assert FieldAtoms(tys) == [];
    }
  }

  lemma {:induction false} AtomsConcat(a: seq<Atom>, b: seq<Atom>, s: Stream)
    ensures var first := DecodeAtoms(a, s);
            var all := DecodeAtoms(a + b, s);
            && (first.result.Err? ==> all.result == Err(first.result.error) && all.stream == first.stream)
            && (first.result.Ok? ==>
                  var rest := DecodeAtoms(b, first.stream);
                  && all.stream == rest.stream && (all.result.Ok? <==> rest.result.Ok?)
                  && (rest.result.Err? ==> all.result == Err(rest.result.error)))
    decreases |a|
  {
    hide RawWords, DecodeAtom;
    if a == [] {
      assert a + b == b;
    } else {
      assert (a + b)[0] == a[0] && (a + b)[1..] == a[1..] + b;
      AtomsConcat(a[1..], b, DecodeAtom(a[0], s).stream);
    }
  }

  lemma {:induction false} FieldRegsAreBytes(tys: seq<FieldType>)
    ensures RegsAreBytes(FieldAtoms(tys))
  {
    if tys != [] {
      FieldRegsAreBytes(tys[1..]);
    }
  }

  /** What the bytes of an operation start with. */
  function HeaderLength(isExtended: bool): nat {
    if isExtended then 3 else 1
  }

  /** What `DecodeBody` says of operands that start after `h` bytes. */
  ghost predicate RegisterErrors(tys: seq<FieldType>, b: seq<Byte>, h: nat, p: nat, r: Decoded<Op>)
    requires h <= |b|
  {
    && (r.Err? && r.error.InvalidReg? ==> exists j: nat :: FirstBad(FieldAtoms(tys), b[h..], j))
    && (forall j: nat :: FirstBad(FieldAtoms(tys), b[h..], j) ==>
          var n := h + ReadEnd(FieldAtoms(tys), j); n < |b| && r == Err(InvalidReg(p + n + 1, b[n])))
  }

  lemma {:induction false} BodyError(t: OpTable, isExtended: bool, code: nat, b: seq<Byte>, h: nat, p: nat)
    requires h <= |b|
    ensures var r := DecodeBody(t, isExtended, code, Safe(b[h..], p + h)).result;
            && (r.Err? ==> r.error.InvalidReg? || r.error.UnexpectedEof?)
            && RegisterErrors(TypesOf(t, isExtended, code), b, h, p, r)
  {
    hide DecodeFields, DecodeAtoms, FirstBad;
    var tys, s := TypesOf(t, isExtended, code), Safe(b[h..], p + h);
    FieldsAsAtoms(tys, s);
    FieldRegsAreBytes(tys);
    AtomsError(FieldAtoms(tys), b[h..], p + h);
    forall j: nat | FirstBad(FieldAtoms(tys), b[h..], j) ensures j < |FieldAtoms(tys)| && h + ReadEnd(FieldAtoms(tys), j) < |b| {
      FirstThere(FieldAtoms(tys), b[h..], j);
    }
  }

  lemma FirstThere(atoms: seq<Atom>, b: seq<Byte>, j: nat)
    requires FirstBad(atoms, b, j)
    ensures j < |atoms| && ReadEnd(atoms, j) < |b|
  {
  }

  /**
    Where errors are reported, for every table and every byte string.  An invalid opcode is reported at the
    start of the operation, an invalid extended one three bytes after it, and an invalid register just after its
    byte, each exactly in its case: a register is reported exactly if one of those that are there is invalid, and
    it is the first such one.
   */
  lemma {:induction false} ErrorPositions(t: OpTable, b: seq<Byte>, p: nat)
    ensures var r := DecodeOne(t, Safe(b, p)).result;
            var x := b != [] && b[0] == |t.ops|;
            var opcode := b != [] && b[0] > |t.ops|;
            var extended := |b| >= 3 && x && FromLe(b[1..3]) >= |t.extended|;
            && (r.Err? && r.error.InvalidOpcode? <==> opcode)
            && (opcode ==> r == Err(InvalidOpcode(p, b[0])))
            && (r.Err? && r.error.InvalidExtendedOpcode? <==> extended)
            && (extended ==> r == Err(InvalidExtendedOpcode(p + 3, FromLe(b[1..3]))))
            && (|b| < HeaderLength(x) || opcode || extended ==> r.Err? && !r.error.InvalidReg?)
            && (HeaderLength(x) <= |b| && !opcode && !extended ==>
                  RegisterErrors(TypesOf(t, x, if x then FromLe(b[1..3]) else b[0]), b, HeaderLength(x), p, r))
  {
    Limits();
    hide DecodeBody, Limit, RegisterErrors, TypesOf;
    var s := Safe(b, p);
    if b != [] {
      assert b[..1] == [b[0]];
      FromOne(b[0]);
      var s1 := Safe(b[1..], p + 1);
      assert DecodeAtom(Atom(1, false, false), s) == Reading(Ok(b[0]), s1);
      if b[0] < |t.ops| {
        BodyError(t, false, b[0], b, 1, p);
      } else if b[0] == |t.ops| && |b| >= 3 {
        assert b[1..][..2] == b[1..3] && b[1..][2..] == b[3..];
        FromLeBound(b[1..3]);
        var code := FromLe(b[1..3]);
        assert DecodeAtom(Atom(2, false, false), s1) == Reading(Ok(code), Safe(b[3..], p + 3));
        if code < |t.extended| {
          BodyError(t, true, code, b, 3, p);
        }
      }
    }
  }

  /** One operation with a register, and an extended one without operands. */
  const Small := OpTable([[Reg(X)]], [[]])

  /** One input for each. */
  lemma ErrorExamples()
    ensures DecodeOne(Small, Safe([2], 0)).result == Err(InvalidOpcode(0, 2))
    ensures DecodeOne(Small, Safe([1, 5, 0], 0)).result == Err(InvalidExtendedOpcode(3, 5))
    ensures DecodeOne(Small, Safe([0, 32], 0)).result == Err(InvalidReg(2, 32))
  {
    hide DecodeOne, RegisterErrors;
    ErrorPositions(Small, [2], 0);
    assert [1, 5, 0][1..3] == [5, 0] && [5, 0][1..] == [0];
    FromOne(0);
    assert FromLe([5, 0]) == 5;
    ErrorPositions(Small, [1, 5, 0], 0);
    RegisterExample();
  }

  lemma RegisterExample()
    ensures DecodeOne(Small, Safe([0, 32], 0)).result == Err(InvalidReg(2, 32))
  {
    Limits();
    FromOne(0);
    hide FromLe, Limit, DecodeFields;
    var b: seq<Byte> := [0, 32];
    assert b[..1] == [0] && b[1..] == [32];
    assert DecodeAtom(Atom(1, false, false), Safe(b, 0)) == Reading(Ok(0), Safe([32], 1));
    RegisterRead();
  }

  lemma RegisterRead()
    ensures DecodeFields([Reg(X)], Safe([32], 1)).result == Err(InvalidReg(2, 32))
  {
    FromOne(32);
    hide FromLe, Limit;
    var b: seq<Byte> := [32];
    assert b[..1] == [32] && b[1..] == [];
    assert DecodeAtom(Atom(1, true, false), Safe(b, 1)).result == Err(InvalidReg(2, 32));
    hide DecodeAtom;
    assert DecodeAtoms(Atoms(Reg(X)), Safe(b, 1)).result == Err(InvalidReg(2, 32));
  }
}
