/**
  An encoded program that is cut off: decoding gives the operations before the cut if the cut is between
  two of them, and otherwise fails where the first read does not fit.  No shorter operation is misread.
 */
module PulleyCut {
  import opened Bits
  import opened PulleyOps
  import opened PulleyDecode
  import opened PulleyCodec

  // ----- The reads of a program -----

  function AtomReads(atoms: seq<Atom>): seq<nat> {
    seq(|atoms|, k requires 0 <= k < |atoms| => atoms[k].bytes)
  }

  function FieldReads(tys: seq<FieldType>): seq<nat> {
    if tys == [] then [] else AtomReads(Atoms(tys[0])) + FieldReads(tys[1..])
  }

  function OpReads(t: OpTable, op: Op): seq<nat> {
    (if op.isExtended then [1, 2] else [1]) + FieldReads(TypesOf(t, op.isExtended, op.code))
  }

  function ProgramReads(t: OpTable, ops: seq<Op>): seq<nat> {
    if ops == [] then [] else OpReads(t, ops[0]) + ProgramReads(t, ops[1..])
  }

  function Sum(s: seq<nat>): nat {
    if s == [] then 0 else s[0] + Sum(s[1..])
  }

  lemma {:induction false} SumConcat(a: seq<nat>, b: seq<nat>)
    ensures Sum(a + b) == Sum(a) + Sum(b)
  {
    if a == [] {
      assert a + b == b;
    } else {
      assert (a + b)[1..] == a[1..] + b;
      SumConcat(a[1..], b);
    }
  }

  /** Where the read starts that byte `n` belongs to. */
  function Cut(sizes: seq<nat>, n: nat): nat {
    if sizes == [] || n < sizes[0] then 0 else sizes[0] + Cut(sizes[1..], n - sizes[0])
  }

  /** It is the start of the first read that needs more than `n` bytes in all. */
  lemma {:induction false} CutIsFirstUnfit(sizes: seq<nat>, n: nat) returns (j: nat)
    requires n < Sum(sizes)
    ensures j < |sizes| && Cut(sizes, n) == Sum(sizes[..j]) <= n < Sum(sizes[..j]) + sizes[j]
  {
    if n < sizes[0] {
      j := 0;
    } else {
      j := CutIsFirstUnfit(sizes[1..], n - sizes[0]);
      j := j + 1;
      assert sizes[..j] == [sizes[0]] + sizes[1..][..j - 1];
      assert sizes[..j][1..] == sizes[1..][..j - 1];
    }
  }

  lemma {:induction false} CutConcat(a: seq<nat>, b: seq<nat>, n: nat)
    ensures n < Sum(a) ==> Cut(a + b, n) == Cut(a, n)
    ensures n >= Sum(a) ==> Cut(a + b, n) == Sum(a) + Cut(b, n - Sum(a))
  {
    if a == [] {
      assert a + b == b;
    } else {
      assert (a + b)[1..] == a[1..] + b;
      if n >= a[0] {
        CutConcat(a[1..], b, n - a[0]);
      }
    }
  }

  // ----- Cutting operands -----

  lemma {:induction false} WordsLength(atoms: seq<Atom>, ws: seq<nat>)
    requires |ws| == |atoms|
    ensures |EncodeWords(atoms, ws)| == Sum(AtomReads(atoms))
    decreases |atoms|
  {
    if atoms != [] {
      WordsLength(atoms[1..], ws[1..]);
      assert AtomReads(atoms)[1..] == AtomReads(atoms[1..]);
    }
  }

  lemma {:induction false} AtomsCut(atoms: seq<Atom>, ws: seq<nat>, n: nat, p: nat)
    requires (forall k :: 0 <= k < |atoms| ==> GoodAtom(atoms[k])) && RawWords(atoms, ws) && CanonWords(atoms, ws, ws)
    requires n < |EncodeWords(atoms, ws)|
    ensures DecodeAtoms(atoms, Safe(EncodeWords(atoms, ws)[..n], p)).result == Err(UnexpectedEof(p + Cut(AtomReads(atoms), n)))
    decreases |atoms|
  {
    hide Canon;
    var a, w := atoms[0], ws[0];
    var e, rest := LeBytes(a.bytes, w), EncodeWords(atoms[1..], ws[1..]);
    assert AtomReads(atoms)[1..] == AtomReads(atoms[1..]);
    if n < a.bytes {
      assert |(e + rest)[..n]| < a.bytes;
    } else {
      assert (e + rest)[..n] == e + rest[..n - a.bytes];
      assert RawWord(a, w) && Canon(a, w) == w;
      AtomsCanonical([a], [w]);
      assert MaskAtoms([a]) == MaskAtom(a) && EncodeWords([a], [w]) == e;
      AtomAccepts(a, w, e, rest[..n - a.bytes], p);
      AtomsCut(atoms[1..], ws[1..], n - a.bytes, p + a.bytes);
    }
  }

  lemma {:induction false} FieldCut(ty: FieldType, v: Operand, n: nat, p: nat)
    requires TypeOk(ty) && Fits(ty, v) && n < |EncodeField(ty, v)|
    ensures DecodeField(ty, Safe(EncodeField(ty, v)[..n], p)).result == Err(UnexpectedEof(p + Cut(AtomReads(Atoms(ty)), n)))
  {
    hide Words, Fits, FromWords, Canon, DecodeAtoms, Cut, AtomReads;
    OperandWords(ty, v);
    AtomsGood(ty);
    AtomsCut(Atoms(ty), Words(ty, v), n, p);
  }

  lemma {:induction false} FieldCanonical(ty: FieldType, v: Operand)
    requires TypeOk(ty) && Fits(ty, v)
    ensures Codes(MaskField(ty), EncodeField(ty, v), EncodeField(ty, v))
    ensures |EncodeField(ty, v)| == Sum(AtomReads(Atoms(ty)))
  {
    hide Words, Fits, FromWords, Canon, MaskField, AtomReads, Sum;
    OperandWords(ty, v);
    AtomsGood(ty);
    MaskFieldIs(ty);
    AtomsCanonical(Atoms(ty), Words(ty, v));
    WordsLength(Atoms(ty), Words(ty, v));
  }

  lemma {:induction false} FieldsCut(tys: seq<FieldType>, vs: seq<Operand>, n: nat, p: nat)
    requires FieldsOk(tys, vs) && n < |EncodeFields(tys, vs)|
    ensures DecodeFields(tys, Safe(EncodeFields(tys, vs)[..n], p)).result == Err(UnexpectedEof(p + Cut(FieldReads(tys), n)))
    decreases |tys|
  {
    hide Fits, DecodeField, EncodeField, MaskField, AtomReads, Cut, Sum;
    var ty, v := tys[0], vs[0];
    assert ty in tys && forall x :: x in tys[1..] ==> x in tys;
    var e, rest := EncodeField(ty, v), EncodeFields(tys[1..], vs[1..]);
    FieldCanonical(ty, v);
    CutConcat(AtomReads(Atoms(ty)), FieldReads(tys[1..]), n);
    if n < |e| {
      assert (e + rest)[..n] == e[..n];
      FieldCut(ty, v, n, p);
    } else {
      assert (e + rest)[..n] == e + rest[..n - |e|];
      FieldAccepts(ty, v, e, rest[..n - |e|], p);
      FieldsCut(tys[1..], vs[1..], n - |e|, p + |e|);
    }
  }

  lemma {:induction false} FieldsLength(tys: seq<FieldType>, vs: seq<Operand>)
    requires FieldsOk(tys, vs)
    ensures |EncodeFields(tys, vs)| == Sum(FieldReads(tys))
    decreases |tys|
  {
    hide Fits, EncodeField, AtomReads, Sum;
    if tys == [] {
      assert Sum([]) == 0 by {
        SumEmpty();
      }
    } else {
      assert tys[0] in tys && forall x :: x in tys[1..] ==> x in tys;
      FieldCanonical(tys[0], vs[0]);
      FieldsLength(tys[1..], vs[1..]);
      SumConcat(AtomReads(Atoms(tys[0])), FieldReads(tys[1..]));
    }
  }

  lemma SumEmpty()
    ensures Sum([]) == 0 && Sum([1]) == 1 && Sum([1, 2]) == 3
  {
    assert [1, 2][1..] == [2] && [2][1..] == [] && [1][1..] == [];
  }

  // ----- Cutting operations and programs -----

  lemma {:induction false} OpLength(t: OpTable, op: Op)
    requires TableOk(t) && OpOk(t, op)
    ensures |EncodeOp(t, op)| == Sum(OpReads(t, op)) > 0
  {
    hide FieldsOk, EncodeFields, FieldReads, Sum;
    var tys := TypesOf(t, op.isExtended, op.code);
    FieldsLength(tys, op.fields);
    SumConcat(if op.isExtended then [1, 2] else [1], FieldReads(tys));
    SumEmpty();
  }

  lemma {:induction false} BodyCut(t: OpTable, op: Op, n: nat, p: nat)
    requires TableOk(t) && OpOk(t, op)
    requires var tys := TypesOf(t, op.isExtended, op.code); n < |EncodeFields(tys, op.fields)|
    ensures var tys := TypesOf(t, op.isExtended, op.code);
            DecodeBody(t, op.isExtended, op.code, Safe(EncodeFields(tys, op.fields)[..n], p)).result ==
            Err(UnexpectedEof(p + Cut(FieldReads(tys), n)))
  {
    hide DecodeFields, EncodeFields, FieldReads, Cut;
    FieldsCut(TypesOf(t, op.isExtended, op.code), op.fields, n, p);
  }

  lemma {:induction false} OpCut(t: OpTable, op: Op, n: nat, p: nat)
    requires TableOk(t) && OpOk(t, op) && n < |EncodeOp(t, op)|
    ensures DecodeOne(t, Safe(EncodeOp(t, op)[..n], p)).result == Err(UnexpectedEof(p + Cut(OpReads(t, op), n)))
  {
    Limits();
    SumEmpty();
    CutHeader(n);
    hide DecodeBody, EncodeFields, FieldsOk, FieldReads, Limit, Cut, Sum;
    var tys := TypesOf(t, op.isExtended, op.code);
    var h, body := Header(t, op), EncodeFields(tys, op.fields);
    CutConcat(if op.isExtended then [1, 2] else [1], FieldReads(tys), n);
    if n >= |h| {
      var cut := body[..n - |h|];
      assert (h + body)[..n] == h + cut;
      if op.isExtended {
        var one, two := LeBytes(1, |t.ops|), LeBytes(2, op.code);
        assert h + cut == one + (two + cut);
        PlainWord(1, |t.ops|, one, two + cut, p);
        PlainWord(2, op.code, two, cut, p + 1);
      } else {
        PlainWord(1, op.code, h, cut, p);
      }
      BodyCut(t, op, n - |h|, p + |h|);
    } else if n > 0 {
      var one, two := LeBytes(1, |t.ops|), LeBytes(2, op.code);
      assert (h + body)[..n] == one + two[..n - 1];
      PlainWord(1, |t.ops|, one, two[..n - 1], p);
    }
  }

  lemma CutHeader(n: nat)
    ensures n < 1 ==> Cut([1], n) == 0
    ensures n < 3 ==> Cut([1, 2], n) == if n < 1 then 0 else 1
  {
    assert [1, 2][1..] == [2];
  }

  /** Where the first `k` operations end. */
  ghost function End(t: OpTable, ops: seq<Op>, k: nat): nat
    requires TableOk(t) && OpsOk(t, ops) && k <= |ops|
  {
    |EncodeOps(t, ops[..k])|
  }

  lemma {:induction false} EndShift(t: OpTable, ops: seq<Op>, k: nat)
    requires TableOk(t) && OpsOk(t, ops) && 0 < k <= |ops|
    ensures OpOk(t, ops[0]) && OpsOk(t, ops[1..])
    ensures End(t, ops, k) == |EncodeOp(t, ops[0])| + End(t, ops[1..], k - 1)
  {
    hide OpOk, EncodeOp;
    assert ops[0] in ops && forall o :: o in ops[1..] ==> o in ops;
    assert ops[..k][0] == ops[0] && ops[..k][1..] == ops[1..][..k - 1];
  }

  lemma {:induction false} EndsIncrease(t: OpTable, ops: seq<Op>, j: nat, k: nat)
    requires TableOk(t) && OpsOk(t, ops) && j < k <= |ops|
    ensures End(t, ops, j) < End(t, ops, k)
    decreases |ops|
  {
    hide OpOk, EncodeOp;
    EndShift(t, ops, k);
    OpLength(t, ops[0]);
    if j == 0 {
      assert ops[..0] == [];
    } else {
      EndShift(t, ops, j);
      EndsIncrease(t, ops[1..], j - 1, k - 1);
    }
  }

  /** Decoding up to a cut: `k` operations are whole. */
  lemma {:induction false} DecodesWholeOps(t: OpTable, ops: seq<Op>, n: nat, p: nat) returns (k: nat)
    requires TableOk(t) && OpsOk(t, ops) && n <= |EncodeOps(t, ops)|
    ensures k <= |ops| && End(t, ops, k) <= n && (k < |ops| ==> n < End(t, ops, k + 1))
    ensures n == End(t, ops, k) ==> DecodeAll(t, Safe(EncodeOps(t, ops)[..n], p)) == Ok(ops[..k])
    ensures n != End(t, ops, k) ==>
              && n < Sum(ProgramReads(t, ops))
              && DecodeAll(t, Safe(EncodeOps(t, ops)[..n], p)) == Err(UnexpectedEof(p + Cut(ProgramReads(t, ops), n)))
    decreases |ops|
  {
    hide OpOk, EncodeOp, MaskOp, DecodeOne, OpReads, Cut, Sum, Codes;
    k := 0;
    assert ops[..0] == [];
    if ops == [] {
      return;
    }
    var op, rest := ops[0], ops[1..];
    assert op in ops && forall o :: o in rest ==> o in ops;
    OpLength(t, op);
    var m, tail := |EncodeOp(t, op)|, EncodeOps(t, rest);
    CutConcat(OpReads(t, op), ProgramReads(t, rest), n);
    SumConcat(OpReads(t, op), ProgramReads(t, rest));
    EndShift(t, ops, 1);
    assert rest[..0] == [];
    if n == 0 {
      assert EncodeOps(t, ops)[..0] == [];
    } else if n < m {
      assert EncodeOps(t, ops)[..n] == EncodeOp(t, op)[..n];
      OpCut(t, op, n, p);
    } else {
      assert EncodeOps(t, ops)[..n] == EncodeOp(t, op) + tail[..n - m];
      OpCanonical(t, op);
      OpAccepts(t, op, EncodeOp(t, op), tail[..n - m], p);
      var j := DecodesWholeOps(t, rest, n - m, p + m);
      k := j + 1;
      EndShift(t, ops, k);
      if k < |ops| {
        EndShift(t, ops, k + 1);
      }
      assert ops[..k] == [op] + rest[..j];
    }
  }

  ghost predicate Boundary(t: OpTable, ops: seq<Op>, n: nat)
    requires TableOk(t) && OpsOk(t, ops)
  {
    exists k: nat :: k <= |ops| && n == End(t, ops, k)
  }

  /**
    For every cut of an encoded program: decoding succeeds exactly if the cut is between two operations,
    with exactly the operations before it; otherwise it fails with an unexpected end at the start of the
    first read that does not fit.
   */
  lemma Truncation(t: OpTable, ops: seq<Op>, n: nat, p: nat)
    requires TableOk(t) && OpsOk(t, ops) && n <= |EncodeOps(t, ops)|
    ensures var r := DecodeAll(t, Safe(EncodeOps(t, ops)[..n], p));
            && (r.Ok? <==> Boundary(t, ops, n))
            && (forall k: nat :: k <= |ops| && n == End(t, ops, k) ==> r == Ok(ops[..k]))
            && (r.Err? ==>
                  && r.error == UnexpectedEof(p + Cut(ProgramReads(t, ops), n))
                  && n < Sum(ProgramReads(t, ops)))
  {
    hide OpsOk, End, EncodeOps, DecodeAll, ProgramReads, Cut, Sum;
    var k := DecodesWholeOps(t, ops, n, p);
    forall j: nat | j <= |ops| && n == End(t, ops, j) ensures j == k {
      if j < k {
        EndsIncrease(t, ops, j, k);
      } else if j > k + 1 {
        EndsIncrease(t, ops, k + 1, j);
      }
    }
  }
}
