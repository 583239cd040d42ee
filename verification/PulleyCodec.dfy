/**
  Decoding inverts encoding, for every table and every program.  The bytes that decode to a program are
  exactly its encoding and the strings that differ from it in bits the decoder ignores.
 */
module PulleyCodec {
  import opened Bits
  import opened PulleyOps
  import opened PulleyDecode

  // ----- Bits that do not matter -----

  /** `e` is `encoded` up to the top bit of the bytes marked in `mask`. */
  ghost predicate Codes(mask: seq<bool>, encoded: seq<Byte>, e: seq<Byte>) {
    && |mask| == |encoded| == |e|
    && forall i :: 0 <= i < |e| ==> encoded[i] == if mask[i] then e[i] % 128 else e[i]
  }

  lemma CodesConcat(m1: seq<bool>, c1: seq<Byte>, e1: seq<Byte>, m2: seq<bool>, c2: seq<Byte>, e2: seq<Byte>)
    requires Codes(m1, c1, e1) && Codes(m2, c2, e2)
    ensures Codes(m1 + m2, c1 + c2, e1 + e2)
  {
  }

  lemma CodesSplit(m1: seq<bool>, c1: seq<Byte>, m2: seq<bool>, c2: seq<Byte>, e: seq<Byte>)
    requires Codes(m1 + m2, c1 + c2, e) && |m1| == |c1|
    ensures Codes(m1, c1, e[..|c1|]) && Codes(m2, c2, e[|c1|..])
  {
    var e1, e2 := e[..|c1|], e[|c1|..];
    forall i | 0 <= i < |e1| ensures c1[i] == if m1[i] then e1[i] % 128 else e1[i] {
      assert (c1 + c2)[i] == c1[i] && (m1 + m2)[i] == m1[i];
    }
    forall i | 0 <= i < |e2| ensures c2[i] == if m2[i] then e2[i] % 128 else e2[i] {
      assert (c1 + c2)[|c1| + i] == c2[i] && (m1 + m2)[|m1| + i] == m2[i];
    }
  }

  lemma SplitTwice(b: seq<Byte>, m: nat, n: nat)
    requires m + n <= |b|
    ensures b[..m + n] == b[..m] + b[m..][..n] && b[m + n..] == b[m..][n..]
  {
  }

  function MaskAtom(a: Atom): seq<bool> {
    seq(a.bytes, k => a.spare && k == a.bytes - 1)
  }

  function MaskAtoms(atoms: seq<Atom>): seq<bool> {
    if atoms == [] then [] else MaskAtom(atoms[0]) + MaskAtoms(atoms[1..])
  }

  /** The ignored bits: the top bit of a three-register word and of the two 32-bit address words. */
  function MaskField(ty: FieldType): seq<bool> {
    match ty
    case Binary(_, _, _) => [false, true]
    case G32 => [false, false, false, true]
    case G32Bne => [false, false, false, true]
    case _ => seq(WidthOf(ty), _ => false)
  }

  lemma MaskFieldIs(ty: FieldType)
    ensures MaskField(ty) == MaskAtoms(Atoms(ty))
  {
    var atoms := Atoms(ty);
    if |atoms| == 2 {
      assert MaskAtoms(atoms[1..]) == MaskAtom(atoms[1]) + MaskAtoms(atoms[2..]);
      assert MaskAtoms(atoms) == MaskAtom(atoms[0]) + MaskAtom(atoms[1]);
    } else {
      assert MaskAtoms(atoms) == MaskAtom(atoms[0]) + MaskAtoms(atoms[1..]);
      assert MaskAtoms(atoms) == MaskAtom(atoms[0]);
    }
  }

  function MaskFields(tys: seq<FieldType>): seq<bool> {
    if tys == [] then [] else MaskField(tys[0]) + MaskFields(tys[1..])
  }

  function MaskOp(t: OpTable, op: Op): seq<bool> {
    seq(if op.isExtended then 3 else 1, _ => false) + MaskFields(TypesOf(t, op.isExtended, op.code))
  }

  function MaskOps(t: OpTable, ops: seq<Op>): seq<bool> {
    if ops == [] then [] else MaskOp(t, ops[0]) + MaskOps(t, ops[1..])
  }

  // ----- Words -----

  predicate GoodAtom(a: Atom) {
    a.bytes > 0 && !(a.reg && a.spare)
  }

  lemma AtomsGood(ty: FieldType)
    requires TypeOk(ty)
    ensures forall k :: 0 <= k < |Atoms(ty)| ==> GoodAtom(Atoms(ty)[k])
  {
  }

  /** The bytes of a word determine its canonical form, which is the word without the ignored bit. */
  lemma {:induction false} CanonBytes(n: nat, e: seq<Byte>)
    requires |e| == n > 0
    ensures var low := FromLe(e) % (128 * Limit(n - 1));
            && low < Limit(n)
            && LeBytes(n, low) == e[..n - 1] + [e[n - 1] % 128]
    decreases n
  {
    if n == 1 {
      assert FromLe(e) == e[0] + 256 * FromLe(e[1..]);
      assert LeBytes(1, e[0] % 128) == [e[0] % 128 % 256] + LeBytes(0, e[0] % 128 / 256);
    } else {
      CanonBytes(n - 1, e[1..]);
      CanonBytesStep(n, e, FromLe(e[1..]) % (128 * Limit(n - 2)));
    }
  }

  lemma {:induction false} CanonBytesStep(n: nat, e: seq<Byte>, low: nat)
    requires |e| == n > 1 && low == FromLe(e[1..]) % (128 * Limit(n - 2)) < Limit(n - 1)
    requires LeBytes(n - 1, low) == e[1..][..n - 2] + [e[1..][n - 2] % 128]
    ensures var low := FromLe(e) % (128 * Limit(n - 1));
            && low < Limit(n)
            && LeBytes(n, low) == e[..n - 1] + [e[n - 1] % 128]
  {
    var half := 128 * Limit(n - 2);
    LowPart(e[0], FromLe(e[1..]), half);
    assert 128 * Limit(n - 1) == 256 * half;
    var all := e[0] + 256 * low;
    assert FromLe(e) % (128 * Limit(n - 1)) == all;
    assert all / 256 == low && all % 256 == e[0];
    assert LeBytes(n, all) == [e[0]] + LeBytes(n - 1, low);
    assert e[..n - 1] == [e[0]] + e[1..][..n - 2];
  }

  lemma LowPart(b: Byte, rest: nat, m: nat)
    requires m > 0
    ensures (b + 256 * rest) % (256 * m) == b + 256 * (rest % m)
  {
    var q, r := rest / m, rest % m;
    assert rest == q * m + r;
    assert b + 256 * rest == q * (256 * m) + (b + 256 * r);
    DivModUnique(b + 256 * rest, 256 * m, q, b + 256 * r);
  }

  lemma {:induction false} AtomCodes(a: Atom, e: seq<Byte>)
    requires |e| == a.bytes > 0
    ensures var w := Canon(a, FromLe(e)); w < Limit(a.bytes) && Codes(MaskAtom(a), LeBytes(a.bytes, w), e)
  {
    FromLeBound(e);
    if a.spare {
      CanonBytes(a.bytes, e);
    } else {
      LeBytesFrom(e);
    }
  }

  lemma {:induction false} AtomAccepts(a: Atom, w: nat, e: seq<Byte>, rest: seq<Byte>, p: nat)
    requires GoodAtom(a) && RawWord(a, w) && Canon(a, w) == w && Codes(MaskAtom(a), LeBytes(a.bytes, w), e)
    ensures var r := DecodeAtom(a, Safe(e + rest, p));
            r.result.Ok? && r.stream == Safe(rest, p + |e|) && Canon(a, r.result.value) == w
  {
    AtomCodes(a, e);
    var c := Canon(a, FromLe(e));
    assert LeBytes(a.bytes, c) == LeBytes(a.bytes, w);
    FromLeBytes(a.bytes, c);
    FromLeBytes(a.bytes, w);
    assert (e + rest)[..a.bytes] == e && (e + rest)[a.bytes..] == rest;
  }

  ghost predicate CanonWords(atoms: seq<Atom>, raw: seq<nat>, ws: seq<nat>) {
    |raw| == |ws| == |atoms| && forall k :: 0 <= k < |ws| ==> Canon(atoms[k], raw[k]) == ws[k]
  }

  lemma NoAtoms(s: Stream)
    ensures DecodeAtoms([], s) == Reading(Ok([]), s)
  {
  }

  /** The first word and then the others. */
  lemma AtomsUnroll(atoms: seq<Atom>, s: Stream)
    requires atoms != []
    ensures var first := DecodeAtom(atoms[0], s);
            var all, rest := DecodeAtoms(atoms, s), DecodeAtoms(atoms[1..], first.stream);
            && (all.result.Ok? <==> first.result.Ok? && rest.result.Ok?)
            && (all.result.Ok? ==> all == Reading(Ok([first.result.value] + rest.result.value), rest.stream))
  {
    hide DecodeAtom, RawWords;
  }

  lemma CanonWordsCons(atoms: seq<Atom>, w: nat, raw: seq<nat>, ws: seq<nat>)
    requires atoms != [] && |ws| == |atoms| && Canon(atoms[0], w) == ws[0] && CanonWords(atoms[1..], raw, ws[1..])
    ensures CanonWords(atoms, [w] + raw, ws)
  {
    hide Canon;
    forall k | 0 <= k < |ws| ensures Canon(atoms[k], ([w] + raw)[k]) == ws[k] {
      if k > 0 {
        assert Canon(atoms[1..][k - 1], raw[k - 1]) == ws[1..][k - 1];
      }
    }
  }

  lemma CodesLength(mask: seq<bool>, encoded: seq<Byte>, e: seq<Byte>)
    requires Codes(mask, encoded, e)
    ensures |e| == |encoded|
  {
  }

  lemma {:induction false} AtomsAccept(atoms: seq<Atom>, ws: seq<nat>, e: seq<Byte>, rest: seq<Byte>, p: nat)
    requires (forall k :: 0 <= k < |atoms| ==> GoodAtom(atoms[k])) && RawWords(atoms, ws) && CanonWords(atoms, ws, ws)
    requires Codes(MaskAtoms(atoms), EncodeWords(atoms, ws), e)
    ensures var r := DecodeAtoms(atoms, Safe(e + rest, p));
            r.result.Ok? && r.stream == Safe(rest, p + |e|) && CanonWords(atoms, r.result.value, ws)
    decreases |atoms|
  {
    hide Canon, DecodeAtom, GoodAtom, DecodeAtoms, Codes;
    CodesLength(MaskAtoms(atoms), EncodeWords(atoms, ws), e);
    if atoms == [] {
      assert e + rest == rest;
      NoAtoms(Safe(rest, p));
    } else {
      var a, n := atoms[0], atoms[0].bytes;
      CodesSplit(MaskAtom(a), LeBytes(n, ws[0]), MaskAtoms(atoms[1..]), EncodeWords(atoms[1..], ws[1..]), e);
      var e1, e2 := e[..n], e[n..];
      assert e + rest == e1 + (e2 + rest);
      assert RawWord(a, ws[0]) && Canon(a, ws[0]) == ws[0];
      AtomAccepts(a, ws[0], e1, e2 + rest, p);
      AtomsAccept(atoms[1..], ws[1..], e2, rest, p + n);
      AtomsUnroll(atoms, Safe(e + rest, p));
      CanonWordsCons(atoms, DecodeAtom(a, Safe(e + rest, p)).result.value, DecodeAtoms(atoms[1..], Safe(e2 + rest, p + n)).result.value, ws);
    }
  }

  lemma {:induction false} AtomsInvert(atoms: seq<Atom>, b: seq<Byte>, p: nat) returns (ws: seq<nat>, n: nat)
    requires forall k :: 0 <= k < |atoms| ==> GoodAtom(atoms[k])
    requires DecodeAtoms(atoms, Safe(b, p)).result.Ok?
    ensures var r := DecodeAtoms(atoms, Safe(b, p));
            && CanonWords(atoms, r.result.value, ws)
            && n <= |b| && r.stream == Safe(b[n..], p + n)
            && Codes(MaskAtoms(atoms), EncodeWords(atoms, ws), b[..n])
    decreases |atoms|
  {
    hide Canon, DecodeAtom, Codes;
    if atoms == [] {
      ws, n := [], 0;
      assert Codes([], [], b[..0]) by {
        CodesExact([], b[..0]);
        assert seq(0, _ => false) == [];
      }
    } else {
      var a, others := atoms[0], atoms[1..];
      AtomsUnroll(atoms, Safe(b, p));
      var first := DecodeAtom(a, Safe(b, p));
      AtomMoves(a, Safe(b, p));
      AtomReads(a, Safe(b, p));
      var w := Canon(a, first.result.value);
      AtomCodes(a, b[..a.bytes]);
      var ws', n' := AtomsInvert(others, b[a.bytes..], p + a.bytes);
      ws, n := [w] + ws', a.bytes + n';
      SplitTwice(b, a.bytes, n');
      assert ws[1..] == ws';
      CodesConcat(MaskAtom(a), LeBytes(a.bytes, w), b[..a.bytes], MaskAtoms(others), EncodeWords(others, ws'), b[a.bytes..][..n']);
      CanonWordsCons(atoms, first.result.value, DecodeAtoms(others, first.stream).result.value, ws);
    }
  }

  /** What a word is read from. */
  lemma AtomReads(a: Atom, s: Stream)
    requires s.Safe? && DecodeAtom(a, s).result.Ok?
    ensures a.bytes <= |s.bytecode| && DecodeAtom(a, s) == Reading(Ok(FromLe(s.bytecode[..a.bytes])), Safe(s.bytecode[a.bytes..], s.position + a.bytes))
  {
  }

  // ----- Operands -----

  lemma {:induction false} FieldAccepts(ty: FieldType, v: Operand, e: seq<Byte>, rest: seq<Byte>, p: nat)
    requires TypeOk(ty) && Fits(ty, v) && Codes(MaskField(ty), EncodeField(ty, v), e)
    ensures DecodeField(ty, Safe(e + rest, p)) == Reading(Ok(v), Safe(rest, p + |e|))
  {
    hide Words, FromWords, Fits, Canon, DecodeAtoms;
    OperandWords(ty, v);
    AtomsGood(ty);
    MaskFieldIs(ty);
    var ws := Words(ty, v);
    AtomsAccept(Atoms(ty), ws, e, rest, p);
    var raw := DecodeAtoms(Atoms(ty), Safe(e + rest, p)).result.value;
    WordsOperand(ty, raw);
    assert Words(ty, FromWords(ty, raw)) == ws;
    OperandWords(ty, FromWords(ty, raw));
  }

  lemma {:induction false} FieldInverts(ty: FieldType, b: seq<Byte>, p: nat) returns (n: nat)
    requires TypeOk(ty) && DecodeField(ty, Safe(b, p)).result.Ok?
    ensures var r := DecodeField(ty, Safe(b, p));
            && Fits(ty, r.result.value)
            && n <= |b| && r.stream == Safe(b[n..], p + n)
            && Codes(MaskField(ty), EncodeField(ty, r.result.value), b[..n])
  {
    hide Words, FromWords, Fits, Canon, DecodeAtoms;
    AtomsGood(ty);
    MaskFieldIs(ty);
    var ws;
    ws, n := AtomsInvert(Atoms(ty), b, p);
    var raw := DecodeAtoms(Atoms(ty), Safe(b, p)).result.value;
    WordsOperand(ty, raw);
    assert Words(ty, FromWords(ty, raw)) == ws;
  }

  lemma {:induction false} FieldsAccept(tys: seq<FieldType>, vs: seq<Operand>, e: seq<Byte>, rest: seq<Byte>, p: nat)
    requires FieldsOk(tys, vs) && Codes(MaskFields(tys), EncodeFields(tys, vs), e)
    ensures DecodeFields(tys, Safe(e + rest, p)) == Reading(Ok(vs), Safe(rest, p + |e|))
    decreases |tys|
  {
    hide Fits, DecodeField, EncodeField, MaskField;
    if tys == [] {
      assert e + rest == rest;
    } else {
      assert tys[0] in tys && forall ty :: ty in tys[1..] ==> ty in tys;
      FieldMask(tys[0], vs[0]);
      var n := |EncodeField(tys[0], vs[0])|;
      CodesSplit(MaskField(tys[0]), EncodeField(tys[0], vs[0]), MaskFields(tys[1..]), EncodeFields(tys[1..], vs[1..]), e);
      var e1, e2 := e[..n], e[n..];
      assert e + rest == e1 + (e2 + rest);
      FieldAccepts(tys[0], vs[0], e1, e2 + rest, p);
      FieldsAccept(tys[1..], vs[1..], e2, rest, p + n);
      assert vs == [vs[0]] + vs[1..];
    }
  }

  lemma FieldMask(ty: FieldType, v: Operand)
    requires TypeOk(ty) && Fits(ty, v)
    ensures |MaskField(ty)| == |EncodeField(ty, v)|
  {
    FieldWidth(ty, v);
  }

  lemma {:induction false} FieldsInvert(tys: seq<FieldType>, b: seq<Byte>, p: nat) returns (n: nat)
    requires (forall ty :: ty in tys ==> TypeOk(ty)) && DecodeFields(tys, Safe(b, p)).result.Ok?
    ensures var r := DecodeFields(tys, Safe(b, p));
            && FieldsOk(tys, r.result.value)
            && n <= |b| && r.stream == Safe(b[n..], p + n)
            && Codes(MaskFields(tys), EncodeFields(tys, r.result.value), b[..n])
    decreases |tys|
  {
    hide Fits, DecodeField, EncodeField, MaskField;
    if tys == [] {
      n := 0;
    } else {
      assert tys[0] in tys && forall ty :: ty in tys[1..] ==> ty in tys;
      var first := DecodeField(tys[0], Safe(b, p));
      var m := FieldInverts(tys[0], b, p);
      var n' := FieldsInvert(tys[1..], b[m..], p + m);
      n := m + n';
      var vs := DecodeFields(tys[1..], first.stream).result.value;
      var all := [first.result.value] + vs;
      assert all[1..] == vs;
      SplitTwice(b, m, n');
      CodesConcat(MaskField(tys[0]), EncodeField(tys[0], all[0]), b[..m], MaskFields(tys[1..]), EncodeFields(tys[1..], vs), b[m..][..n']);
    }
  }

  // ----- Operations -----

  /** A word without spare bits is read back from its bytes, and from no others. */
  lemma {:induction false} PlainWord(n: nat, w: nat, e: seq<Byte>, rest: seq<Byte>, p: nat)
    requires n > 0 && w < Limit(n) && e == LeBytes(n, w)
    ensures DecodeAtom(Atom(n, false, false), Safe(e + rest, p)) == Reading(Ok(w), Safe(rest, p + n))
  {
    FromLeBytes(n, w);
    assert (e + rest)[..n] == e && (e + rest)[n..] == rest;
  }

  lemma {:induction false} PlainWordInverts(n: nat, b: seq<Byte>, p: nat)
    requires n > 0 && DecodeAtom(Atom(n, false, false), Safe(b, p)).result.Ok?
    ensures var r := DecodeAtom(Atom(n, false, false), Safe(b, p));
            && n <= |b| && r.stream == Safe(b[n..], p + n)
            && r.result.value < Limit(n) && b[..n] == LeBytes(n, r.result.value)
  {
    LeBytesFrom(b[..n]);
  }

  lemma CodesExact(encoded: seq<Byte>, e: seq<Byte>)
    ensures Codes(seq(|encoded|, _ => false), encoded, e) <==> e == encoded
  {
  }

  lemma BodyTypes(t: OpTable, isExtended: bool, code: nat)
    requires TableOk(t)
    ensures forall ty :: ty in TypesOf(t, isExtended, code) ==> TypeOk(ty)
  {
  }

  lemma {:induction false} BodyAccepts(t: OpTable, op: Op, e: seq<Byte>, rest: seq<Byte>, p: nat)
    requires TableOk(t) && OpOk(t, op)
    requires var tys := TypesOf(t, op.isExtended, op.code); Codes(MaskFields(tys), EncodeFields(tys, op.fields), e)
    ensures DecodeBody(t, op.isExtended, op.code, Safe(e + rest, p)) == Reading(Ok(op), Safe(rest, p + |e|))
  {
    hide DecodeFields, EncodeFields;
    FieldsAccept(TypesOf(t, op.isExtended, op.code), op.fields, e, rest, p);
  }

  lemma {:induction false} OpAccepts(t: OpTable, op: Op, e: seq<Byte>, rest: seq<Byte>, p: nat)
    requires TableOk(t) && OpOk(t, op) && Codes(MaskOp(t, op), EncodeOp(t, op), e)
    ensures DecodeOne(t, Safe(e + rest, p)) == Reading(Ok(op), Safe(rest, p + |e|))
  {
    Limits();
    hide DecodeBody, EncodeFields, MaskFields, DecodeAtom, Limit, FieldsOk;
    var tys := TypesOf(t, op.isExtended, op.code);
    var h := Header(t, op);
    var e1, e2 := e[..|h|], e[|h|..];
    CodesSplit(seq(if op.isExtended then 3 else 1, _ => false), h, MaskFields(tys), EncodeFields(tys, op.fields), e);
    CodesExact(h, e1);
    if op.isExtended {
      var one, two := LeBytes(1, |t.ops|), LeBytes(2, op.code);
      assert e + rest == one + (two + (e2 + rest));
      PlainWord(1, |t.ops|, one, two + (e2 + rest), p);
      PlainWord(2, op.code, two, e2 + rest, p + 1);
      BodyAccepts(t, op, e2, rest, p + 3);
    } else {
      assert e + rest == e1 + (e2 + rest);
      PlainWord(1, op.code, e1, e2 + rest, p);
      BodyAccepts(t, op, e2, rest, p + 1);
    }
  }

  /** The bytes of a body follow those of the header. */
  lemma {:induction false} BodyInverts(t: OpTable, isExtended: bool, code: nat, h: seq<Byte>, b: seq<Byte>, p: nat) returns (n: nat)
    requires TableOk(t) && code < (if isExtended then |t.extended| else |t.ops|)
    requires h == if isExtended then LeBytes(1, |t.ops|) + LeBytes(2, code) else LeBytes(1, code)
    requires |h| <= |b| && b[..|h|] == h && DecodeBody(t, isExtended, code, Safe(b[|h|..], p + |h|)).result.Ok?
    ensures var r := DecodeBody(t, isExtended, code, Safe(b[|h|..], p + |h|));
            var op := r.result.value;
            && OpOk(t, op) && n <= |b| && r.stream == Safe(b[n..], p + n)
            && Codes(MaskOp(t, op), EncodeOp(t, op), b[..n])
  {
    hide DecodeFields, EncodeFields, MaskFields, Fits;
    var tys := TypesOf(t, isExtended, code);
    BodyTypes(t, isExtended, code);
    var m := FieldsInvert(tys, b[|h|..], p + |h|);
    n := |h| + m;
    SplitTwice(b, |h|, m);
    var vs := DecodeFields(tys, Safe(b[|h|..], p + |h|)).result.value;
    CodesExact(h, h);
    CodesConcat(seq(|h|, _ => false), h, h, MaskFields(tys), EncodeFields(tys, vs), b[|h|..][..m]);
  }

  lemma {:induction false} OpInverts(t: OpTable, b: seq<Byte>, p: nat) returns (n: nat)
    requires TableOk(t) && DecodeOne(t, Safe(b, p)).result.Ok?
    ensures var r := DecodeOne(t, Safe(b, p));
            var op := r.result.value;
            && OpOk(t, op) && 0 < n <= |b| && r.stream == Safe(b[n..], p + n)
            && Codes(MaskOp(t, op), EncodeOp(t, op), b[..n])
  {
    Limits();
    hide DecodeBody, EncodeOp, MaskOp, DecodeAtom, Limit, OpOk;
    PlainWordInverts(1, b, p);
    var code := DecodeAtom(Atom(1, false, false), Safe(b, p)).result.value;
    if code == |t.ops| {
      PlainWordInverts(2, b[1..], p + 1);
      var x := DecodeAtom(Atom(2, false, false), Safe(b[1..], p + 1)).result.value;
      assert b[..3] == b[..1] + b[1..][..2] && b[3..] == b[1..][2..];
      n := BodyInverts(t, true, x, b[..3], b, p);
    } else {
      n := BodyInverts(t, false, code, b[..1], b, p);
    }
    OneMoves(t, Safe(b, p));
  }

  // ----- Programs -----

  lemma OpMaskLength(t: OpTable, op: Op)
    requires TableOk(t) && OpOk(t, op)
    ensures |MaskOp(t, op)| == |EncodeOp(t, op)| > 0
  {
    WidthIsLength(t, op);
    MaskFieldsLength(TypesOf(t, op.isExtended, op.code));
  }

  lemma {:induction false} MaskFieldsLength(tys: seq<FieldType>)
    ensures |MaskFields(tys)| == WidthsOf(tys)
  {
    if tys != [] {
      MaskFieldsLength(tys[1..]);
    }
  }

  lemma {:induction false} ProgramAccepts(t: OpTable, ops: seq<Op>, e: seq<Byte>, p: nat)
    requires TableOk(t) && OpsOk(t, ops) && Codes(MaskOps(t, ops), EncodeOps(t, ops), e)
    ensures DecodeAll(t, Safe(e, p)) == Ok(ops)
    decreases |ops|
  {
    hide OpOk, EncodeOp, MaskOp, DecodeOne;
    if ops != [] {
      var op, rest := ops[0], ops[1..];
      assert op in ops && forall o :: o in rest ==> o in ops;
      OpMaskLength(t, op);
      CodesSplit(MaskOp(t, op), EncodeOp(t, op), MaskOps(t, rest), EncodeOps(t, rest), e);
      var n := |EncodeOp(t, op)|;
      var e1, e2 := e[..n], e[n..];
      assert e == e1 + e2;
      OpAccepts(t, op, e1, e2, p);
      ProgramAccepts(t, rest, e2, p + n);
      assert ops == [op] + rest;
    }
  }

  lemma {:induction false} ProgramInverts(t: OpTable, b: seq<Byte>, p: nat)
    requires TableOk(t) && DecodeAll(t, Safe(b, p)).Ok?
    ensures var ops := DecodeAll(t, Safe(b, p)).value; OpsOk(t, ops) && Codes(MaskOps(t, ops), EncodeOps(t, ops), b)
    decreases |b|
  {
    hide OpOk, EncodeOp, MaskOp, DecodeOne;
    if b != [] {
      var n := OpInverts(t, b, p);
      var op := DecodeOne(t, Safe(b, p)).result.value;
      ProgramInverts(t, b[n..], p + n);
      var rest := DecodeAll(t, Safe(b[n..], p + n)).value;
      assert ([op] + rest)[1..] == rest;
      assert b == b[..n] + b[n..];
      CodesConcat(MaskOp(t, op), EncodeOp(t, op), b[..n], MaskOps(t, rest), EncodeOps(t, rest), b[n..]);
    }
  }

  /** Exactly which byte strings decode to a program. */
  lemma DecodesExactly(t: OpTable, ops: seq<Op>, b: seq<Byte>, p: nat)
    requires TableOk(t)
    ensures DecodeAll(t, Safe(b, p)) == Ok(ops) <==> OpsOk(t, ops) && Codes(MaskOps(t, ops), EncodeOps(t, ops), b)
  {
    hide OpsOk, EncodeOps, MaskOps, Codes;
    if DecodeAll(t, Safe(b, p)) == Ok(ops) {
      ProgramInverts(t, b, p);
    }
    if OpsOk(t, ops) && Codes(MaskOps(t, ops), EncodeOps(t, ops), b) {
      ProgramAccepts(t, ops, b, p);
    }
  }

  // ----- Canonical encodings -----

  lemma {:induction false} AtomsCanonical(atoms: seq<Atom>, ws: seq<nat>)
    requires (forall k :: 0 <= k < |atoms| ==> GoodAtom(atoms[k])) && RawWords(atoms, ws) && CanonWords(atoms, ws, ws)
    ensures Codes(MaskAtoms(atoms), EncodeWords(atoms, ws), EncodeWords(atoms, ws))
    decreases |atoms|
  {
    hide Canon;
    if atoms != [] {
      var a, w := atoms[0], ws[0];
      assert RawWord(a, w) && Canon(a, w) == w;
      FromLeBytes(a.bytes, w);
      AtomCodes(a, LeBytes(a.bytes, w));
      AtomsCanonical(atoms[1..], ws[1..]);
      CodesConcat(MaskAtom(a), LeBytes(a.bytes, w), LeBytes(a.bytes, w), MaskAtoms(atoms[1..]),
                  EncodeWords(atoms[1..], ws[1..]), EncodeWords(atoms[1..], ws[1..]));
    }
  }

  lemma {:induction false} FieldsCanonical(tys: seq<FieldType>, vs: seq<Operand>)
    requires FieldsOk(tys, vs)
    ensures Codes(MaskFields(tys), EncodeFields(tys, vs), EncodeFields(tys, vs))
    decreases |tys|
  {
    hide Fits, MaskField, Words, FromWords, Canon;
    if tys != [] {
      var ty, v := tys[0], vs[0];
      assert ty in tys && forall x :: x in tys[1..] ==> x in tys;
      OperandWords(ty, v);
      AtomsGood(ty);
      MaskFieldIs(ty);
      AtomsCanonical(Atoms(ty), Words(ty, v));
      FieldsCanonical(tys[1..], vs[1..]);
      CodesConcat(MaskField(ty), EncodeField(ty, v), EncodeField(ty, v), MaskFields(tys[1..]),
                  EncodeFields(tys[1..], vs[1..]), EncodeFields(tys[1..], vs[1..]));
    }
  }

  lemma {:induction false} OpCanonical(t: OpTable, op: Op)
    requires TableOk(t) && OpOk(t, op)
    ensures Codes(MaskOp(t, op), EncodeOp(t, op), EncodeOp(t, op))
  {
    hide EncodeFields, MaskFields, FieldsOk;
    var tys, h := TypesOf(t, op.isExtended, op.code), Header(t, op);
    FieldsCanonical(tys, op.fields);
    CodesExact(h, h);
    CodesConcat(seq(|h|, _ => false), h, h, MaskFields(tys), EncodeFields(tys, op.fields), EncodeFields(tys, op.fields));
  }

  lemma {:induction false} OpsCanonical(t: OpTable, ops: seq<Op>)
    requires TableOk(t) && OpsOk(t, ops)
    ensures Codes(MaskOps(t, ops), EncodeOps(t, ops), EncodeOps(t, ops))
    decreases |ops|
  {
    hide OpOk, EncodeOp, MaskOp;
    if ops != [] {
      assert ops[0] in ops && forall o :: o in ops[1..] ==> o in ops;
      OpCanonical(t, ops[0]);
      OpsCanonical(t, ops[1..]);
      CodesConcat(MaskOp(t, ops[0]), EncodeOp(t, ops[0]), EncodeOp(t, ops[0]), MaskOps(t, ops[1..]),
                  EncodeOps(t, ops[1..]), EncodeOps(t, ops[1..]));
    }
  }

  /** For every table and program, decoding the encoding gives the program back. */
  lemma RoundTrip(t: OpTable, ops: seq<Op>, p: nat)
    requires TableOk(t) && OpsOk(t, ops)
    ensures DecodeAll(t, Safe(EncodeOps(t, ops), p)) == Ok(ops)
  {
    OpsCanonical(t, ops);
    ProgramAccepts(t, ops, EncodeOps(t, ops), p);
  }

  /**
    Encoding what was decoded gives a string of the same length that differs only in ignored bits, and
    that string decodes to the same program.
   */
  lemma Reencoding(t: OpTable, b: seq<Byte>, p: nat)
    requires TableOk(t) && DecodeAll(t, Safe(b, p)).Ok?
    ensures var ops := DecodeAll(t, Safe(b, p)).value;
            && OpsOk(t, ops)
            && Codes(MaskOps(t, ops), EncodeOps(t, ops), b)
            && DecodeAll(t, Safe(EncodeOps(t, ops), p)) == Ok(ops)
  {
    hide OpsOk, EncodeOps, MaskOps, Codes;
    ProgramInverts(t, b, p);
    RoundTrip(t, DecodeAll(t, Safe(b, p)).value, p);
  }
}
