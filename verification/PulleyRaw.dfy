/**
  The unchecked stream refines the checked one, and the two ways to decode an operation agree.
 */
module PulleyRaw {
  import opened Bits
  import opened PulleyOps
  import opened PulleyDecode

  /** Memory from `ptr` on holds `bytes`. */
  ghost predicate Holds(memory: map<nat, Byte>, ptr: nat, bytes: seq<Byte>) {
    forall k :: 0 <= k < |bytes| ==> HasByte(memory, ptr + k, bytes[k])
  }

  predicate HasByte(memory: map<nat, Byte>, ptr: nat, b: Byte) {
    ptr in memory && memory[ptr] == b
  }

  lemma HoldsRest(memory: map<nat, Byte>, ptr: nat, s: Stream, s': Stream)
    requires Moved(s, s') && Holds(memory, ptr, s.bytecode)
    ensures Holds(memory, ptr + (s'.position - s.position), s'.bytecode)
  {
    hide HasByte;
    var n := s'.position - s.position;
    forall k | 0 <= k < |s'.bytecode| ensures HasByte(memory, ptr + n + k, s'.bytecode[k]) {
      assert s'.bytecode[k] == s.bytecode[n + k];
      assert HasByte(memory, ptr + (n + k), s.bytecode[n + k]);
      assert ptr + (n + k) == ptr + n + k;
    }
  }

  lemma ReadSame(s: Stream, n: nat, memory: map<nat, Byte>, ptr: nat)
    requires s.Safe? && Holds(memory, ptr, s.bytecode) && n <= |s.bytecode|
    ensures Read(Raw(memory, ptr), n) == Reading(Ok(s.bytecode[..n]), Raw(memory, ptr + n))
  {
    forall k | ptr <= k < ptr + n ensures k in memory {
      assert HasByte(memory, ptr + (k - ptr), s.bytecode[k - ptr]);
    }
    var got := Read(Raw(memory, ptr), n).result.value;
    forall k | 0 <= k < n ensures got[k] == s.bytecode[..n][k] {
      assert HasByte(memory, ptr + k, s.bytecode[k]);
    }
    assert got == s.bytecode[..n];
  }

  /** What the pointer stream must do: the same value, and the same distance from where it started. */
  ghost predicate Same<T>(s: Stream, safe: Reading<T>, memory: map<nat, Byte>, ptr: nat, raw: Reading<T>) {
    && Moved(s, safe.stream)
    && raw == Reading(safe.result, Raw(memory, ptr + (safe.stream.position - s.position)))
  }

  lemma {:induction false} AtomSame(a: Atom, s: Stream, memory: map<nat, Byte>, ptr: nat)
    requires s.Safe? && Holds(memory, ptr, s.bytecode) && DecodeAtom(a, s).result.Ok?
    ensures Same(s, DecodeAtom(a, s), memory, ptr, DecodeAtom(a, Raw(memory, ptr)))
  {
    hide Holds;
    AtomMoves(a, s);
    ReadSame(s, a.bytes, memory, ptr);
  }

  lemma {:induction false} AtomsSame(atoms: seq<Atom>, s: Stream, memory: map<nat, Byte>, ptr: nat)
    requires s.Safe? && Holds(memory, ptr, s.bytecode) && DecodeAtoms(atoms, s).result.Ok?
    ensures Same(s, DecodeAtoms(atoms, s), memory, ptr, DecodeAtoms(atoms, Raw(memory, ptr)))
    decreases |atoms|
  {
    hide DecodeAtom, DecodeAtoms, Holds, RawWords, Same;
    AtomsMove(atoms, s);
    if atoms == [] {
      NoAtomsSame(s, memory, ptr);
    } else {
      FirstAtomOk(atoms, s);
      AtomSame(atoms[0], s, memory, ptr);
      AtomMoves(atoms[0], s);
      var s' := DecodeAtom(atoms[0], s).stream;
      HoldsRest(memory, ptr, s, s');
      AtomsSame(atoms[1..], s', memory, ptr + (s'.position - s.position));
      AtomsSameStep(atoms, s, memory, ptr);
    }
  }

  lemma NoAtomsSame(s: Stream, memory: map<nat, Byte>, ptr: nat)
    requires s.Safe?
    ensures Same(s, DecodeAtoms([], s), memory, ptr, DecodeAtoms([], Raw(memory, ptr)))
  {
    assert s.bytecode[0..] == s.bytecode;
  }

  lemma FirstAtomOk(atoms: seq<Atom>, s: Stream)
    requires DecodeAtoms(atoms, s).result.Ok? && atoms != []
    ensures var first := DecodeAtom(atoms[0], s); first.result.Ok? && DecodeAtoms(atoms[1..], first.stream).result.Ok?
  {
    hide DecodeAtom, RawWords;
  }

  lemma {:induction false} AtomsSameStep(atoms: seq<Atom>, s: Stream, memory: map<nat, Byte>, ptr: nat)
    requires s.Safe? && DecodeAtoms(atoms, s).result.Ok? && atoms != []
    requires Moved(s, DecodeAtoms(atoms, s).stream) && Moved(s, DecodeAtom(atoms[0], s).stream)
    requires Same(s, DecodeAtom(atoms[0], s), memory, ptr, DecodeAtom(atoms[0], Raw(memory, ptr)))
    requires var s' := DecodeAtom(atoms[0], s).stream;
             var ptr' := ptr + (s'.position - s.position);
             Same(s', DecodeAtoms(atoms[1..], s'), memory, ptr', DecodeAtoms(atoms[1..], Raw(memory, ptr')))
    ensures Same(s, DecodeAtoms(atoms, s), memory, ptr, DecodeAtoms(atoms, Raw(memory, ptr)))
  {
    hide DecodeAtom, RawWords;
  }

  lemma {:induction false} FieldSame(ty: FieldType, s: Stream, memory: map<nat, Byte>, ptr: nat)
    requires s.Safe? && Holds(memory, ptr, s.bytecode) && DecodeField(ty, s).result.Ok?
    ensures Same(s, DecodeField(ty, s), memory, ptr, DecodeField(ty, Raw(memory, ptr)))
  {
    hide DecodeAtoms, FromWords, Holds;
    AtomsSame(Atoms(ty), s, memory, ptr);
  }

  lemma {:induction false} FieldsSame(tys: seq<FieldType>, s: Stream, memory: map<nat, Byte>, ptr: nat)
    requires s.Safe? && Holds(memory, ptr, s.bytecode) && DecodeFields(tys, s).result.Ok?
    ensures Same(s, DecodeFields(tys, s), memory, ptr, DecodeFields(tys, Raw(memory, ptr)))
    decreases |tys|
  {
    hide DecodeField, DecodeFields, Holds, Same;
    FieldsMove(tys, s);
    if tys == [] {
      NoFieldsSame(s, memory, ptr);
    } else {
      FirstFieldOk(tys, s);
      FieldSame(tys[0], s, memory, ptr);
      var s' := DecodeField(tys[0], s).stream;
      SameMoved(s, DecodeField(tys[0], s), memory, ptr, DecodeField(tys[0], Raw(memory, ptr)));
      HoldsRest(memory, ptr, s, s');
      FieldsSame(tys[1..], s', memory, ptr + (s'.position - s.position));
      FieldsSameStep(tys, s, memory, ptr);
    }
  }

  lemma SameMoved<T>(s: Stream, safe: Reading<T>, memory: map<nat, Byte>, ptr: nat, raw: Reading<T>)
    requires Same(s, safe, memory, ptr, raw)
    ensures Moved(s, safe.stream)
  {
  }

  lemma NoFieldsSame(s: Stream, memory: map<nat, Byte>, ptr: nat)
    requires s.Safe?
    ensures Same(s, DecodeFields([], s), memory, ptr, DecodeFields([], Raw(memory, ptr)))
  {
    assert s.bytecode[0..] == s.bytecode;
  }

  lemma FirstFieldOk(tys: seq<FieldType>, s: Stream)
    requires DecodeFields(tys, s).result.Ok? && tys != []
    ensures var first := DecodeField(tys[0], s); first.result.Ok? && DecodeFields(tys[1..], first.stream).result.Ok?
  {
    hide DecodeField;
  }

  lemma {:induction false} FieldsSameStep(tys: seq<FieldType>, s: Stream, memory: map<nat, Byte>, ptr: nat)
    requires s.Safe? && DecodeFields(tys, s).result.Ok? && tys != []
    requires Moved(s, DecodeFields(tys, s).stream) && Moved(s, DecodeField(tys[0], s).stream)
    requires Same(s, DecodeField(tys[0], s), memory, ptr, DecodeField(tys[0], Raw(memory, ptr)))
    requires var s' := DecodeField(tys[0], s).stream;
             var ptr' := ptr + (s'.position - s.position);
             Same(s', DecodeFields(tys[1..], s'), memory, ptr', DecodeFields(tys[1..], Raw(memory, ptr')))
    ensures Same(s, DecodeFields(tys, s), memory, ptr, DecodeFields(tys, Raw(memory, ptr)))
  {
    hide DecodeField;
  }

  lemma {:induction false} BodySame(t: OpTable, isExtended: bool, code: nat, s: Stream, memory: map<nat, Byte>, ptr: nat)
    requires s.Safe? && Holds(memory, ptr, s.bytecode) && DecodeBody(t, isExtended, code, s).result.Ok?
    ensures Same(s, DecodeBody(t, isExtended, code, s), memory, ptr, DecodeBody(t, isExtended, code, Raw(memory, ptr)))
  {
    hide DecodeFields, Holds;
    FieldsSame(TypesOf(t, isExtended, code), s, memory, ptr);
  }

  /**
    Whenever the checked stream decodes an operation, the pointer stream over the same bytes decodes the
    same one and lands as far from its start as the checked one did.
   */
  lemma {:induction false} RawRefines(t: OpTable, s: Stream, memory: map<nat, Byte>, ptr: nat)
    requires s.Safe? && Holds(memory, ptr, s.bytecode) && DecodeOne(t, s).result.Ok?
    ensures Same(s, DecodeOne(t, s), memory, ptr, DecodeOne(t, Raw(memory, ptr)))
  {
    hide DecodeAtom, DecodeBody, Holds;
    var one := Atom(1, false, false);
    OneMoves(t, s);
    AtomSame(one, s, memory, ptr);
    var code, s1 := DecodeAtom(one, s).result.value, DecodeAtom(one, s).stream;
    HoldsRest(memory, ptr, s, s1);
    var ptr1 := ptr + (s1.position - s.position);
    if code < |t.ops| {
      BodySame(t, false, code, s1, memory, ptr1);
    } else {
      var two := Atom(2, false, false);
      AtomSame(two, s1, memory, ptr1);
      var s2 := DecodeAtom(two, s1).stream;
      HoldsRest(memory, ptr1, s1, s2);
      BodySame(t, true, DecodeAtom(two, s1).result.value, s2, memory, ptr1 + (s2.position - s1.position));
    }
  }

  /** `k` operations, one after the other. */
  function DecodeMany(t: OpTable, s: Stream, k: nat): Reading<seq<Op>>
    decreases k
  {
    if k == 0 then Reading(Ok([]), s)
    else
      var first := DecodeOne(t, s);
      match first.result
      case Err(e) => Reading(Err(e), first.stream)
      case Ok(op) =>
        var rest := DecodeMany(t, first.stream, k - 1);
        match rest.result
        case Err(e) => Reading(Err(e), rest.stream)
        case Ok(ops) => Reading(Ok([op] + ops), rest.stream)
  }

  /** A program that the checked stream decodes to its end runs on the pointer stream alike. */
  lemma {:induction false} RawProgram(t: OpTable, s: Stream, memory: map<nat, Byte>, ptr: nat)
    requires s.Safe? && Holds(memory, ptr, s.bytecode) && DecodeAll(t, s).Ok?
    ensures var ops := DecodeAll(t, s).value;
            DecodeMany(t, Raw(memory, ptr), |ops|) == Reading(Ok(ops), Raw(memory, ptr + |s.bytecode|))
    decreases |s.bytecode|
  {
    hide DecodeOne, Holds;
    if s.bytecode != [] {
      OneMoves(t, s);
      RawRefines(t, s, memory, ptr);
      var s' := DecodeOne(t, s).stream;
      HoldsRest(memory, ptr, s, s');
      RawProgram(t, s', memory, ptr + (s'.position - s.position));
      var rest := DecodeAll(t, s').value;
      assert DecodeAll(t, s).value[1..] == rest;
    }
  }

  // ----- Decoding in two steps -----

  /** An opcode on its own; the number of ordinary operations stands for the extended ones. */
  function DecodeOpcode(t: OpTable, s: Stream): Reading<nat> {
    var r := DecodeAtom(Atom(1, false, false), s);
    match r.result
    case Err(e) => r
    case Ok(code) =>
      assert Limit(1) == 256;
      if code <= |t.ops| then r else Reading(Err(InvalidOpcodeAt(r.stream, code)), r.stream)
  }

  /** The payload of the extended opcode. */
  function DecodeExtendedOpcode(t: OpTable, s: Stream): Reading<nat> {
    var r := DecodeAtom(Atom(2, false, false), s);
    match r.result
    case Err(e) => r
    case Ok(code) =>
      if code < |t.extended| then r else Reading(Err(InvalidExtendedOpcodeAt(r.stream, code)), r.stream)
  }

  /** An opcode, then the operands that belong to it, as an interpreter does it. */
  function DecodeInSteps(t: OpTable, s: Stream): Reading<Op> {
    var opcode := DecodeOpcode(t, s);
    match opcode.result
    case Err(e) => Reading(Err(e), opcode.stream)
    case Ok(code) =>
      if code == |t.ops| then
        var extended := DecodeExtendedOpcode(t, opcode.stream);
        match extended.result
        case Err(e) => Reading(Err(e), extended.stream)
        case Ok(x) => WithOperands(true, x, DecodeFields(TypesOf(t, true, x), extended.stream))
      else WithOperands(false, code, DecodeFields(TypesOf(t, false, code), opcode.stream))
  }

  function WithOperands(isExtended: bool, code: nat, operands: Reading<seq<Operand>>): Reading<Op> {
    match operands.result
    case Err(e) => Reading(Err(e), operands.stream)
    case Ok(vs) => Reading(Ok(Op(isExtended, code, vs)), operands.stream)
  }

  /** On either kind of stream the two steps give the operation, the error and the stream of `DecodeOne`. */
  lemma StepsAgree(t: OpTable, s: Stream)
    ensures DecodeInSteps(t, s) == DecodeOne(t, s)
  {
    hide DecodeFields;
    var one := DecodeAtom(Atom(1, false, false), s);
    if one.result.Ok? && one.result.value == |t.ops| {
      assert DecodeOpcode(t, s) == one;
      var two := DecodeAtom(Atom(2, false, false), one.stream);
    }
  }
}
