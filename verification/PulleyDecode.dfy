/**
  Decoding Pulley bytecode from a stream: a checked one over a slice, or an unchecked one over memory.
 */
module PulleyDecode {
  import opened Bits
  import opened PulleyOps

  datatype DecodingError =
    | UnexpectedEof(position: nat)
    | InvalidOpcode(position: nat, opcode: Byte)
    | InvalidExtendedOpcode(position: nat, extendedOpcode: nat)
    | InvalidReg(position: nat, reg: nat)
    | Undefined    // the unchecked stream leaves this case to the caller

  datatype Decoded<+T> = Ok(value: T) | Err(error: DecodingError)

  /** `Safe` is a slice and how far it has moved; `Raw` is a pointer into memory. */
  datatype Stream =
    | Safe(bytecode: seq<Byte>, position: nat)
    | Raw(memory: map<nat, Byte>, ptr: nat)

  datatype Reading<+T> = Reading(result: Decoded<T>, stream: Stream)

  // ----- Streams -----

  predicate Mapped(memory: map<nat, Byte>, ptr: nat, n: nat) {
    forall k :: ptr <= k < ptr + n ==> k in memory
  }

  function Read(s: Stream, n: nat): Reading<seq<Byte>> {
    match s
    case Safe(bytes, p) =>
      if |bytes| < n then Reading(Err(UnexpectedEof(p)), s)
      else Reading(Ok(bytes[..n]), Safe(bytes[n..], p + n))
    case Raw(memory, ptr) =>
      if Mapped(memory, ptr, n)
      then Reading(Ok(seq(n, k requires 0 <= k < n && Mapped(memory, ptr, n) => memory[ptr + k])), Raw(memory, ptr + n))
      else Reading(Err(Undefined), s)
  }

  function InvalidRegAt(s: Stream, reg: nat): DecodingError {
    match s case Safe(_, p) => InvalidReg(p, reg) case Raw(_, _) => Undefined
  }

  function InvalidOpcodeAt(s: Stream, opcode: Byte): DecodingError
    requires s.Safe? ==> s.position > 0
  {
    match s case Safe(_, p) => InvalidOpcode(p - 1, opcode) case Raw(_, _) => Undefined
  }

  function InvalidExtendedOpcodeAt(s: Stream, opcode: nat): DecodingError {
    match s case Safe(_, p) => InvalidExtendedOpcode(p, opcode) case Raw(_, _) => Undefined
  }

  // ----- Operands -----

  function DecodeAtom(a: Atom, s: Stream): (r: Reading<nat>)
    ensures r.result.Ok? ==> RawWord(a, r.result.value)
    ensures r.stream.Safe? ==> s.Safe?
    ensures s.Safe? && r.result.Ok? ==> r.stream.Safe? && r.stream.position == s.position + a.bytes
  {
    var r := Read(s, a.bytes);
    match r.result
    case Err(e) => Reading(Err(e), r.stream)
    case Ok(bytes) =>
      FromLeBound(bytes);
      assert |bytes| == a.bytes;
      var w := FromLe(bytes);
      if a.reg && !IsReg(w) then Reading(Err(InvalidRegAt(r.stream, w)), r.stream)
      else Reading(Ok(w), r.stream)
  }

  function DecodeAtoms(atoms: seq<Atom>, s: Stream): (r: Reading<seq<nat>>)
    ensures r.result.Ok? ==> RawWords(atoms, r.result.value)
    decreases |atoms|
  {
    if atoms == [] then Reading(Ok([]), s)
    else
      var first := DecodeAtom(atoms[0], s);
      match first.result
      case Err(e) => Reading(Err(e), first.stream)
      case Ok(w) =>
        var rest := DecodeAtoms(atoms[1..], first.stream);
        match rest.result
        case Err(e) => Reading(Err(e), rest.stream)
        case Ok(ws) => Reading(Ok([w] + ws), rest.stream)
  }

  function DecodeField(ty: FieldType, s: Stream): Reading<Operand> {
    var r := DecodeAtoms(Atoms(ty), s);
    match r.result
    case Err(e) => Reading(Err(e), r.stream)
    case Ok(ws) => Reading(Ok(FromWords(ty, ws)), r.stream)
  }

  /** The operands of an operation, in order; this is also what its `operands` function decodes. */
  function DecodeFields(tys: seq<FieldType>, s: Stream): Reading<seq<Operand>>
    decreases |tys|
  {
    if tys == [] then Reading(Ok([]), s)
    else
      var first := DecodeField(tys[0], s);
      match first.result
      case Err(e) => Reading(Err(e), first.stream)
      case Ok(v) =>
        var rest := DecodeFields(tys[1..], first.stream);
        match rest.result
        case Err(e) => Reading(Err(e), rest.stream)
        case Ok(vs) => Reading(Ok([v] + vs), rest.stream)
  }

  // ----- Operations -----

  function DecodeBody(t: OpTable, isExtended: bool, code: nat, s: Stream): Reading<Op> {
    var r := DecodeFields(TypesOf(t, isExtended, code), s);
    match r.result
    case Err(e) => Reading(Err(e), r.stream)
    case Ok(vs) => Reading(Ok(Op(isExtended, code, vs)), r.stream)
  }

  function DecodeOneExtended(t: OpTable, s: Stream): Reading<Op> {
    var r := DecodeAtom(Atom(2, false, false), s);
    match r.result
    case Err(e) => Reading(Err(e), r.stream)
    case Ok(code) =>
      if code < |t.extended| then DecodeBody(t, true, code, r.stream)
      else Reading(Err(InvalidExtendedOpcodeAt(r.stream, code)), r.stream)
  }

  function DecodeOne(t: OpTable, s: Stream): Reading<Op> {
    var r := DecodeAtom(Atom(1, false, false), s);
    match r.result
    case Err(e) => Reading(Err(e), r.stream)
    case Ok(code) =>
      assert Limit(1) == 256;
      if code < |t.ops| then DecodeBody(t, false, code, r.stream)
      else if code == |t.ops| then DecodeOneExtended(t, r.stream)
      else Reading(Err(InvalidOpcodeAt(r.stream, code)), r.stream)
  }

  // ----- How far a checked stream moves -----

  /** The stream stays checked and has moved over a prefix of its bytes. */
  ghost predicate Moved(s: Stream, s': Stream) {
    && s.Safe? && s'.Safe?
    && s.position <= s'.position <= s.position + |s.bytecode|
    && s'.bytecode == s.bytecode[s'.position - s.position..]
  }

  lemma {:induction false} MovedTwice(a: Stream, b: Stream, c: Stream)
    requires Moved(a, b) && Moved(b, c)
    ensures Moved(a, c)
  {
    var m, n := b.position - a.position, c.position - b.position;
    assert a.bytecode[m..][n..] == a.bytecode[m + n..];
  }

  lemma AtomMoves(a: Atom, s: Stream)
    requires s.Safe?
    ensures Moved(s, DecodeAtom(a, s).stream)
    ensures DecodeAtom(a, s).result.Ok? ==> DecodeAtom(a, s).stream.position == s.position + a.bytes
  {
    assert s.bytecode[0..] == s.bytecode;
  }

  lemma {:induction false} AtomsMove(atoms: seq<Atom>, s: Stream)
    requires s.Safe?
    ensures Moved(s, DecodeAtoms(atoms, s).stream)
    decreases |atoms|
  {
    if atoms == [] {
      assert s.bytecode[0..] == s.bytecode;
    } else {
      AtomMoves(atoms[0], s);
      var first := DecodeAtom(atoms[0], s);
      if first.result.Ok? {
        AtomsMove(atoms[1..], first.stream);
        MovedTwice(s, first.stream, DecodeAtoms(atoms[1..], first.stream).stream);
      }
    }
  }

  lemma {:induction false} FieldsMove(tys: seq<FieldType>, s: Stream)
    requires s.Safe?
    ensures Moved(s, DecodeFields(tys, s).stream)
    decreases |tys|
  {
    hide FromWords;
    if tys == [] {
      assert s.bytecode[0..] == s.bytecode;
    } else {
      AtomsMove(Atoms(tys[0]), s);
      var first := DecodeField(tys[0], s);
      if first.result.Ok? {
        FieldsMove(tys[1..], first.stream);
        MovedTwice(s, first.stream, DecodeFields(tys[1..], first.stream).stream);
      }
    }
  }

  /** Decoding an operation from a slice with bytes left always takes at least one. */
  lemma {:induction false} OneMoves(t: OpTable, s: Stream)
    requires s.Safe?
    ensures Moved(s, DecodeOne(t, s).stream)
    ensures s.bytecode != [] ==> DecodeOne(t, s).stream.position > s.position
    ensures DecodeOne(t, s).result == Err(UnexpectedEof(s.position)) <==> s.bytecode == []
  {
    hide DecodeFields;
    var r := DecodeAtom(Atom(1, false, false), s);
    AtomMoves(Atom(1, false, false), s);
    if r.result.Ok? {
      var code := r.result.value;
      if code < |t.ops| {
        BodyMoves(t, false, code, r.stream);
        MovedTwice(s, r.stream, DecodeBody(t, false, code, r.stream).stream);
      } else if code == |t.ops| {
        var x := DecodeAtom(Atom(2, false, false), r.stream);
        AtomMoves(Atom(2, false, false), r.stream);
        MovedTwice(s, r.stream, x.stream);
        if x.result.Ok? && x.result.value < |t.extended| {
          BodyMoves(t, true, x.result.value, x.stream);
          MovedTwice(s, x.stream, DecodeBody(t, true, x.result.value, x.stream).stream);
        }
      }
    }
  }

  lemma {:induction false} AtomsEof(atoms: seq<Atom>, s: Stream)
    requires s.Safe?
    ensures var r := DecodeAtoms(atoms, s).result; r.Err? && r.error.UnexpectedEof? ==> r.error.position >= s.position
    decreases |atoms|
  {
    if atoms != [] {
      AtomMoves(atoms[0], s);
      AtomsEof(atoms[1..], DecodeAtom(atoms[0], s).stream);
    }
  }

  lemma {:induction false} FieldsEof(tys: seq<FieldType>, s: Stream)
    requires s.Safe?
    ensures var r := DecodeFields(tys, s).result; r.Err? && r.error.UnexpectedEof? ==> r.error.position >= s.position
    decreases |tys|
  {
    hide FromWords;
    if tys != [] {
      AtomsEof(Atoms(tys[0]), s);
      AtomsMove(Atoms(tys[0]), s);
      FieldsEof(tys[1..], DecodeField(tys[0], s).stream);
    }
  }

  lemma {:induction false} BodyMoves(t: OpTable, isExtended: bool, code: nat, s: Stream)
    requires s.Safe?
    ensures Moved(s, DecodeBody(t, isExtended, code, s).stream)
    ensures var r := DecodeBody(t, isExtended, code, s).result;
            r.Err? && r.error.UnexpectedEof? ==> r.error.position >= s.position
  {
    FieldsMove(TypesOf(t, isExtended, code), s);
    FieldsEof(TypesOf(t, isExtended, code), s);
  }

  // ----- Whole programs -----

  /** `decode_all`: operations until the slice is empty or one cannot be decoded. */
  function DecodeAll(t: OpTable, s: Stream): Decoded<seq<Op>>
    requires s.Safe?
    decreases |s.bytecode|
  {
    if s.bytecode == [] then Ok([])
    else
      OneMoves(t, s);
      var r := DecodeOne(t, s);
      match r.result
      case Err(e) => Err(e)
      case Ok(op) =>
        match DecodeAll(t, r.stream)
        case Err(e) => Err(e)
        case Ok(ops) => Ok([op] + ops)
  }
}
