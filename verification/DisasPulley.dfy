/** Disassembling one function: an address and the bytes of each instruction. */
module DisasPulley {
  import opened Bits
  import opened PulleyOps
  import opened PulleyDecode
  import opened PulleyCodec
  import opened PulleyVisitors
  import opened PulleyDisas

  datatype Inst = Inst(address: nat, bytes: seq<Byte>)

  /** `Overflow`: an address does not fit in 64 bits. */
  datatype Outcome = Insts(insts: seq<Inst>) | Failed(error: DecodingError) | Overflow

  // ----- The disassembler as an object -----

  class Disassembler {
    var rawBytecode: seq<Byte>
    var bytecode: Stream
    var startOffset: nat
    var start: nat
    var lines: seq<Line>

    function View(): Disas
      reads this
    {
      Disas(rawBytecode, bytecode, startOffset, start, lines)
    }

    constructor (raw: seq<Byte>, offset: nat)
      ensures View() == New(raw, offset)
    {
      rawBytecode, bytecode, startOffset, start, lines := raw, Safe(raw, 0), offset, 0, [];
    }

    method BeforeVisit()
      modifies this
      ensures View() == Before(old(View()))
    {
      start := Position(bytecode);
    }

    /** The slice that is shown is within the bytecode. */
    method AfterVisit()
      requires Inside(View())
      modifies this
      ensures View() == After(old(View())) && Between(View())
    {
      AfterTiles(View());
      var size := Position(bytecode) - start;
      var shown := rawBytecode[start..][..size];
      lines := lines + [Line(start + startOffset, start, start + |shown|)];
    }

    method DisasBrTable32(amt: nat)
      requires Inside(View())
      modifies this
      ensures View() == TableLoop(old(View()), amt) && Inside(View())
    {
      hide Tiled, DecodeAtom;
      for i := 0 to amt
        invariant Inside(View())
        invariant TableLoop(View(), amt - i) == TableLoop(old(View()), amt)
      {
        ghost var d := View();
        AfterVisit();
        start := Position(bytecode);
        AtomMoves(Entry, bytecode);
        MovedInBounds(View(), DecodeAtom(Entry, bytecode).stream);
        var entry := DecodeAtom(Entry, bytecode);
        bytecode := entry.stream;
        assert View() == TableEntry(d);
      }
    }

    method DecodeOneInto(t: OpTable, br: nat) returns (r: Decoded<()>)
      requires Between(View())
      modifies this
      ensures Visited(View(), r) == VisitOne(t, Disassemble(br), old(View()))
      ensures r.Ok? ==> Between(View())
    {
      hide DecodeOne, Tiled, TableLoop;
      BeforeVisit();
      OneMoves(t, bytecode);
      MovedInBounds(View(), DecodeOne(t, bytecode).stream);
      var op := DecodeOne(t, bytecode);
      bytecode := op.stream;
      match op.result
      case Err(e) => r := Err(e);
      case Ok(o) =>
        DisasBrTable32(TableSize(br, o));
        AfterVisit();
        r := Ok(());
    }
  }

  // ----- disas_pulley -----

  const AddressLimit: nat := 0x1_0000_0000_0000_0000

  /** The instructions from the disassembler's position on. */
  ghost function DisasFrom(t: OpTable, br: nat, addr: nat, d: Disas): Outcome
    requires Between(d) && Forward(Disassemble(br))
    decreases |d.bytecode.bytecode|
  {
    var startAddr := d.bytecode.position;
    OneTiles(t, br, d);
    VisitMoves(t, Disassemble(br), d);
    EndsAtEof(t, br, d);
    var one := VisitOne(t, Disassemble(br), d);
    match one.result
    case Err(e) => if e == UnexpectedEof(startAddr) then Insts([]) else Failed(e)
    case Ok(_) =>
      if startAddr + addr >= AddressLimit then Overflow
      else Cons(Inst(startAddr + addr, d.raw[startAddr..one.visitor.bytecode.position]), DisasFrom(t, br, addr, one.visitor))
  }

  function Cons(inst: Inst, rest: Outcome): Outcome {
    match rest case Insts(insts) => Insts([inst] + insts) case _ => rest
  }

  function Append(done: seq<Inst>, rest: Outcome): Outcome {
    match rest case Insts(insts) => Insts(done + insts) case _ => rest
  }

  /** An end of the bytecode at the very start of an operation means that there is none left. */
  lemma EndsAtEof(t: OpTable, br: nat, d: Disas)
    requires d.bytecode.Safe?
    ensures VisitOne(t, Disassemble(br), d).result == Err(UnexpectedEof(d.bytecode.position)) <==> d.bytecode.bytecode == []
  {
    hide DecodeOne, Moved, TableLoop, TableSize, After;
    OneMoves(t, d.bytecode);
    assert Before(d).bytecode == d.bytecode;
  }

  method DisasPulleyLoop(t: OpTable, br: nat, func: seq<Byte>, addr: nat) returns (r: Outcome)
    requires addr < AddressLimit
    ensures Between(New(func, addr)) && Forward(Disassemble(br))
    ensures r == DisasFrom(t, br, addr, New(func, addr))
  {
    hide VisitOne, Forward, Tiled, DisasFrom;
    DisassembleForward(br);
    NewBetween(func, addr);
    var result: seq<Inst> := [];
    var disas := new Disassembler(func, addr);
    ghost var all := DisasFrom(t, br, addr, New(func, addr));
    AppendNone(all);
    while true
      invariant Between(disas.View()) && disas.rawBytecode == func
      invariant all == Append(result, DisasFrom(t, br, addr, disas.View()))
      decreases |disas.bytecode.bytecode|
    {
      var startAddr := Position(disas.bytecode);
      DisasUnroll(t, br, addr, disas.View());
      EndsAtEof(t, br, disas.View());
      var one := disas.DecodeOneInto(t, br);
      match one
      case Err(e) =>
        if e == UnexpectedEof(startAddr) {
          assert result + [] == result;
          return Insts(result);
        }
        return Failed(e);
      case Ok(_) =>
        var bytes := func[startAddr..Position(disas.bytecode)];
        if startAddr + addr >= AddressLimit {
          return Overflow;
        }
        AppendCons(result, Inst(startAddr + addr, bytes), DisasFrom(t, br, addr, disas.View()));
        result := result + [Inst(startAddr + addr, bytes)];
    }
  }

  lemma AppendNone(r: Outcome)
    ensures Append([], r) == r
  {
    if r.Insts? {
      assert [] + r.insts == r.insts;
    }
  }

  lemma AppendCons(done: seq<Inst>, inst: Inst, rest: Outcome)
    ensures Append(done, Cons(inst, rest)) == Append(done + [inst], rest)
  {
    if rest.Insts? {
      assert done + ([inst] + rest.insts) == done + [inst] + rest.insts;
    }
  }

  /** One step of the loop, and that it gets closer to the end. */
  lemma DisasUnroll(t: OpTable, br: nat, addr: nat, d: Disas)
    requires Between(d) && Forward(Disassemble(br))
    ensures var one := VisitOne(t, Disassemble(br), d);
            && one.visitor.raw == d.raw
            && (one.result.Ok? ==>
                  && Between(one.visitor) && d.bytecode.position < one.visitor.bytecode.position
                  && DisasFrom(t, br, addr, d) ==
                     if d.bytecode.position + addr >= AddressLimit then Overflow
                     else Cons(Inst(d.bytecode.position + addr, d.raw[d.bytecode.position..one.visitor.bytecode.position]),
                               DisasFrom(t, br, addr, one.visitor)))
            && (one.result.Err? ==>
                  DisasFrom(t, br, addr, d) ==
                  if d.bytecode.bytecode == [] then Insts([]) else Failed(one.result.error))
  {
    hide VisitOne, Tiled, Forward;
    OneTiles(t, br, d);
    VisitMoves(t, Disassemble(br), d);
    EndsAtEof(t, br, d);
  }

  function Bytes(insts: seq<Inst>): seq<Byte> {
    if insts == [] then [] else insts[0].bytes + Bytes(insts[1..])
  }

  /** Each address is where the bytes of the instructions before it end. */
  ghost predicate Addressed(insts: seq<Inst>, base: nat)
    decreases |insts|
  {
    insts != [] ==> insts[0].address == base && Addressed(insts[1..], base + |insts[0].bytes|)
  }

  lemma {:induction false} AddressIs(insts: seq<Inst>, base: nat, k: nat)
    requires Addressed(insts, base) && k < |insts|
    ensures insts[k].address == base + |Bytes(insts[..k])|
    decreases k
  {
    if k > 0 {
      AddressIs(insts[1..], base + |insts[0].bytes|, k - 1);
      assert insts[..k][1..] == insts[1..][..k - 1];
    }
  }

  /** Where the operations start that can be decoded before the first that cannot. */
  ghost function StartsFrom(t: OpTable, br: nat, d: Disas): seq<nat>
    requires Between(d) && Forward(Disassemble(br))
    decreases |d.bytecode.bytecode|
  {
    OneTiles(t, br, d);
    VisitMoves(t, Disassemble(br), d);
    EndsAtEof(t, br, d);
    var one := VisitOne(t, Disassemble(br), d);
    if one.result.Ok? then [d.bytecode.position] + StartsFrom(t, br, one.visitor) else []
  }

  /** An operation starts at an address that does not fit. */
  ghost predicate TooFar(starts: seq<nat>, addr: nat) {
    exists k :: 0 <= k < |starts| && addr + starts[k] >= AddressLimit
  }

  lemma StartsUnroll(t: OpTable, br: nat, addr: nat, d: Disas)
    requires Between(d) && Forward(Disassemble(br))
    ensures var one := VisitOne(t, Disassemble(br), d);
            && (one.result.Err? ==> !TooFar(StartsFrom(t, br, d), addr))
            && (one.result.Ok? ==>
                  Between(one.visitor) &&
                  (TooFar(StartsFrom(t, br, d), addr) <==>
                   addr + d.bytecode.position >= AddressLimit || TooFar(StartsFrom(t, br, one.visitor), addr)))
  {
    hide VisitOne, Forward, Tiled;
    OneTiles(t, br, d);
    VisitMoves(t, Disassemble(br), d);
    var one := VisitOne(t, Disassemble(br), d);
    if one.result.Ok? {
      TooFarCons(d.bytecode.position, StartsFrom(t, br, one.visitor), addr);
    }
  }

  lemma TooFarCons(p: nat, rest: seq<nat>, addr: nat)
    ensures TooFar([p] + rest, addr) <==> addr + p >= AddressLimit || TooFar(rest, addr)
  {
    var all := [p] + rest;
    if addr + p >= AddressLimit {
      assert addr + all[0] >= AddressLimit;
    }
    if k :| 0 <= k < |rest| && addr + rest[k] >= AddressLimit {
      assert addr + all[k + 1] >= AddressLimit;
    }
    if k :| 0 <= k < |all| && addr + all[k] >= AddressLimit {
      assert k > 0 ==> addr + rest[k - 1] >= AddressLimit;
    }
  }

  /** What disassembling from `d` on gives, if no address overflows. */
  ghost predicate Faithful(r: Outcome, addr: nat, d: Disas, all: Visited<Disas, seq<()>>)
    requires InBounds(d)
  {
    && (all.result.Err? ==> r == Failed(all.result.error))
    && (all.result.Ok? ==>
          && r.Insts? && |r.insts| == |all.result.value|
          && Bytes(r.insts) == d.bytecode.bytecode
          && Addressed(r.insts, addr + d.bytecode.position))
  }

  lemma {:induction false} DisasFromFaithful(t: OpTable, br: nat, addr: nat, d: Disas)
    requires Between(d) && Forward(Disassemble(br))
    ensures DisasFrom(t, br, addr, d) == Overflow <==> TooFar(StartsFrom(t, br, d), addr)
    ensures DisasFrom(t, br, addr, d) != Overflow ==> Faithful(DisasFrom(t, br, addr, d), addr, d, VisitAll(t, Disassemble(br), d))
    decreases |d.bytecode.bytecode|
  {
    hide VisitOne, VisitAll, DisasFrom, StartsFrom, TooFar, Tiled, Forward;
    var vis := Disassemble(br);
    DisasUnroll(t, br, addr, d);
    StartsUnroll(t, br, addr, d);
    VisitAllUnroll(t, vis, d);
    EndsAtEof(t, br, d);
    assert vis.stream(d) == d.bytecode;
    var one := VisitOne(t, vis, d);
    if one.result.Ok? {
      assert vis.stream(one.visitor) == one.visitor.bytecode;
      DisasFromFaithful(t, br, addr, one.visitor);
      var p, q := d.bytecode.position, one.visitor.bytecode.position;
      ConsFaithful(d, addr, p, q, DisasFrom(t, br, addr, one.visitor));
    }
  }

  lemma ConsFaithful(d: Disas, addr: nat, p: nat, q: nat, rest: Outcome)
    requires InBounds(d) && p == d.bytecode.position < q <= |d.raw|
    ensures rest.Insts? && Bytes(rest.insts) == d.raw[q..] && Addressed(rest.insts, addr + q) ==>
              var insts := Cons(Inst(p + addr, d.raw[p..q]), rest).insts;
              Bytes(insts) == d.bytecode.bytecode && Addressed(insts, addr + p)
  {
    if rest.Insts? {
      var insts := [Inst(p + addr, d.raw[p..q])] + rest.insts;
      assert insts[1..] == rest.insts;
      assert d.raw[p..q] + d.raw[q..] == d.raw[p..];
    }
  }

  /**
    Disassembling overflows exactly if an operation that can be decoded starts at an address that does not
    fit.  Otherwise the function is disassembled exactly if everything in it can be decoded, into one
    instruction for each operation; the instructions' bytes make up the function and each address is `addr`
    plus the bytes before it.
   */
  lemma DisasPulleyFaithful(t: OpTable, br: nat, func: seq<Byte>, addr: nat)
    ensures Between(New(func, addr)) && Forward(Disassemble(br))
    ensures var r := DisasFrom(t, br, addr, New(func, addr));
            var all := VisitAll(t, Disassemble(br), New(func, addr));
            && (r == Overflow <==> TooFar(StartsFrom(t, br, New(func, addr)), addr))
            && (r != Overflow ==> (r.Insts? <==> all.result.Ok?))
            && (r != Overflow && all.result.Err? ==> r == Failed(all.result.error))
            && (r.Insts? ==>
                  && |r.insts| == |all.result.value|
                  && Bytes(r.insts) == func
                  && forall k :: 0 <= k < |r.insts| ==> r.insts[k].address == addr + |Bytes(r.insts[..k])|)
  {
    hide VisitAll, DisasFrom, StartsFrom, TooFar, Forward, Tiled;
    DisassembleForward(br);
    NewBetween(func, addr);
    DisasFromFaithful(t, br, addr, New(func, addr));
    var r := DisasFrom(t, br, addr, New(func, addr));
    if r.Insts? {
      forall k | 0 <= k < |r.insts| ensures r.insts[k].address == addr + |Bytes(r.insts[..k])| {
        AddressIs(r.insts, addr, k);
      }
    }
  }

  /** A function that ends within the address space never overflows. */
  lemma {:induction false} InsideNeverTooFar(t: OpTable, br: nat, addr: nat, d: Disas)
    requires Between(d) && Forward(Disassemble(br)) && addr + |d.raw| <= AddressLimit
    ensures !TooFar(StartsFrom(t, br, d), addr)
    decreases |d.bytecode.bytecode|
  {
    hide VisitOne, StartsFrom, TooFar, Tiled, Forward;
    StartsUnroll(t, br, addr, d);
    DisasUnroll(t, br, addr, d);
    if VisitOne(t, Disassemble(br), d).result.Ok? {
      InsideNeverTooFar(t, br, addr, VisitOne(t, Disassemble(br), d).visitor);
    }
  }

  // ----- Programs with their tables -----

  /** An operation and the branch table after it. */
  datatype Item = Item(op: Op, table: seq<int>)

  /** The branch-table operation, which has a register and the count of its entries. */
  ghost predicate HasTable(br: nat, op: Op) {
    !op.isExtended && op.code == br && |op.fields| == 2 && op.fields[1].Num?
  }

  /** As many entries follow as a branch table counts, and none follow any other operation. */
  ghost predicate ItemOk(t: OpTable, br: nat, item: Item) {
    OpOk(t, item.op) && if HasTable(br, item.op) then |item.table| == item.op.fields[1].value else item.table == []
  }

  lemma CountedEntries(t: OpTable, br: nat, item: Item)
    requires ItemOk(t, br, item)
    ensures TableSize(br, item.op) == |item.table|
  {
    hide OpOk;
  }

  function EncodeTable(table: seq<int>): seq<Byte> {
    if table == [] then [] else LeBytes(4, ToUnsigned(4, table[0])) + EncodeTable(table[1..])
  }

  function EncodeItem(t: OpTable, item: Item): seq<Byte>
    requires TableOk(t) && OpOk(t, item.op)
  {
    EncodeOp(t, item.op) + EncodeTable(item.table)
  }

  ghost predicate ItemsOk(t: OpTable, br: nat, items: seq<Item>) {
    forall item :: item in items ==> ItemOk(t, br, item)
  }

  function EncodeItems(t: OpTable, br: nat, items: seq<Item>): seq<Byte>
    requires TableOk(t) && ItemsOk(t, br, items)
  {
    if items == [] then []
    else
      assert ItemOk(t, br, items[0]);
      EncodeItem(t, items[0]) + EncodeItems(t, br, items[1..])
  }

  lemma {:induction false} TableLength(table: seq<int>)
    ensures |EncodeTable(table)| == 4 * |table|
  {
    if table != [] {
      TableLength(table[1..]);
    }
  }

  /** An encoded operation and its table are taken together. */
  lemma {:induction false} VisitItem(t: OpTable, br: nat, item: Item, rest: seq<Byte>, d: Disas)
    requires TableOk(t) && ItemOk(t, br, item) && d.bytecode.Safe? && d.bytecode.bytecode == EncodeItem(t, item) + rest
    ensures var one := VisitOne(t, Disassemble(br), d);
            && one.result == Ok(())
            && one.visitor.bytecode == Safe(rest, d.bytecode.position + |EncodeItem(t, item)|)
  {
    hide DecodeOne, EncodeOp, OpOk, TableLoop, EncodeTable, EntryLines, MaskOp, Codes;
    var e, table := EncodeOp(t, item.op), EncodeTable(item.table);
    var p := d.bytecode.position;
    assert d.bytecode.bytecode == e + (table + rest);
    OpCanonical(t, item.op);
    OpAccepts(t, item.op, e, table + rest, p);
    var moved := Before(d).(bytecode := Safe(table + rest, p + |e|));
    TableLength(item.table);
    var amt := |item.table|;
    CountedEntries(t, br, item);
    TableShape(moved, amt);
    assert Min(amt, |table + rest| / 4) == amt;
    assert (table + rest)[4 * amt..] == rest;
  }

  ghost predicate ShowsItems(t: OpTable, br: nat, items: seq<Item>, insts: seq<Inst>)
    requires TableOk(t) && ItemsOk(t, br, items)
  {
    |insts| == |items| && forall k :: 0 <= k < |items| ==> ItemOk(t, br, items[k]) && insts[k].bytes == EncodeItem(t, items[k])
  }

  /**
    Encoded operations with their tables are disassembled into one instruction each, with exactly its bytes: those of
    the operation and, for a branch table with count `n`, `n` entries of four bytes.
   */
  lemma {:induction false} DisasItems(t: OpTable, br: nat, items: seq<Item>, addr: nat, d: Disas)
    requires TableOk(t) && ItemsOk(t, br, items) && Between(d) && Forward(Disassemble(br)) && addr + |d.raw| <= AddressLimit
    requires d.bytecode.bytecode == EncodeItems(t, br, items)
    ensures var r := DisasFrom(t, br, addr, d); r.Insts? && ShowsItems(t, br, items, r.insts)
    decreases |items|
  {
    hide VisitOne, DisasFrom, Tiled, Forward, EncodeItem, ItemOk;
    DisasUnroll(t, br, addr, d);
    EndsAtEof(t, br, d);
    if items != [] {
      var item, rest := items[0], items[1..];
      assert item in items && forall i :: i in rest ==> i in items;
      VisitItem(t, br, item, EncodeItems(t, br, rest), d);
      var one := VisitOne(t, Disassemble(br), d);
      DisasItems(t, br, rest, addr, one.visitor);
      var p, q := d.bytecode.position, one.visitor.bytecode.position;
      assert d.raw[p..q] == d.bytecode.bytecode[..q - p];
    }
  }
}
