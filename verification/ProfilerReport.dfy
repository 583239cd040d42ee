/** The loops of the profiler: over the events of a profile, and over the instructions of a function. */
module ProfilerReport {
  import opened Options
  import opened Bits
  import opened Profile
  import opened Profiler
  import opened PulleyOps
  import opened PulleyDecode
  import opened PulleyVisitors
  import opened PulleyDisas
  import opened DisasPulley

  // ----- Events -----

  datatype Report = Counted | Panicked(reason: Panic) | NoFunctions | NoSamples

  class ProfilerTables {
    var functions: map<nat, Func>
    var total: nat
    var foundSamples: bool

    function View(): Tally
      reads this
    {
      Tally(functions, total)
    }

    constructor ()
      ensures View() == Tally(map[], 0) && !foundSamples
    {
      functions, total, foundSamples := map[], 0, false;
    }

    method AddFunction(addr: nat, name: seq<Byte>, body: seq<Byte>) returns (panic: Option<Panic>)
      modifies this
      ensures foundSamples == old(foundSamples)
      ensures panic.None? ==> Fine(View()) == Insert(old(View()), addr, name, body)
      ensures panic.Some? ==> Panics(panic.value) == Insert(old(View()), addr, name, body)
    {
      var prev := addr in functions;
      functions := functions[addr := Func(addr, 0, name, body, map[])];
      panic := if prev then Some(DuplicateFunction) else None;
    }

    /** One sample: the total, the function's hits and the count at the offset, in this order. */
    method AddSample(pc: nat) returns (panic: Option<Panic>)
      modifies this
      ensures foundSamples == old(foundSamples)
      ensures panic.None? ==> Fine(View()) == Charge(old(View()), pc)
      ensures panic.Some? ==> Panics(panic.value) == Charge(old(View()), pc)
    {
      Limits();
      hide Limit;
      var found := Floor(functions, pc);
      if found.None? {
        return Some(NoFunction);
      }
      var k := found.value;
      var f := functions[k];
      if pc < f.addr {
        return Some(OutsideBody);
      }
      if f.addr + |f.body| >= 0x1_0000_0000_0000_0000 {
        return Some(AddressOverflow);
      }
      if pc >= f.addr + |f.body| {
        return Some(OutsideBody);
      }
      if total >= MaxTotal {
        return Some(TotalOverflow);
      }
      total := total + 1;
      if f.hits + 1 >= 0x1_0000_0000_0000_0000 {
        return Some(HitsOverflow);
      }
      f := f.(hits := f.hits + 1);
      var offset := pc - f.addr;
      if offset >= 0x1_0000_0000 {
        return Some(OffsetOverflow);
      }
      var count := if offset in f.instructions then f.instructions[offset] else 0;
      if count + 1 >= 0x1_0000_0000 {
        return Some(CountOverflow);
      }
      f := f.(instructions := f.instructions[offset := count + 1]);
      functions := functions[k := f];
      return None;
    }

    method AddSamples(pcs: seq<nat>) returns (panic: Option<Panic>)
      modifies this
      ensures foundSamples
      ensures panic.None? ==> Fine(View()) == ChargeAll(old(View()), pcs)
      ensures panic.Some? ==> Panics(panic.value) == ChargeAll(old(View()), pcs)
    {
      hide Charge;
      foundSamples := true;
      assert pcs[0..] == pcs;
      for i := 0 to |pcs|
        invariant foundSamples
        invariant ChargeAll(View(), pcs[i..]) == ChargeAll(old(View()), pcs)
      {
        assert pcs[i..][0] == pcs[i] && pcs[i..][1..] == pcs[i + 1..];
        panic := AddSample(pcs[i]);
        if panic.Some? {
          return;
        }
      }
      return None;
    }

    /** All events, and then whether there was anything to report. */
    method TakeEvents(es: seq<Event>) returns (report: Report)
      requires View() == Tally(map[], 0) && !foundSamples
      modifies this
      ensures report.Panicked? <==> TakeAll(old(View()), es).Panics?
      ensures report.Panicked? ==> TakeAll(old(View()), es) == Panics(report.reason)
      ensures !report.Panicked? ==> TakeAll(old(View()), es) == Fine(View())
      ensures report == NoFunctions ==> functions == map[]
      ensures report in {Counted, NoSamples} ==> functions != map[]
      ensures !report.Panicked? ==> (foundSamples <==> exists k :: 0 <= k < |es| && es[k].Samples?)
      ensures report == Counted ==> foundSamples
      ensures report == NoSamples ==> !foundSamples
    {
      hide ChargeAll;
      assert es[0..] == es;
      for i := 0 to |es|
        invariant TakeAll(View(), es[i..]) == TakeAll(old(View()), es)
        invariant foundSamples <==> exists k :: 0 <= k < i && es[k].Samples?
      {
        assert es[i..][0] == es[i] && es[i..][1..] == es[i + 1..];
        var panic;
        match es[i] {
          case Function(addr, name, body) => panic := AddFunction(addr, name, body);
          case Samples(pcs) => panic := AddSamples(pcs);
        }
        if panic.Some? {
          return Panicked(panic.value);
        }
      }
      if functions == map[] {
        return NoFunctions;
      }
      if !foundSamples {
        return NoSamples;
      }
      return Counted;
    }
  }

  // ----- Instructions -----

  datatype Walk = Walked(remaining: map<nat, nat>) | Undecodable(error: DecodingError)

  /** The addresses at which instructions start. */
  ghost predicate StartsAt(insts: seq<Inst>, address: nat) {
    exists k :: 0 <= k < |insts| && insts[k].address == address
  }

  /** `left` is `counts` without the offsets at which an instruction starts. */
  ghost predicate Uncounted(counts: map<nat, nat>, insts: seq<Inst>, left: map<nat, nat>) {
    left == map offset | offset in counts && !StartsAt(insts, offset) :: counts[offset]
  }

  /**
    The walk takes the count of each instruction out of the map, at an offset that it keeps by adding up
    sizes.  What is left are the counts at which no instruction starts.
   */
  method WalkInstructions(t: OpTable, br: nat, body: seq<Byte>, counts: map<nat, nat>) returns (r: Walk)
    requires |body| < Limit(4)
    ensures Between(New(body, 0)) && Forward(Disassemble(br))
    ensures var all := DisasFrom(t, br, 0, New(body, 0));
            match r
            case Undecodable(e) => all == DisasPulley.Failed(e)
            case Walked(left) => all.Insts? && Uncounted(counts, all.insts, left)
  {
    DisassembleForward(br);
    NewBetween(body, 0);
    BodyBelowLimit(body);
    hide VisitOne, Forward, Tiled, DisasFrom, Limit, Uncounted;
    var disas := new Disassembler(body, 0);
    var left := counts;
    var offset, remaining := 0, |body|;
    ghost var all := DisasFrom(t, br, 0, New(body, 0));
    ghost var insts: seq<Inst> := [];
    AppendNone(all);
    NoneCounted(counts);
    while disas.bytecode.bytecode != []
      invariant Between(disas.View()) && disas.rawBytecode == body
      invariant offset == disas.bytecode.position && remaining == |disas.bytecode.bytecode| == |body| - offset
      invariant all == Append(insts, DisasFrom(t, br, 0, disas.View()))
      invariant Uncounted(counts, insts, left)
      decreases |disas.bytecode.bytecode|
    {
      DisasUnroll(t, br, 0, disas.View());
      var one := disas.DecodeOneInto(t, br);
      if one.Err? {
        return Undecodable(one.error);
      }
      ghost var inst := Inst(offset, body[offset..disas.bytecode.position]);
      AppendCons(insts, inst, DisasFrom(t, br, 0, disas.View()));
      OneCounted(counts, insts, left, inst);
      insts := insts + [inst];
      left := left - {offset};
      var size := remaining - |disas.bytecode.bytecode|;
      offset := offset + size;
      remaining := |disas.bytecode.bytecode|;
    }
    EndOfCode(t, br, disas.View());
    assert insts + [] == insts;
    r := Walked(left);
  }

  lemma BodyBelowLimit(body: seq<Byte>)
    requires |body| < Limit(4)
    ensures |body| < AddressLimit
  {
    Limits();
  }

  lemma EndOfCode(t: OpTable, br: nat, d: Disas)
    requires Between(d) && Forward(Disassemble(br)) && d.bytecode.bytecode == []
    ensures DisasFrom(t, br, 0, d) == Insts([])
  {
    hide VisitOne, DisasFrom;
    EndsAtEof(t, br, d);
    DisasUnroll(t, br, 0, d);
  }

  lemma NoneCounted(counts: map<nat, nat>)
    ensures Uncounted(counts, [], counts)
  {
  }

  lemma OneCounted(counts: map<nat, nat>, insts: seq<Inst>, left: map<nat, nat>, inst: Inst)
    requires Uncounted(counts, insts, left)
    ensures Uncounted(counts, insts + [inst], left - {inst.address})
  {
    forall offset: nat ensures StartsAt(insts + [inst], offset) <==> StartsAt(insts, offset) || offset == inst.address {
      if StartsAt(insts, offset) {
        var k :| 0 <= k < |insts| && insts[k].address == offset;
        assert (insts + [inst])[k].address == offset;
      }
      assert (insts + [inst])[|insts|].address == inst.address;
    }
  }

  /** Nothing is left, as the program then asserts, exactly if an instruction starts at every sampled offset. */
  lemma EmptyIffAllStart(counts: map<nat, nat>, insts: seq<Inst>, left: map<nat, nat>)
    requires Uncounted(counts, insts, left)
    ensures left == map[] <==> forall offset :: offset in counts ==> StartsAt(insts, offset)
  {
    if left == map[] {
      forall offset | offset in counts ensures StartsAt(insts, offset) {
        assert offset !in left;
      }
    }
  }
}
