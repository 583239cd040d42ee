/**
  The disassembler as a visitor: which bytes each line of its output covers.  The entries of a branch
  table follow its operation in the bytecode and are lines of their own.
 */
module PulleyDisas {
  import opened Bits
  import opened PulleyOps
  import opened PulleyDecode
  import opened PulleyVisitors

  /** A line shows an offset and the bytes in `[from, to)`. */
  datatype Line = Line(offset: nat, from: nat, to: nat)

  datatype Disas = Disas(raw: seq<Byte>, bytecode: Stream, startOffset: nat, start: nat, lines: seq<Line>)

  const Entry := Atom(4, false, false)

  function New(raw: seq<Byte>, startOffset: nat): Disas {
    Disas(raw, Safe(raw, 0), startOffset, 0, [])
  }

  function Position(s: Stream): nat {
    match s case Safe(_, p) => p case Raw(_, p) => p
  }

  // ----- Callbacks -----

  function Before(d: Disas): Disas {
    d.(start := Position(d.bytecode))
  }

  function After(d: Disas): Disas {
    d.(lines := d.lines + [Line(d.start + d.startOffset, d.start, Position(d.bytecode))])
  }

  /** The line so far, then the next entry; one that does not fit leaves the stream where it is. */
  function TableEntry(d: Disas): Disas {
    var next := Before(After(d));
    next.(bytecode := DecodeAtom(Entry, next.bytecode).stream)
  }

  function TableLoop(d: Disas, amt: nat): Disas
    decreases amt
  {
    if amt == 0 then d else TableLoop(TableEntry(d), amt - 1)
  }

  /** How many entries follow `op`, where `br` is the code of the branch-table operation. */
  function TableSize(br: nat, op: Op): nat {
    if !op.isExtended && op.code == br && |op.fields| == 2 && op.fields[1].Num? && op.fields[1].value >= 0
    then op.fields[1].value else 0
  }

  function Disassemble(br: nat): Visitor<Disas, ()> {
    Visitor(
      (d: Disas) => d.bytecode,
      (d: Disas, s: Stream) => d.(bytecode := s),
      (d: Disas) => Before(d),
      (d: Disas, op: Op) => (TableLoop(d, TableSize(br, op)), ()),
      (d: Disas) => After(d))
  }

  lemma {:induction false} TableMoves(d: Disas, amt: nat)
    requires d.bytecode.Safe?
    ensures Moved(d.bytecode, TableLoop(d, amt).bytecode)
    decreases amt
  {
    if amt == 0 {
      assert d.bytecode.bytecode[0..] == d.bytecode.bytecode;
    } else {
      AtomMoves(Entry, d.bytecode);
      TableMoves(TableEntry(d), amt - 1);
      MovedTwice(d.bytecode, TableEntry(d).bytecode, TableLoop(d, amt).bytecode);
    }
  }

  lemma DisassembleForward(br: nat)
    ensures Forward(Disassemble(br))
  {
    var vis := Disassemble(br);
    forall d: Disas, op: Op | vis.stream(d).Safe? ensures Moved(vis.stream(d), vis.stream(vis.visit(d, op).0)) {
      TableMoves(d, TableSize(br, op));
    }
  }

  // ----- Tiling -----

  function Edge(lines: seq<Line>, k: nat): nat
    requires k <= |lines|
  {
    if k == 0 then 0 else lines[k - 1].to
  }

  /** The lines cover `[0, to)` in order, each starting where the one before ends, and show their offsets. */
  ghost predicate Tiled(lines: seq<Line>, startOffset: nat, to: nat) {
    && Edge(lines, |lines|) == to
    && forall k :: 0 <= k < |lines| ==>
                     Edge(lines, k) == lines[k].from <= lines[k].to && lines[k].offset == lines[k].from + startOffset
  }

  /** What is read is the raw bytecode, and what is left of it is its tail. */
  ghost predicate InBounds(d: Disas) {
    d.bytecode.Safe? && d.bytecode.position <= |d.raw| && d.bytecode.bytecode == d.raw[d.bytecode.position..]
  }

  /** In the middle of an operation: the lines end where it starts. */
  ghost predicate Inside(d: Disas) {
    InBounds(d) && d.start <= d.bytecode.position && Tiled(d.lines, d.startOffset, d.start)
  }

  /** Between two operations: the lines end where the stream is. */
  ghost predicate Between(d: Disas) {
    InBounds(d) && Tiled(d.lines, d.startOffset, d.bytecode.position)
  }

  lemma NewBetween(raw: seq<Byte>, startOffset: nat)
    ensures Between(New(raw, startOffset))
  {
    assert raw[0..] == raw;
  }

  lemma AfterTiles(d: Disas)
    requires Inside(d)
    ensures Between(After(d))
  {
    var lines := After(d).lines;
    forall k | 0 <= k < |lines|
      ensures Edge(lines, k) == lines[k].from <= lines[k].to && lines[k].offset == lines[k].from + d.startOffset
    {
      assert Edge(lines, k) == Edge(d.lines, k);
      if k < |d.lines| {
        assert lines[k] == d.lines[k];
      }
    }
  }

  lemma MovedInBounds(d: Disas, s: Stream)
    requires InBounds(d) && Moved(d.bytecode, s)
    ensures InBounds(d.(bytecode := s)) && s.position >= d.bytecode.position
  {
    var n := s.position - d.bytecode.position;
    assert d.raw[d.bytecode.position..][n..] == d.raw[s.position..];
  }

  lemma {:induction false} TableTiles(d: Disas, amt: nat)
    requires Inside(d)
    ensures Inside(TableLoop(d, amt))
    decreases amt
  {
    hide Tiled;
    if amt > 0 {
      AfterTiles(d);
      var next := Before(After(d));
      AtomMoves(Entry, next.bytecode);
      MovedInBounds(next, DecodeAtom(Entry, next.bytecode).stream);
      TableTiles(TableEntry(d), amt - 1);
    }
  }

  /** One operation with its table adds lines that reach to where the stream then is. */
  lemma {:induction false} OneTiles(t: OpTable, br: nat, d: Disas)
    requires Between(d)
    ensures var r := VisitOne(t, Disassemble(br), d);
            r.visitor.raw == d.raw && if r.result.Ok? then Between(r.visitor) else Inside(r.visitor) && r.visitor.lines == d.lines
  {
    hide DecodeOne, Tiled, TableLoop;
    var before := Before(d);
    OneMoves(t, before.bytecode);
    var r := DecodeOne(t, before.bytecode);
    MovedInBounds(before, r.stream);
    if r.result.Ok? {
      var moved := before.(bytecode := r.stream);
      var amt := TableSize(br, r.result.value);
      TableTiles(moved, amt);
      TableKeeps(moved, amt);
      AfterTiles(TableLoop(moved, amt));
    }
  }

  lemma {:induction false} TableKeeps(d: Disas, amt: nat)
    ensures var r := TableLoop(d, amt); r.raw == d.raw && r.startOffset == d.startOffset
    decreases amt
  {
    if amt > 0 {
      TableKeeps(TableEntry(d), amt - 1);
    }
  }

  /**
    Over a whole run the lines tile the bytecode: all of it if everything could be decoded, else what is
    before the operation that could not.
   */
  lemma {:induction false} RunTiles(t: OpTable, br: nat, d: Disas)
    requires Between(d) && Forward(Disassemble(br))
    ensures var r := VisitAll(t, Disassemble(br), d);
            && r.visitor.raw == d.raw
            && (r.result.Ok? ==> Tiled(r.visitor.lines, r.visitor.startOffset, |d.raw|))
            && (r.result.Err? ==> Inside(r.visitor))
    decreases |d.bytecode.bytecode|
  {
    hide VisitOne, VisitAll, Tiled, Forward;
    var vis := Disassemble(br);
    VisitAllUnroll(t, vis, d);
    assert vis.stream(d) == d.bytecode;
    if d.bytecode.bytecode != [] {
      OneTiles(t, br, d);
      var one := VisitOne(t, vis, d);
      assert vis.stream(one.visitor) == one.visitor.bytecode;
      if one.result.Ok? {
        RunTiles(t, br, one.visitor);
      }
    }
  }

  lemma TiledNone(startOffset: nat, to: nat)
    ensures Tiled([], startOffset, to) <==> to == 0
  {
  }

  lemma TiledFront(lines: seq<Line>, startOffset: nat, to: nat)
    requires Tiled(lines, startOffset, to) && lines != []
    ensures var n := |lines| - 1;
            Tiled(lines[..n], startOffset, lines[n].from) && lines[n].from <= lines[n].to == to
  {
    var n := |lines| - 1;
    var front := lines[..n];
    assert Edge(front, n) == Edge(lines, n);
    forall k | 0 <= k < n
      ensures Edge(front, k) == front[k].from <= front[k].to && front[k].offset == front[k].from + startOffset
    {
      assert front[k] == lines[k] && Edge(front, k) == Edge(lines, k);
    }
  }

  /** Lines that tile the bytecode are in bounds and in order, and show all of it. */
  lemma {:induction false} TiledBytes(lines: seq<Line>, startOffset: nat, raw: seq<Byte>, to: nat)
    requires Tiled(lines, startOffset, to) && to <= |raw|
    ensures forall k :: 0 <= k < |lines| ==> lines[k].from <= lines[k].to <= to
    ensures Shown(lines, raw) == raw[..to]
    decreases |lines|
  {
    hide Tiled;
    if lines == [] {
      TiledNone(startOffset, to);
      assert raw[..0] == [];
    } else {
      TiledFront(lines, startOffset, to);
      var n := |lines| - 1;
      var front, last := lines[..n], lines[n];
      TiledBytes(front, startOffset, raw, last.from);
      forall k | 0 <= k < n ensures lines[k].from <= lines[k].to <= to {
        assert front[k] == lines[k];
      }
      assert raw[..last.from] + raw[last.from..last.to] == raw[..to];
    }
  }

  /** The bytes of all lines, one after the other. */
  function Shown(lines: seq<Line>, raw: seq<Byte>): seq<Byte> {
    if lines == [] then []
    else
      var n := |lines| - 1;
      var l := lines[n];
      Shown(lines[..n], raw) + if l.from <= l.to <= |raw| then raw[l.from..l.to] else []
  }

  // ----- The lines of a branch table -----

  function Min(a: nat, b: nat): nat {
    if a <= b then a else b
  }

  /** Where entry `i` starts, if `full` entries fit after `p`. */
  function EntryStart(p: nat, full: nat, i: nat): nat {
    p + 4 * Min(i, full)
  }

  lemma EntryShift(p: nat, full: nat, i: nat)
    requires full > 0 && i > 0
    ensures EntryStart(p + 4, full - 1, i - 1) == EntryStart(p, full, i)
  {
  }

  function EntryLines(p: nat, full: nat, startOffset: nat, amt: nat): seq<Line> {
    seq(amt, i requires 0 <= i < amt =>
          Line(EntryStart(p, full, i) + startOffset, EntryStart(p, full, i), EntryStart(p, full, i + 1)))
  }

  /** The entries after the first one. */
  lemma EntryLinesUnroll(p: nat, full: nat, startOffset: nat, amt: nat)
    requires full <= amt && amt > 0
    ensures full == 0 ==> EntryLines(p, 0, startOffset, amt) == [Line(p + startOffset, p, p)] + EntryLines(p, 0, startOffset, amt - 1)
    ensures full > 0 ==> EntryLines(p, full, startOffset, amt) ==
                         [Line(p + startOffset, p, p + 4)] + EntryLines(p + 4, full - 1, startOffset, amt - 1)
  {
    var all := EntryLines(p, full, startOffset, amt);
    if full > 0 {
      var rest := EntryLines(p + 4, full - 1, startOffset, amt - 1);
      forall i | 0 < i < amt ensures all[i] == rest[i - 1] {
        EntryShift(p, full, i);
        EntryShift(p, full, i + 1);
      }
      assert all[0] == Line(p + startOffset, p, p + 4);
      assert all == [Line(p + startOffset, p, p + 4)] + rest;
    } else {
      var rest := EntryLines(p, 0, startOffset, amt - 1);
      forall i | 0 < i < amt ensures all[i] == rest[i - 1] {
        assert EntryStart(p, 0, i) == EntryStart(p, 0, i - 1) == EntryStart(p, 0, i + 1) == p;
      }
      assert all[0] == Line(p + startOffset, p, p);
      assert all == [Line(p + startOffset, p, p)] + rest;
    }
  }

  lemma TableEntryIs(d: Disas)
    requires d.bytecode.Safe?
    ensures var p, rest := d.bytecode.position, d.bytecode.bytecode;
            TableEntry(d) == Disas(d.raw, if |rest| < 4 then d.bytecode else Safe(rest[4..], p + 4), d.startOffset, p,
                                   d.lines + [Line(d.start + d.startOffset, d.start, p)])
  {
  }

  /** What the lines and the stream are after a table of `amt` entries and the callback that ends it. */
  function AfterTable(d: Disas, amt: nat): Disas
    requires d.bytecode.Safe?
  {
    var p, full := d.bytecode.position, Min(amt, |d.bytecode.bytecode| / 4);
    Disas(d.raw, Safe(d.bytecode.bytecode[4 * full..], p + 4 * full), d.startOffset,
          if amt == 0 then d.start else EntryStart(p, full, amt - 1),
          d.lines + [Line(d.start + d.startOffset, d.start, p)] + EntryLines(p, full, d.startOffset, amt))
  }

  /**
    A table shows the operation, then each entry: four bytes while they last, and then an empty line for
    each entry that is missing.
   */
  lemma {:induction false} TableShape(d: Disas, amt: nat)
    requires d.bytecode.Safe?
    ensures After(TableLoop(d, amt)) == AfterTable(d, amt)
    decreases amt
  {
    hide EntryLines, TableEntry, DecodeAtom;
    if amt == 0 {
      assert d.bytecode.bytecode[0..] == d.bytecode.bytecode;
      NoEntryLines(d.bytecode.position, 0, d.startOffset);
    } else {
      TableEntryIs(d);
      TableShape(TableEntry(d), amt - 1);
      TableStep(d, amt);
    }
  }

  lemma NoEntryLines(p: nat, full: nat, startOffset: nat)
    ensures EntryLines(p, full, startOffset, 0) == []
  {
  }

  lemma {:induction false} TableStep(d: Disas, amt: nat)
    requires d.bytecode.Safe? && amt > 0 && TableEntry(d).bytecode.Safe?
    ensures AfterTable(d, amt) == AfterTable(TableEntry(d), amt - 1)
  {
    hide EntryLines, TableEntry, DecodeAtom;
    var p, rest := d.bytecode.position, d.bytecode.bytecode;
    var full := Min(amt, |rest| / 4);
    TableEntryIs(d);
    EntryLinesUnroll(p, full, d.startOffset, amt);
    if amt == 1 {
      NoEntryLines(p, 0, d.startOffset);
      NoEntryLines(p + 4, 0, d.startOffset);
    }
    if full > 0 {
      assert |rest[4..]| / 4 == |rest| / 4 - 1;
      assert rest[4..][4 * (full - 1)..] == rest[4 * full..];
    }
  }
}
