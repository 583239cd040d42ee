/** Recording a profile: samples are collected in a buffer and written out between functions. */
module Recorder {
  import opened Bits
  import opened Profile

  /** A buffer that starts with room for the count, which is filled in when it is written. */
  class SampleBuffer {
    var data: seq<Byte>
    var samples: nat

    ghost predicate Valid()
      reads this
    {
      samples < Limit(4) && |data| >= 4
    }

    /** The buffer holds exactly these program counters. */
    ghost predicate Holds(pcs: seq<nat>)
      reads this
    {
      Valid() && samples == |pcs| && data[4..] == PcBytes(pcs)
    }

    constructor ()
      ensures Holds([])
    {
      data, samples := [0, 0, 0, 0], 0;
      Limits();
    }

    /** A count past 32 bits is an overflow, after the sample was put in the buffer. */
    method Append(sample: nat, ghost pcs: seq<nat>) returns (ok: bool)
      requires Holds(pcs)
      modifies this
      ensures data == old(data) + LeBytes(8, sample)
      ensures ok == (old(samples) + 1 < Limit(4))
      ensures samples == if ok then old(samples) + 1 else old(samples)
      ensures Valid()
      ensures ok ==> Holds(pcs + [sample])
    {
      PcBytesConcat(pcs, [sample]);
      PcBytesOne(sample);
      hide LeBytes, Limit, PcBytes;
      ghost var was := data;
      data := data + LeBytes(8, sample);
      assert data[4..] == was[4..] + LeBytes(8, sample);
      ok := samples + 1 < 0x1_0000_0000;
      assert Limit(4) == 0x1_0000_0000 by {
        Limits();
      }
      if ok {
        samples := samples + 1;
      }
    }

    method Finalize(ghost pcs: seq<nat>)
      requires Holds(pcs)
      modifies this
      ensures data == LeBytes(4, samples) + old(data[4..]) && samples == old(samples)
      ensures Holds(pcs) && data == LeBytes(4, |pcs|) + PcBytes(pcs)
    {
      ghost var tail := data[4..];
      data := LeBytes(4, samples) + data[4..];
      assert data[4..] == tail;
    }

    method Reset()
      modifies this
      ensures Holds([])
    {
      data, samples := [0, 0, 0, 0], 0;
      Limits();
    }
  }

  lemma PcBytesOne(pc: nat)
    ensures PcBytes([pc]) == LeBytes(8, pc)
  {
    hide LeBytes;
    assert [pc][1..] == [] && PcBytes([]) == [];
  }

  lemma {:induction false} PcBytesConcat(a: seq<nat>, b: seq<nat>)
    ensures PcBytes(a + b) == PcBytes(a) + PcBytes(b)
    decreases |a|
  {
    hide LeBytes;
    if a == [] {
      assert a + b == b;
    } else {
      assert (a + b)[1..] == a[1..] + b;
      PcBytesConcat(a[1..], b);
    }
  }

  /** The parts of a function's record, one written after the other. */
  lemma FunctionParts(file: seq<Byte>, addr: nat, name: seq<Byte>, code: seq<Byte>)
    ensures var e := EncodeEvent(Function(addr, name, code));
            var head := file + [IdFunction] + LeBytes(8, addr);
            var named := head + LeBytes(4, |name|) + name;
            && |e| == 17 + |name| + |code|
            && head == file + e[..9]
            && named == file + e[..13 + |name|]
            && named + LeBytes(4, |code|) + code == file + e
  {
    hide LeBytes;
    var e := EncodeEvent(Function(addr, name, code));
    var i, a, n, c := [IdFunction], LeBytes(8, addr), LeBytes(4, |name|), LeBytes(4, |code|);
    Regroup(i, a, n + (name + (c + code)));
    Regroup(i + a, n, name + (c + code));
    Regroup(i + a + n, name, c + code);
    Regroup(i + a + n + name, c, code);
    Prefix(i + a, n + (name + (c + code)));
    Prefix(i + a + n + name, c + code);
    Regroup(file, i, a);
    Regroup(file, i + a, n);
    Regroup(file, i + a + n, name);
    Regroup(file, i + a + n + name, c);
    Regroup(file, i + a + n + name + c, code);
  }

  lemma Regroup(a: seq<Byte>, b: seq<Byte>, c: seq<Byte>)
    ensures a + (b + c) == a + b + c
  {
  }

  lemma Prefix(a: seq<Byte>, b: seq<Byte>)
    ensures (a + b)[..|a|] == a
  {
  }

  lemma SamplesParts(file: seq<Byte>, pcs: seq<nat>)
    ensures file + [IdSamples] + (LeBytes(4, |pcs|) + PcBytes(pcs)) == file + EncodeEvent(Samples(pcs))
  {
    hide LeBytes, PcBytes;
    Regroup(file, [IdSamples], LeBytes(4, |pcs|) + PcBytes(pcs));
  }

  /** The file, as the bytes written to it. */
  class ProfileRecorder {
    var file: seq<Byte>

    constructor ()
      ensures file == []
    {
      file := [];
    }

    method WriteAll(bytes: seq<Byte>)
      modifies this
      ensures file == old(file) + bytes
    {
      file := file + bytes;
    }

    /** A length that does not fit stops it half-way, and what was written before stays. */
    method AddFunction(name: seq<Byte>, addr: nat, code: seq<Byte>) returns (ok: bool)
      modifies this
      ensures ok <==> |name| < Limit(4) && |code| < Limit(4)
      ensures ok ==> file == old(file) + EncodeEvent(Function(addr, name, code))
      ensures |name| >= Limit(4) ==> file == old(file) + EncodeEvent(Function(addr, name, code))[..9]
      ensures |name| < Limit(4) <= |code| ==> file == old(file) + EncodeEvent(Function(addr, name, code))[..13 + |name|]
    {
      Limits();
      FunctionParts(file, addr, name, code);
      hide LeBytes, Limit, EncodeEvent;
      WriteAll([IdFunction]);
      WriteAll(LeBytes(8, addr));
      if |name| >= 0x1_0000_0000 {
        return false;
      }
      WriteAll(LeBytes(4, |name|));
      WriteAll(name);
      if |code| >= 0x1_0000_0000 {
        return false;
      }
      WriteAll(LeBytes(4, |code|));
      WriteAll(code);
      return true;
    }

    method AddSamples(samples: SampleBuffer, ghost pcs: seq<nat>)
      requires samples.Holds(pcs)
      modifies this, samples
      ensures samples.Holds([])
      ensures file == old(file) + EncodeEvent(Samples(pcs))
    {
      SamplesParts(file, pcs);
      hide LeBytes, Limit, PcBytes, EncodeEvent;
      WriteAll([IdSamples]);
      samples.Finalize(pcs);
      WriteAll(samples.data);
      samples.Reset();
    }
  }

  // ----- Whole recordings -----

  datatype Command =
    | Append(pc: nat)
    | AddSamples
    | AddFunction(addr: nat, name: seq<Byte>, code: seq<Byte>)

  /** What should be in the file and in the buffer. */
  datatype Recorded = Recorded(events: seq<Event>, pending: seq<nat>)

  function Step(r: Recorded, c: Command): Recorded {
    match c
    case Append(pc) => r.(pending := r.pending + [pc])
    case AddSamples => Recorded(r.events + [Samples(r.pending)], [])
    case AddFunction(addr, name, code) => r.(events := r.events + [Function(addr, name, code)])
  }

  function Record(cs: seq<Command>): Recorded {
    if cs == [] then Recorded([], []) else Step(Record(cs[..|cs| - 1]), cs[|cs| - 1])
  }

  /** What callers are held to: addresses of 64 bits, text as names, and lengths and counts that fit in 32. */
  predicate CommandOk(r: Recorded, c: Command) {
    match c
    case Append(pc) => pc < Limit(8) && |r.pending| + 1 < Limit(4)
    case AddSamples => true
    case AddFunction(addr, name, code) => EventOk(Function(addr, name, code))
  }

  ghost predicate CommandsOk(cs: seq<Command>) {
    forall k :: 0 <= k < |cs| ==> CommandOk(Record(cs[..k]), cs[k])
  }

  lemma {:induction false} RecordedOk(cs: seq<Command>)
    requires CommandsOk(cs)
    ensures EventsOk(Record(cs).events) && EventOk(Samples(Record(cs).pending))
    decreases |cs|
  {
    if cs != [] {
      var n := |cs| - 1;
      var before := cs[..n];
      forall k | 0 <= k < n ensures CommandOk(Record(before[..k]), before[k]) {
        assert before[..k] == cs[..k];
      }
      RecordedOk(before);
      StepOk(Record(before), cs[n]);
    } else {
      Limits();
    }
  }

  lemma StepOk(r: Recorded, c: Command)
    requires EventsOk(r.events) && EventOk(Samples(r.pending)) && CommandOk(r, c)
    ensures EventsOk(Step(r, c).events) && EventOk(Samples(Step(r, c).pending))
  {
    hide Utf8;
    Limits();
  }

  lemma {:induction false} EncodeEventsConcat(a: seq<Event>, b: seq<Event>)
    ensures EncodeEvents(a + b) == EncodeEvents(a) + EncodeEvents(b)
    decreases |a|
  {
    hide EncodeEvent;
    if a == [] {
      assert a + b == b;
    } else {
      assert (a + b)[1..] == a[1..] + b;
      EncodeEventsConcat(a[1..], b);
    }
  }

  lemma EncodeEventsOne(es: seq<Event>, e: Event)
    ensures EncodeEvents(es + [e]) == EncodeEvents(es) + EncodeEvent(e)
  {
    hide EncodeEvent;
    EncodeEventsConcat(es, [e]);
    assert [e][1..] == [] && EncodeEvents([]) == [];
  }

  /** For every interleaving of calls, the file is the encoding of what was recorded. */
  method RecordAll(cs: seq<Command>) returns (recorder: ProfileRecorder, samples: SampleBuffer)
    requires CommandsOk(cs)
    ensures fresh(recorder) && fresh(samples)
    ensures recorder.file == EncodeEvents(Record(cs).events)
    ensures samples.Holds(Record(cs).pending)
    ensures Yields(recorder.file, Record(cs).events, End)
  {
    hide EncodeEvent, EventOk, Limit, Utf8;
    recorder := new ProfileRecorder();
    samples := new SampleBuffer();
    assert cs[..0] == [];
    for i := 0 to |cs|
      invariant fresh(recorder) && fresh(samples)
      invariant recorder.file == EncodeEvents(Record(cs[..i]).events)
      invariant samples.Holds(Record(cs[..i]).pending)
    {
      ghost var was := Record(cs[..i]);
      assert cs[..i + 1][..i] == cs[..i] && Record(cs[..i + 1]) == Step(was, cs[i]);
      assert CommandOk(was, cs[i]);
      match cs[i]
      case Append(pc) =>
        var ok := samples.Append(pc, was.pending);
      case AddSamples =>
        recorder.AddSamples(samples, was.pending);
        EncodeEventsOne(was.events, Samples(was.pending));
      case AddFunction(addr, name, code) =>
        FunctionFits(addr, name, code);
        var ok := recorder.AddFunction(name, addr, code);
        EncodeEventsOne(was.events, Function(addr, name, code));
    }
    assert cs[..|cs|] == cs;
    RecordedOk(cs);
    RoundTrip(Record(cs).events);
  }

  lemma FunctionFits(addr: nat, name: seq<Byte>, code: seq<Byte>)
    requires EventOk(Function(addr, name, code))
    ensures |name| < Limit(4) && |code| < Limit(4)
  {
  }
}
