/** The format of a recorded profile: functions and samples, one record after the other. */
module Profile {
  import opened Options
  import opened Bits

  const IdFunction: Byte := 1
  const IdSamples: Byte := 2

  datatype Event =
    | Function(addr: nat, name: seq<Byte>, body: seq<Byte>)
    | Samples(pcs: seq<nat>)

  datatype ProfileError =
    | InvalidAddr | InvalidNameLength | InvalidName | NotUtf8 | InvalidBodyLength | InvalidBody
    | InvalidSampleCount | InvalidSamples | UnknownId

  datatype Parsed = Event(event: Event, rest: seq<Byte>) | Bad(error: ProfileError)

  // ----- Names -----

  predicate Continues(s: seq<Byte>, i: nat, low: Byte, high: Byte) {
    i < |s| && low <= s[i] <= high
  }

  /** The length of the well-formed UTF-8 sequence that `s` starts with, or 0. */
  function Utf8Length(s: seq<Byte>): (n: nat)
    requires s != []
    ensures n <= |s|
  {
    var b := s[0];
    if b < 0x80 then 1
    else if 0xc2 <= b < 0xe0 then if Continues(s, 1, 0x80, 0xbf) then 2 else 0
    else if 0xe0 <= b < 0xf0 then
      if Continues(s, 1, if b == 0xe0 then 0xa0 else 0x80, if b == 0xed then 0x9f else 0xbf) && Continues(s, 2, 0x80, 0xbf)
      then 3 else 0
    else if 0xf0 <= b < 0xf5 then
      if Continues(s, 1, if b == 0xf0 then 0x90 else 0x80, if b == 0xf4 then 0x8f else 0xbf)
         && Continues(s, 2, 0x80, 0xbf) && Continues(s, 3, 0x80, 0xbf)
      then 4 else 0
    else 0
  }

  predicate Utf8(s: seq<Byte>) {
    s == [] || (var n := Utf8Length(s); n > 0 && Utf8(s[n..]))
  }

  // ----- Records -----

  function PcBytes(pcs: seq<nat>): seq<Byte> {
    if pcs == [] then [] else LeBytes(8, pcs[0]) + PcBytes(pcs[1..])
  }

  function PcsOf(bytes: seq<Byte>): seq<nat> {
    if |bytes| < 8 then [] else [FromLe(bytes[..8])] + PcsOf(bytes[8..])
  }

  function EncodeEvent(e: Event): seq<Byte> {
    match e
    case Function(addr, name, body) =>
      [IdFunction] + (LeBytes(8, addr) + (LeBytes(4, |name|) + (name + (LeBytes(4, |body|) + body))))
    case Samples(pcs) => [IdSamples] + (LeBytes(4, |pcs|) + PcBytes(pcs))
  }

  function EncodeEvents(es: seq<Event>): seq<Byte> {
    if es == [] then [] else EncodeEvent(es[0]) + EncodeEvents(es[1..])
  }

  /** Addresses of 64 bits, lengths and counts of 32, and a name that is text. */
  predicate EventOk(e: Event) {
    match e
    case Function(addr, name, body) => addr < Limit(8) && |name| < Limit(4) && Utf8(name) && |body| < Limit(4)
    case Samples(pcs) => |pcs| < Limit(4) && forall k :: 0 <= k < |pcs| ==> pcs[k] < Limit(8)
  }

  predicate EventsOk(es: seq<Event>) {
    forall k :: 0 <= k < |es| ==> EventOk(es[k])
  }

  /** The first `n` bytes and the rest, if there are that many. */
  function SplitAt(bytes: seq<Byte>, n: nat): (r: Option<(seq<Byte>, seq<Byte>)>)
    ensures r.Some? ==> |r.value.0| == n
  {
    if n <= |bytes| then Some((bytes[..n], bytes[n..])) else None
  }

  function DecodeEvent(bytes: seq<Byte>): Parsed
    requires bytes != []
  {
    if bytes[0] == IdFunction then DecodeFunction(bytes[1..])
    else if bytes[0] == IdSamples then DecodeSamples(bytes[1..])
    else Bad(UnknownId)
  }

  function DecodeFunction(bytes: seq<Byte>): Parsed {
    match SplitAt(bytes, 8)
    case None => Bad(InvalidAddr)
    case Some((addr, rest)) =>
      match SplitAt(rest, 4)
      case None => Bad(InvalidNameLength)
      case Some((nameLength, rest)) =>
        match SplitAt(rest, FromLe(nameLength))
        case None => Bad(InvalidName)
        case Some((name, rest)) => if Utf8(name) then DecodeFunctionBody(FromLe(addr), name, rest) else Bad(NotUtf8)
  }

  function DecodeFunctionBody(addr: nat, name: seq<Byte>, bytes: seq<Byte>): Parsed {
    match SplitAt(bytes, 4)
    case None => Bad(InvalidBodyLength)
    case Some((bodyLength, rest)) =>
      match SplitAt(rest, FromLe(bodyLength))
      case None => Bad(InvalidBody)
      case Some((body, rest)) => Event(Function(addr, name, body), rest)
  }

  function DecodeSamples(bytes: seq<Byte>): Parsed {
    match SplitAt(bytes, 4)
    case None => Bad(InvalidSampleCount)
    case Some((count, rest)) =>
      match SplitAt(rest, 8 * FromLe(count))
      case None => Bad(InvalidSamples)
      case Some((samples, rest)) => Event(Samples(PcsOf(samples)), rest)
  }

  // ----- One record -----

  /** A function's record, place by place. */
  lemma {:induction false} FunctionFormat(addr: nat, name: seq<Byte>, body: seq<Byte>)
    requires EventOk(Function(addr, name, body))
    ensures var s, n := EncodeEvent(Function(addr, name, body)), |name|;
            && |s| == 17 + n + |body| && s[0] == 1
            && FromLe(s[1..9]) == addr && FromLe(s[9..13]) == n && s[13..13 + n] == name
            && FromLe(s[13 + n..17 + n]) == |body| && s[17 + n..] == body
  {
    hide LeBytes, FromLe, Limit, Utf8;
    FromLeBytes(8, addr);
    FromLeBytes(4, |name|);
    FromLeBytes(4, |body|);
    var s, n := EncodeEvent(Function(addr, name, body)), |name|;
    assert s[1..9] == LeBytes(8, addr) && s[9..13] == LeBytes(4, n) && s[13..13 + n] == name;
    assert s[13 + n..17 + n] == LeBytes(4, |body|);
  }

  /** A record of samples: the count, and eight bytes for each. */
  lemma {:induction false} SamplesFormat(pcs: seq<nat>, k: nat)
    requires EventOk(Samples(pcs)) && k < |pcs|
    ensures var s := EncodeEvent(Samples(pcs));
            |s| == 5 + 8 * |pcs| && s[0] == 2 && FromLe(s[1..5]) == |pcs| && FromLe(s[5 + 8 * k..13 + 8 * k]) == pcs[k]
  {
    hide LeBytes, FromLe, Limit, PcBytes;
    FromLeBytes(4, |pcs|);
    PcBytesAt(pcs, k);
    var s := EncodeEvent(Samples(pcs));
    assert s[1..5] == LeBytes(4, |pcs|);
    assert s[5 + 8 * k..13 + 8 * k] == PcBytes(pcs)[8 * k..8 * k + 8];
    FromLeBytes(8, pcs[k]);
  }

  lemma {:induction false} PcBytesAt(pcs: seq<nat>, k: nat)
    requires k < |pcs|
    ensures |PcBytes(pcs)| == 8 * |pcs| && PcBytes(pcs)[8 * k..8 * k + 8] == LeBytes(8, pcs[k])
  {
    hide LeBytes;
    var rest := PcBytes(pcs[1..]);
    if |pcs| > 1 {
      PcBytesAt(pcs[1..], if k > 0 then k - 1 else 0);
    }
    if k > 0 {
      assert PcBytes(pcs)[8 * k..8 * k + 8] == rest[8 * (k - 1)..8 * (k - 1) + 8];
    }
  }

  lemma SplitConcat(a: seq<Byte>, b: seq<Byte>)
    ensures SplitAt(a + b, |a|) == Some((a, b))
  {
    assert (a + b)[..|a|] == a && (a + b)[|a|..] == b;
  }

  lemma {:induction false} PcsRoundTrip(pcs: seq<nat>)
    requires forall k :: 0 <= k < |pcs| ==> pcs[k] < Limit(8)
    ensures |PcBytes(pcs)| == 8 * |pcs| && PcsOf(PcBytes(pcs)) == pcs
  {
    hide LeBytes, Limit;
    if pcs != [] {
      var first, rest := LeBytes(8, pcs[0]), PcBytes(pcs[1..]);
      PcsRoundTrip(pcs[1..]);
      FromLeBytes(8, pcs[0]);
      assert (first + rest)[..8] == first && (first + rest)[8..] == rest;
      assert pcs == [pcs[0]] + pcs[1..];
    }
  }

  lemma {:induction false} BodyRoundTrip(addr: nat, name: seq<Byte>, body: seq<Byte>, rest: seq<Byte>)
    requires |body| < Limit(4)
    ensures DecodeFunctionBody(addr, name, LeBytes(4, |body|) + (body + rest)) == Event(Function(addr, name, body), rest)
  {
    hide LeBytes, Limit, SplitAt;
    FromLeBytes(4, |body|);
    SplitConcat(LeBytes(4, |body|), body + rest);
    SplitConcat(body, rest);
  }

  lemma {:induction false} FunctionRoundTrip(addr: nat, name: seq<Byte>, rest: seq<Byte>)
    requires addr < Limit(8) && |name| < Limit(4) && Utf8(name)
    ensures DecodeFunction(LeBytes(8, addr) + (LeBytes(4, |name|) + (name + rest))) == DecodeFunctionBody(addr, name, rest)
  {
    hide LeBytes, Limit, SplitAt, Utf8;
    FromLeBytes(8, addr);
    FromLeBytes(4, |name|);
    SplitConcat(LeBytes(8, addr), LeBytes(4, |name|) + (name + rest));
    SplitConcat(LeBytes(4, |name|), name + rest);
    SplitConcat(name, rest);
  }

  lemma {:induction false} SamplesRoundTrip(pcs: seq<nat>, rest: seq<Byte>)
    requires EventOk(Samples(pcs))
    ensures DecodeSamples(LeBytes(4, |pcs|) + (PcBytes(pcs) + rest)) == Event(Samples(pcs), rest)
  {
    hide LeBytes, Limit, SplitAt, PcBytes, PcsOf;
    FromLeBytes(4, |pcs|);
    PcsRoundTrip(pcs);
    SplitConcat(LeBytes(4, |pcs|), PcBytes(pcs) + rest);
    SplitConcat(PcBytes(pcs), rest);
  }

  /** A record is decoded from its bytes, whatever follows. */
  lemma {:induction false} EventRoundTrip(e: Event, rest: seq<Byte>)
    requires EventOk(e)
    ensures EncodeEvent(e) != [] && DecodeEvent(EncodeEvent(e) + rest) == Event(e, rest)
  {
    hide LeBytes, Limit, Utf8, PcBytes, DecodeFunction, DecodeSamples;
    match e
    case Function(addr, name, body) =>
      var tail := LeBytes(4, |body|) + (body + rest);
      var bytes := LeBytes(8, addr) + (LeBytes(4, |name|) + (name + tail));
      assert EncodeEvent(e) + rest == [IdFunction] + bytes;
      FunctionRoundTrip(addr, name, tail);
      BodyRoundTrip(addr, name, body, rest);
    case Samples(pcs) =>
      assert EncodeEvent(e) + rest == [IdSamples] + (LeBytes(4, |pcs|) + (PcBytes(pcs) + rest));
      SamplesRoundTrip(pcs, rest);
  }

  // ----- A record that is cut off -----

  /** Which part of `e` is the first that `n` bytes, the first of which is the identifier, do not hold. */
  function CutError(e: Event, n: nat): ProfileError {
    match e
    case Function(_, name, _) =>
      if n < 9 then InvalidAddr
      else if n < 13 then InvalidNameLength
      else if n < 13 + |name| then InvalidName
      else if n < 17 + |name| then InvalidBodyLength
      else InvalidBody
    case Samples(_) => if n < 5 then InvalidSampleCount else InvalidSamples
  }

  /** Cutting `a + b` after `n` bytes leaves `a` whole or not even that. */
  lemma CutConcat(a: seq<Byte>, b: seq<Byte>, n: nat)
    requires n <= |a| + |b|
    ensures n < |a| ==> SplitAt((a + b)[..n], |a|) == None
    ensures n >= |a| ==> (a + b)[..n] == a + b[..n - |a|] && SplitAt((a + b)[..n], |a|) == Some((a, b[..n - |a|]))
  {
    if n >= |a| {
      assert (a + b)[..n] == a + b[..n - |a|];
      SplitConcat(a, b[..n - |a|]);
    }
  }

  lemma {:induction false} BodyCut(addr: nat, name: seq<Byte>, body: seq<Byte>, n: nat)
    requires |body| < Limit(4) && n < 4 + |body|
    ensures DecodeFunctionBody(addr, name, (LeBytes(4, |body|) + body)[..n]) == Bad(if n < 4 then InvalidBodyLength else InvalidBody)
  {
    hide LeBytes, Limit, SplitAt;
    FromLeBytes(4, |body|);
    CutConcat(LeBytes(4, |body|), body, n);
    if n >= 4 {
      CutConcat(body, [], n - 4);
      assert body + [] == body;
    }
  }

  lemma {:induction false} FunctionCut(addr: nat, name: seq<Byte>, tail: seq<Byte>, n: nat)
    requires addr < Limit(8) && |name| < Limit(4) && Utf8(name) && n <= 12 + |name| + |tail|
    ensures var r := DecodeFunction((LeBytes(8, addr) + (LeBytes(4, |name|) + (name + tail)))[..n]);
            && (n < 8 ==> r == Bad(InvalidAddr))
            && (8 <= n < 12 ==> r == Bad(InvalidNameLength))
            && (12 <= n < 12 + |name| ==> r == Bad(InvalidName))
            && (12 + |name| <= n ==> r == DecodeFunctionBody(addr, name, tail[..n - 12 - |name|]))
  {
    hide LeBytes, Limit, SplitAt, Utf8, DecodeFunctionBody;
    FromLeBytes(8, addr);
    FromLeBytes(4, |name|);
    CutConcat(LeBytes(8, addr), LeBytes(4, |name|) + (name + tail), n);
    if n >= 8 {
      CutConcat(LeBytes(4, |name|), name + tail, n - 8);
      if n >= 12 {
        CutConcat(name, tail, n - 12);
      }
    }
  }

  lemma {:induction false} SamplesCut(pcs: seq<nat>, n: nat)
    requires EventOk(Samples(pcs)) && n < 4 + |PcBytes(pcs)|
    ensures DecodeSamples((LeBytes(4, |pcs|) + PcBytes(pcs))[..n]) == Bad(if n < 4 then InvalidSampleCount else InvalidSamples)
  {
    hide LeBytes, Limit, SplitAt, PcBytes, PcsOf;
    FromLeBytes(4, |pcs|);
    PcsRoundTrip(pcs);
    CutConcat(LeBytes(4, |pcs|), PcBytes(pcs), n);
    if n >= 4 {
      CutConcat(PcBytes(pcs), [], n - 4);
      assert PcBytes(pcs) + [] == PcBytes(pcs);
    }
  }

  /** No proper prefix of a record is taken for a record. */
  lemma {:induction false} EventCut(e: Event, n: nat)
    requires EventOk(e) && 0 < n < |EncodeEvent(e)|
    ensures DecodeEvent(EncodeEvent(e)[..n]) == Bad(CutError(e, n))
  {
    hide LeBytes, Limit, Utf8, PcBytes, DecodeFunction, DecodeSamples;
    match e
    case Function(addr, name, body) =>
      var tail := LeBytes(4, |body|) + body;
      var bytes := LeBytes(8, addr) + (LeBytes(4, |name|) + (name + tail));
      assert EncodeEvent(e)[..n] == [IdFunction] + bytes[..n - 1];
      FunctionCut(addr, name, tail, n - 1);
      if n >= 13 + |name| {
        BodyCut(addr, name, body, n - 13 - |name|);
      }
    case Samples(pcs) =>
      assert EncodeEvent(e)[..n] == [IdSamples] + (LeBytes(4, |pcs|) + PcBytes(pcs))[..n - 1];
      SamplesCut(pcs, n - 1);
  }

  // ----- The iterator -----

  datatype Item = End | Decoded(event: Event) | Failed(error: ProfileError)

  /** A call of `next` on what is left of the file: what it returns and what it leaves. */
  function Next(bytes: seq<Byte>): (Item, seq<Byte>) {
    if bytes == [] then (End, bytes)
    else
      match DecodeEvent(bytes)
      case Event(e, rest) => (Decoded(e), rest)
      case Bad(error) => (Failed(error), bytes)
  }

  /** What is left after `k` calls. */
  function After(bytes: seq<Byte>, k: nat): seq<Byte>
    decreases k
  {
    if k == 0 then bytes else After(Next(bytes).1, k - 1)
  }

  /** What call number `k` returns, from 0. */
  function Call(bytes: seq<Byte>, k: nat): Item {
    Next(After(bytes, k)).0
  }

  /** A call that leaves everything in place repeats for ever. */
  lemma {:induction false} Stuck(bytes: seq<Byte>, k: nat)
    requires Next(bytes).1 == bytes
    ensures Call(bytes, k) == Next(bytes).0
    decreases k
  {
    hide DecodeEvent;
    if k > 0 {
      Stuck(bytes, k - 1);
    }
  }

  /** `events` and then `last` for ever. */
  ghost predicate Yields(bytes: seq<Byte>, events: seq<Event>, last: Item) {
    && (forall k :: 0 <= k < |events| ==> Call(bytes, k) == Decoded(events[k]))
    && (forall k :: k >= |events| ==> Call(bytes, k) == last)
  }

  lemma {:induction false} YieldsStuck(bytes: seq<Byte>)
    requires Next(bytes).1 == bytes
    ensures Yields(bytes, [], Next(bytes).0)
  {
    forall k: nat ensures Call(bytes, k) == Next(bytes).0 {
      Stuck(bytes, k);
    }
  }

  lemma {:induction false} YieldsCons(e: Event, rest: seq<Byte>, events: seq<Event>, last: Item)
    requires EventOk(e) && Yields(rest, events, last)
    ensures Yields(EncodeEvent(e) + rest, [e] + events, last)
  {
    hide DecodeEvent, EncodeEvent, EventOk, Next, After, Call;
    var bytes := EncodeEvent(e) + rest;
    NextEvent(e, rest);
    CallShift(bytes, 0);
    forall k: nat | k > 0 ensures Call(bytes, k) == Call(rest, k - 1) {
      CallShift(bytes, k);
    }
  }

  lemma NextEvent(e: Event, rest: seq<Byte>)
    requires EventOk(e)
    ensures Next(EncodeEvent(e) + rest) == (Decoded(e), rest)
  {
    hide DecodeEvent, EncodeEvent, EventOk;
    EventRoundTrip(e, rest);
  }

  lemma CallShift(bytes: seq<Byte>, k: nat)
    ensures Call(bytes, 0) == Next(bytes).0
    ensures k > 0 ==> Call(bytes, k) == Call(Next(bytes).1, k - 1)
  {
    hide Next;
  }

  // ----- Whole files -----

  /** Where the first `k` records end. */
  function Boundary(es: seq<Event>, k: nat): nat
    requires k <= |es|
  {
    |EncodeEvents(es[..k])|
  }

  lemma BoundaryShift(es: seq<Event>, k: nat)
    requires 0 < k <= |es|
    ensures Boundary(es, k) == |EncodeEvent(es[0])| + Boundary(es[1..], k - 1)
  {
    assert es[..k][0] == es[0] && es[..k][1..] == es[1..][..k - 1];
  }

  /** The number of whole records in the first `n` bytes. */
  lemma {:induction false} Truncation(es: seq<Event>, n: nat) returns (k: nat)
    requires EventsOk(es) && n <= |EncodeEvents(es)|
    ensures k <= |es| && Boundary(es, k) <= n && (k < |es| ==> n < Boundary(es, k + 1))
    ensures n == Boundary(es, k) ==> Yields(EncodeEvents(es)[..n], es[..k], End)
    ensures n > Boundary(es, k) ==>
              k < |es| && Yields(EncodeEvents(es)[..n], es[..k], Failed(CutError(es[k], n - Boundary(es, k))))
    decreases |es|
  {
    hide EncodeEvent, DecodeEvent, EventOk, Yields, CutError;
    k := 0;
    var bytes := EncodeEvents(es)[..n];
    assert es[..0] == [];
    if n == 0 {
      assert bytes == [];
      YieldsStuck(bytes);
      if es != [] {
        EventRoundTrip(es[0], []);
        BoundaryShift(es, 1);
      }
      return;
    }
    var e, rest := es[0], es[1..];
    EventRoundTrip(e, []);
    var m, tail := |EncodeEvent(e)|, EncodeEvents(rest);
    BoundaryShift(es, 1);
    assert rest[..0] == [];
    if n < m {
      assert bytes == EncodeEvent(e)[..n];
      EventCut(e, n);
      YieldsStuck(bytes);
    } else {
      assert bytes == EncodeEvent(e) + tail[..n - m];
      var j := Truncation(rest, n - m);
      k := j + 1;
      BoundaryShift(es, k);
      if k < |es| {
        BoundaryShift(es, k + 1);
      }
      assert es[..k] == [e] + rest[..j];
      var last := if n - m == Boundary(rest, j) then End else Failed(CutError(rest[j], n - m - Boundary(rest, j)));
      YieldsCons(e, tail[..n - m], rest[..j], last);
    }
  }

  lemma {:induction false} BoundariesIncrease(es: seq<Event>, j: nat, k: nat)
    requires EventsOk(es) && j < k <= |es|
    ensures Boundary(es, j) < Boundary(es, k)
    decreases |es|
  {
    hide EncodeEvent, EventOk;
    EventRoundTrip(es[0], []);
    BoundaryShift(es, k);
    if j == 0 {
      assert es[..0] == [];
    } else {
      BoundaryShift(es, j);
      BoundariesIncrease(es[1..], j - 1, k - 1);
    }
  }

  /** A cut file ends cleanly exactly if the cut is between two records. */
  lemma CleanEndIffBoundary(es: seq<Event>, n: nat)
    requires EventsOk(es) && n <= |EncodeEvents(es)|
    ensures (exists k: nat :: Call(EncodeEvents(es)[..n], k) == End) <==> exists j: nat :: j <= |es| && n == Boundary(es, j)
  {
    hide EncodeEvents, Boundary, Call, CutError, EventsOk;
    var bytes := EncodeEvents(es)[..n];
    var k := Truncation(es, n);
    if n == Boundary(es, k) {
      assert Call(bytes, k) == End;
    } else {
      forall i: nat ensures Call(bytes, i) != End {
        assert i < k ==> Call(bytes, i) == Decoded(es[..k][i]);
      }
      forall j: nat | j <= |es| ensures n != Boundary(es, j) {
        if j < k {
          BoundariesIncrease(es, j, k);
        } else if j > k + 1 {
          BoundariesIncrease(es, k + 1, j);
        }
      }
    }
  }

  /** A whole file yields exactly its records and then ends. */
  lemma {:induction false} RoundTrip(es: seq<Event>)
    requires EventsOk(es)
    ensures Yields(EncodeEvents(es), es, End)
    decreases |es|
  {
    hide EncodeEvent, DecodeEvent, EventOk, Yields;
    if es == [] {
      YieldsStuck([]);
    } else {
      RoundTrip(es[1..]);
      YieldsCons(es[0], EncodeEvents(es[1..]), es[1..], End);
      assert es == [es[0]] + es[1..];
    }
  }

  /** After a failure nothing is ever decoded again, in any file. */
  lemma {:induction false} NoEventAfterFailure(bytes: seq<Byte>, j: nat, k: nat)
    requires Call(bytes, j).Failed? && j <= k
    ensures Call(bytes, k) == Call(bytes, j)
    decreases j
  {
    hide DecodeEvent;
    if j == 0 {
      Stuck(bytes, k);
    } else {
      NoEventAfterFailure(Next(bytes).1, j - 1, k - 1);
    }
  }
}
