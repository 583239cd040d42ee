/** What the decoder of a profile accepts, over all bytes. */
module ProfileDecode {
  import opened Bits
  import opened Profile

  lemma {:induction false} PcsOfBytes(bytes: seq<Byte>)
    requires |bytes| % 8 == 0
    ensures var pcs := PcsOf(bytes);
            && 8 * |pcs| == |bytes| && PcBytes(pcs) == bytes
            && forall k :: 0 <= k < |pcs| ==> pcs[k] < Limit(8)
    decreases |bytes|
  {
    hide LeBytes, FromLe, Limit;
    if bytes != [] {
      var first, rest := bytes[..8], bytes[8..];
      PcsOfBytes(rest);
      LeBytesFrom(first);
      FromLeBound(first);
      var pcs := PcsOf(bytes);
      assert pcs[0] == FromLe(first) && pcs[1..] == PcsOf(rest);
      assert first + rest == bytes;
    }
  }

  /** Bytes that begin with a number of `n` bytes. */
  lemma NumberFirst(n: nat, bytes: seq<Byte>)
    requires n <= |bytes|
    ensures var x := FromLe(bytes[..n]); x < Limit(n) && bytes == LeBytes(n, x) + bytes[n..]
  {
    hide LeBytes, FromLe, Limit;
    LeBytesFrom(bytes[..n]);
    FromLeBound(bytes[..n]);
    assert bytes == bytes[..n] + bytes[n..];
  }

  lemma {:induction false} BodyAccepted(addr: nat, name: seq<Byte>, bytes: seq<Byte>)
    requires var r := DecodeFunctionBody(addr, name, bytes); r.Event?
    ensures var r := DecodeFunctionBody(addr, name, bytes);
            && r.event.Function? && r.event.addr == addr && r.event.name == name && |r.event.body| < Limit(4)
            && bytes == LeBytes(4, |r.event.body|) + (r.event.body + r.rest)
  {
    hide LeBytes, FromLe, Limit;
    NumberFirst(4, bytes);
    var rest, n := bytes[4..], FromLe(bytes[..4]);
    assert rest == rest[..n] + rest[n..];
  }

  lemma {:induction false} FunctionAccepted(bytes: seq<Byte>)
    requires DecodeFunction(bytes).Event?
    ensures var r := DecodeFunction(bytes);
            && r.event.Function? && EventOk(r.event) && [IdFunction] + bytes == EncodeEvent(r.event) + r.rest
  {
    hide LeBytes, FromLe, Limit, Utf8, DecodeFunctionBody;
    NumberFirst(8, bytes);
    var addr, lengthed := FromLe(bytes[..8]), bytes[8..];
    NumberFirst(4, lengthed);
    var n, named := FromLe(lengthed[..4]), lengthed[4..];
    var name, tail := named[..n], named[n..];
    assert named == name + tail;
    BodyAccepted(addr, name, tail);
    var r := DecodeFunctionBody(addr, name, tail);
    assert DecodeFunction(bytes) == r;
    assert [IdFunction] + bytes == EncodeEvent(r.event) + r.rest;
  }

  lemma {:induction false} SamplesAccepted(bytes: seq<Byte>)
    requires DecodeSamples(bytes).Event?
    ensures var r := DecodeSamples(bytes);
            && r.event.Samples? && EventOk(r.event) && [IdSamples] + bytes == EncodeEvent(r.event) + r.rest
  {
    hide LeBytes, FromLe, Limit, PcBytes, PcsOf;
    NumberFirst(4, bytes);
    var n, tail := FromLe(bytes[..4]), bytes[4..];
    var samples, rest := tail[..8 * n], tail[8 * n..];
    assert tail == samples + rest;
    PcsOfBytes(samples);
    assert [IdSamples] + bytes == EncodeEvent(Samples(PcsOf(samples))) + rest;
  }

  /** The decoder accepts exactly the records, and consumes exactly their bytes. */
  lemma {:induction false} DecodesExactly(bytes: seq<Byte>, e: Event, rest: seq<Byte>)
    requires bytes != []
    ensures DecodeEvent(bytes) == Event(e, rest) <==> EventOk(e) && bytes == EncodeEvent(e) + rest
  {
    hide EventOk, EncodeEvent, DecodeFunction, DecodeSamples;
    if EventOk(e) && bytes == EncodeEvent(e) + rest {
      EventRoundTrip(e, rest);
    }
    if DecodeEvent(bytes) == Event(e, rest) {
      assert bytes == [bytes[0]] + bytes[1..];
      if bytes[0] == IdFunction {
        FunctionAccepted(bytes[1..]);
      } else {
        SamplesAccepted(bytes[1..]);
      }
    }
  }

  // ----- Errors -----

  /** The length that a function record gives for its name. */
  ghost function NameLength(bytes: seq<Byte>): nat
    requires |bytes| >= 13
  {
    FromLe(bytes[9..13])
  }

  /** The number of bytes of a record of samples. */
  ghost function SamplesLength(bytes: seq<Byte>): nat
    requires |bytes| >= 5
  {
    5 + 8 * FromLe(bytes[1..5])
  }

  /** The number of bytes of a function record, which holds its name. */
  ghost function RecordLength(bytes: seq<Byte>): nat
    requires |bytes| >= 13 && |bytes| >= 17 + NameLength(bytes)
  {
    var n := NameLength(bytes);
    17 + n + FromLe(bytes[13 + n..17 + n])
  }

  /** Where the parts of a function record are, and what is made of them. */
  lemma {:induction false} FunctionParts(bytes: seq<Byte>)
    requires |bytes| >= 13 && |bytes| >= 13 + NameLength(bytes)
    ensures var n := NameLength(bytes);
            DecodeFunction(bytes[1..]) ==
            if Utf8(bytes[13..13 + n]) then DecodeFunctionBody(FromLe(bytes[1..9]), bytes[13..13 + n], bytes[13 + n..])
            else Bad(NotUtf8)
  {
    hide FromLe, Utf8, DecodeFunctionBody;
    var n := NameLength(bytes);
    assert bytes[1..][..8] == bytes[1..9];
    assert bytes[1..][8..][..4] == bytes[9..13];
    assert bytes[1..][8..][4..] == bytes[13..];
    assert bytes[13..][..n] == bytes[13..13 + n] && bytes[13..][n..] == bytes[13 + n..];
  }

  /** Each error of a function record exactly in its case. */
  lemma {:induction false} FunctionErrors(bytes: seq<Byte>)
    requires bytes != [] && bytes[0] == 1
    ensures var r := DecodeEvent(bytes);
            && (r == Bad(InvalidAddr) <==> |bytes| < 9)
            && (r == Bad(InvalidNameLength) <==> 9 <= |bytes| < 13)
            && (r == Bad(InvalidName) <==> 13 <= |bytes| < 13 + NameLength(bytes))
    ensures |bytes| >= 13 && |bytes| >= 13 + NameLength(bytes) ==>
              var r, n := DecodeEvent(bytes), NameLength(bytes);
              && (r == Bad(NotUtf8) <==> !Utf8(bytes[13..13 + n]))
              && (r == Bad(InvalidBodyLength) <==> Utf8(bytes[13..13 + n]) && |bytes| < 17 + n)
              && (r == Bad(InvalidBody) <==> Utf8(bytes[13..13 + n]) && 17 + n <= |bytes| < RecordLength(bytes))
              && (r.Event? <==> Utf8(bytes[13..13 + n]) && |bytes| >= 17 + n && |bytes| >= RecordLength(bytes))
  {
    hide FromLe, Utf8;
    if |bytes| >= 13 {
      var n := NameLength(bytes);
      assert bytes[1..][8..][..4] == bytes[9..13];
      assert bytes[1..][8..][4..] == bytes[13..];
      if |bytes| >= 13 + n {
        FunctionParts(bytes);
        var tail := bytes[13 + n..];
        if |bytes| >= 17 + n {
          assert tail[..4] == bytes[13 + n..17 + n];
        }
      }
    }
  }

  /** Each error of the other records exactly in its case. */
  lemma {:induction false} OtherErrors(bytes: seq<Byte>)
    requires bytes != [] && bytes[0] != 1
    ensures var r := DecodeEvent(bytes);
            && (r == Bad(UnknownId) <==> bytes[0] != 2)
            && (r == Bad(InvalidSampleCount) <==> bytes[0] == 2 && |bytes| < 5)
            && (r == Bad(InvalidSamples) <==> bytes[0] == 2 && |bytes| >= 5 && |bytes| < SamplesLength(bytes))
            && (r.Event? <==> bytes[0] == 2 && |bytes| >= 5 && |bytes| >= SamplesLength(bytes))
  {
    hide FromLe, PcsOf;
    if |bytes| >= 5 {
      assert bytes[1..][..4] == bytes[1..5];
    }
  }
}
