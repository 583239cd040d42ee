/** Reading a profile record by record: the slice moves only when a whole record was read. */
module ProfileReader {
  import opened Bits
  import opened Profile

  class EventReader {
    var bytes: seq<Byte>

    constructor (file: seq<Byte>)
      ensures bytes == file
    {
      bytes := file;
    }

    method NextItem() returns (item: Item)
      modifies this
      ensures (item, bytes) == Next(old(bytes))
    {
      if bytes == [] {
        return End;
      }
      var rest := bytes[1..];
      if bytes[0] == IdFunction {
        item := ReadFunction(rest);
      } else if bytes[0] == IdSamples {
        item := ReadSamples(rest);
      } else {
        item := Failed(UnknownId);
      }
    }

    method ReadFunction(start: seq<Byte>) returns (item: Item)
      modifies this
      ensures match DecodeFunction(start)
              case Event(e, rest) => item == Decoded(e) && bytes == rest
              case Bad(error) => item == Failed(error) && bytes == old(bytes)
    {
      hide Utf8;
      var rest := start;
      if |rest| < 8 {
        return Failed(InvalidAddr);
      }
      var addr := FromLe(rest[..8]);
      rest := rest[8..];
      if |rest| < 4 {
        return Failed(InvalidNameLength);
      }
      var nameLength := FromLe(rest[..4]);
      rest := rest[4..];
      if |rest| < nameLength {
        return Failed(InvalidName);
      }
      var name := rest[..nameLength];
      rest := rest[nameLength..];
      if !Utf8(name) {
        return Failed(NotUtf8);
      }
      if |rest| < 4 {
        return Failed(InvalidBodyLength);
      }
      var bodyLength := FromLe(rest[..4]);
      rest := rest[4..];
      if |rest| < bodyLength {
        return Failed(InvalidBody);
      }
      bytes := rest[bodyLength..];
      return Decoded(Function(addr, name, rest[..bodyLength]));
    }

    method ReadSamples(start: seq<Byte>) returns (item: Item)
      modifies this
      ensures match DecodeSamples(start)
              case Event(e, rest) => item == Decoded(e) && bytes == rest
              case Bad(error) => item == Failed(error) && bytes == old(bytes)
    {
      if |start| < 4 {
        return Failed(InvalidSampleCount);
      }
      var count, rest := FromLe(start[..4]), start[4..];
      if |rest| < 8 * count {
        return Failed(InvalidSamples);
      }
      bytes := rest[8 * count..];
      return Decoded(Samples(PcsOf(rest[..8 * count])));
    }
  }

  /** Reading to the end, or to the first failure. */
  method ReadAll(file: seq<Byte>) returns (events: seq<Event>, last: Item)
    ensures !last.Decoded?
    ensures forall k :: 0 <= k < |events| ==> Call(file, k) == Decoded(events[k])
    ensures Call(file, |events|) == last
  {
    hide DecodeEvent;
    var reader := new EventReader(file);
    events := [];
    while true
      invariant reader.bytes == After(file, |events|)
      invariant forall k :: 0 <= k < |events| ==> Call(file, k) == Decoded(events[k])
      decreases |reader.bytes|
    {
      NextShrinks(reader.bytes);
      AfterNext(file, |events|);
      last := reader.NextItem();
      if !last.Decoded? {
        return;
      }
      events := events + [last.event];
    }
  }

  lemma NextShrinks(bytes: seq<Byte>)
    ensures Next(bytes).0.Decoded? ==> |Next(bytes).1| < |bytes|
  {
    hide Utf8, FromLe, PcsOf;
  }

  lemma {:induction false} AfterNext(file: seq<Byte>, k: nat)
    ensures After(file, k + 1) == Next(After(file, k)).1
    decreases k
  {
    hide Next;
    if k > 0 {
      AfterNext(Next(file).1, k - 1);
    }
  }
}
