/** Framing of packet batches across the native boundary: a count, then length and bytes of each packet. */
module Batch {
  import opened Bytes

  const MAX_PACKET_BATCH: nat := 32
  const MAX_FRAMED_PACKET: nat := 65535

  type Packet = seq<byte>

  datatype Error = Truncated | BadCount | BadLength | Trailing | TooLarge

  predicate ValidBatch(packets: seq<Packet>) {
    1 <= |packets| <= MAX_PACKET_BATCH && forall i :: 0 <= i < |packets| ==> 1 <= |packets[i]| <= MAX_FRAMED_PACKET
  }

  function Frame(packet: Packet): seq<byte> { ToBe(|packet|, 4) + packet }

  function Frames(packets: seq<Packet>): seq<byte> {
    if packets == [] then [] else Frame(packets[0]) + Frames(packets[1..])
  }

  /** The wire form of a batch. */
  function Wire(packets: seq<Packet>): seq<byte> { ToBe(|packets|, 4) + Frames(packets) }

  // ------------------------------------------------------------------- decoding

  function ReadU32(input: seq<byte>): (r: Option<nat>)
    ensures r.Some? <==> |input| >= 4
  {
    if |input| < 4 then None else Some(FromBe(input[..4]))
  }

  /** Packets read before the rest was. */
  function After(packets: seq<Packet>, r: Result<seq<Packet>, Error>): Result<seq<Packet>, Error> {
    match r
    case Err(e) => Err(e)
    case Ok(rest) => Ok(packets + rest)
  }

  /** `count` packets, and nothing after them. */
  function ReadPackets(input: seq<byte>, count: nat): (r: Result<seq<Packet>, Error>)
    decreases count
  {
    if count == 0 then if input == [] then Ok([]) else Err(Trailing)
    else match ReadU32(input)
      case None => Err(Truncated)
      case Some(length) =>
        if length == 0 || length > MAX_FRAMED_PACKET || |input| - 4 < length then Err(BadLength)
        else After([input[4..4 + length]], ReadPackets(input[4 + length..], count - 1))
  }

  lemma AfterNothing(r: Result<seq<Packet>, Error>)
    ensures After([], r) == r
  {
    if r.Ok? { assert [] + r.value == r.value; }
  }

  lemma AfterAfter(a: seq<Packet>, b: seq<Packet>, r: Result<seq<Packet>, Error>)
    ensures After(a, After(b, r)) == After(a + b, r)
  {
    if r.Ok? { assert a + (b + r.value) == (a + b) + r.value; }
  }

  lemma ReadOne(input: seq<byte>, count: nat, length: nat, packets: seq<Packet>)
    requires count > 0 && |input| >= 4 && FromBe(input[..4]) == length
    requires 1 <= length <= MAX_FRAMED_PACKET && length <= |input| - 4
    ensures After(packets, ReadPackets(input, count)) ==
            After(packets + [input[4..4 + length]], ReadPackets(input[4 + length..], count - 1))
  {
    AfterAfter(packets, [input[4..4 + length]], ReadPackets(input[4 + length..], count - 1));
  }

  function Decoded(input: seq<byte>): Result<seq<Packet>, Error> {
    match ReadU32(input)
    case None => Err(Truncated)
    case Some(count) => if 1 <= count <= MAX_PACKET_BATCH then ReadPackets(input[4..], count) else Err(BadCount)
  }

  /** With `left` packets to go from `cursor` on, the whole input decodes to `whole`. */
  ghost predicate Reading(input: seq<byte>, cursor: nat, left: nat, packets: seq<Packet>, whole: Result<seq<Packet>, Error>) {
    cursor <= |input| && whole == After(packets, ReadPackets(input[cursor..], left))
  }

  lemma ReadingAdvances(input: seq<byte>, cursor: nat, left: nat, packets: seq<Packet>, whole: Result<seq<Packet>, Error>, length: nat)
    requires Reading(input, cursor, left, packets, whole) && left > 0 && ReadU32(input[cursor..]) == Some(length)
    ensures length == 0 || length > MAX_FRAMED_PACKET || |input| - (cursor + 4) < length ==> whole == Err(BadLength)
    ensures 1 <= length <= MAX_FRAMED_PACKET && length <= |input| - (cursor + 4) ==>
              Reading(input, cursor + 4 + length, left - 1, packets + [input[cursor + 4..cursor + 4 + length]], whole)
  {
    var here := input[cursor..];
    if 1 <= length <= MAX_FRAMED_PACKET && length <= |input| - (cursor + 4) {
      assert here[4..4 + length] == input[cursor + 4..cursor + 4 + length] && here[4 + length..] == input[cursor + 4 + length..];
      ReadOne(here, left, length, packets);
    }
  }

  lemma ReadingStops(input: seq<byte>, cursor: nat, left: nat, packets: seq<Packet>, whole: Result<seq<Packet>, Error>)
    requires Reading(input, cursor, left, packets, whole) && left > 0 && |input| < cursor + 4
    ensures whole == Err(Truncated)
  {
  }

  lemma ReadingEnds(input: seq<byte>, cursor: nat, packets: seq<Packet>, whole: Result<seq<Packet>, Error>)
    requires Reading(input, cursor, 0, packets, whole)
    ensures whole == if cursor == |input| then Ok(packets) else Err(Trailing)
  {
    if cursor == |input| { assert input[cursor..] == [] && packets + [] == packets; }
  }

  /** Reads four bytes at the cursor, if there are as many. */
  method ReadAt(input: seq<byte>, cursor: nat) returns (r: Option<nat>)
    requires cursor <= |input|
    ensures r == ReadU32(input[cursor..])
  {
    if |input| < cursor + 4 {
      return None;
    }
    assert input[cursor..][..4] == input[cursor..cursor + 4];
    r := Some(FromBe(input[cursor..cursor + 4]));
  }

  /** The loop over the packets after the count. */
  method ReadAll(input: seq<byte>, count: nat) returns (r: Result<seq<Packet>, Error>)
    requires |input| >= 4
    ensures r == ReadPackets(input[4..], count)
  {
    var cursor: nat, packets: seq<Packet> := 4, [];
    ghost var whole := ReadPackets(input[4..], count);
    AfterNothing(whole);
    for n := 0 to count
      invariant Reading(input, cursor, count - n, packets, whole)
    {
      var length := ReadAt(input, cursor);
      if length.None? {
        ReadingStops(input, cursor, count - n, packets, whole);
        return Err(Truncated);
      }
      ReadingAdvances(input, cursor, count - n, packets, whole, length.value);
      cursor := cursor + 4;
      if length.value == 0 || length.value > MAX_FRAMED_PACKET || |input| - cursor < length.value {
        return Err(BadLength);
      }
      packets := packets + [input[cursor..cursor + length.value]];
      cursor := cursor + length.value;
    }
    ReadingEnds(input, cursor, packets, whole);
    if cursor != |input| {
      return Err(Trailing);
    }
    r := Ok(packets);
  }

  method DecodeBatch(input: seq<byte>) returns (r: Result<seq<Packet>, Error>)
    ensures r == Decoded(input)
  {
    assert input[0..] == input;
    var count := ReadAt(input, 0);
    if count.None? {
      return Err(Truncated);
    }
    if !(1 <= count.value <= MAX_PACKET_BATCH) {
      return Err(BadCount);
    }
    r := ReadAll(input, count.value);
  }

  method EncodeBatch(packets: seq<Packet>) returns (r: Result<seq<byte>, Error>)
    ensures r.Ok? <==> |packets| < U32_LIMIT && forall i :: 0 <= i < |packets| ==> |packets[i]| < U32_LIMIT
    ensures r.Ok? ==> r.value == Wire(packets)
  {
    if |packets| >= U32_LIMIT {
      return Err(TooLarge);
    }
    var output := ToBe(|packets|, 4);
    for n := 0 to |packets|
      invariant forall i :: 0 <= i < n ==> |packets[i]| < U32_LIMIT
      invariant output + Frames(packets[n..]) == Wire(packets)
    {
      if |packets[n]| >= U32_LIMIT {
        return Err(TooLarge);
      }
      assert packets[n..][1..] == packets[n + 1..];
      output := output + ToBe(|packets[n]|, 4);
      output := output + packets[n];
    }
    r := Ok(output);
  }

  // ----------------------------------------------------------------- round trips

  lemma {:induction false} PacketsRoundTrip(packets: seq<Packet>)
    requires forall i :: 0 <= i < |packets| ==> 1 <= |packets[i]| <= MAX_FRAMED_PACKET
    ensures ReadPackets(Frames(packets), |packets|) == Ok(packets)
  {
    if packets != [] {
      var input, length := Frames(packets), |packets[0]|;
      Widths();
      FromToBe(length, 4);
      assert input[..4] == ToBe(length, 4);
      assert input[4..4 + length] == packets[0] && input[4 + length..] == Frames(packets[1..]);
      PacketsRoundTrip(packets[1..]);
      assert [packets[0]] + packets[1..] == packets;
    }
  }

  /** What a successful read says of the first packet and of the rest. */
  lemma ReadSplits(input: seq<byte>, count: nat)
    requires count > 0 && ReadPackets(input, count).Ok?
    ensures |input| >= 4
    ensures var length := FromBe(input[..4]);
            && 1 <= length <= MAX_FRAMED_PACKET && 4 + length <= |input|
            && var rest := ReadPackets(input[4 + length..], count - 1);
               rest.Ok? && ReadPackets(input, count).value == [input[4..4 + length]] + rest.value
  {
  }

  lemma FirstFrame(input: seq<byte>, length: nat, rest: seq<Packet>)
    requires |input| >= 4 && FromBe(input[..4]) == length && 4 + length <= |input| && Frames(rest) == input[4 + length..]
    ensures Frames([input[4..4 + length]] + rest) == input
  {
    var first := input[4..4 + length];
    ToFromBe(input[..4]);
    assert ([first] + rest)[1..] == rest;
    assert input == input[..4] + first + input[4 + length..];
  }

  lemma {:induction false} PacketsExact(input: seq<byte>, count: nat)
    requires ReadPackets(input, count).Ok?
    ensures var packets := ReadPackets(input, count).value;
            && |packets| == count && Frames(packets) == input
            && forall i :: 0 <= i < |packets| ==> 1 <= |packets[i]| <= MAX_FRAMED_PACKET
    decreases count
  {
    if count > 0 {
      ReadSplits(input, count);
      var length := FromBe(input[..4]);
      PacketsExact(input[4 + length..], count - 1);
      FirstFrame(input, length, ReadPackets(input[4 + length..], count - 1).value);
    }
  }

  /** Count and lengths are four bytes, the most significant first; packets follow each other in order. */
  lemma WireLayout(packets: seq<Packet>, first: Packet, rest: seq<Packet>)
    ensures |Wire(packets)| >= 4 && Wire(packets)[4..] == Frames(packets) && Frames([]) == []
    ensures forall i :: 0 <= i < 4 ==> Wire(packets)[i] == |packets| / Pow256(3 - i) % 256
    ensures var f := Frames([first] + rest);
            && |f| >= 4 + |first| && f[4..4 + |first|] == first && f[4 + |first|..] == Frames(rest)
            && forall i :: 0 <= i < 4 ==> f[i] == |first| / Pow256(3 - i) % 256
  {
    assert ([first] + rest)[1..] == rest;
    forall i | 0 <= i < 4
      ensures ToBe(|packets|, 4)[i] == |packets| / Pow256(3 - i) % 256 && ToBe(|first|, 4)[i] == |first| / Pow256(3 - i) % 256
    {
      ToBeAt(|packets|, 4, i);
      ToBeAt(|first|, 4, i);
    }
  }

  /** Exactly the wire forms of 1 to 32 packets of 1 to 65535 bytes decode, each to its batch. */
  lemma DecodeInvertsEncode(input: seq<byte>, packets: seq<Packet>)
    ensures Decoded(input) == Ok(packets) <==>
            1 <= |packets| <= 32 && (forall i :: 0 <= i < |packets| ==> 1 <= |packets[i]| <= 65535) && input == Wire(packets)
  {
    Widths();
    if ValidBatch(packets) && input == Wire(packets) {
      FromToBe(|packets|, 4);
      assert input[..4] == ToBe(|packets|, 4) && input[4..] == Frames(packets);
      PacketsRoundTrip(packets);
    }
    if Decoded(input) == Ok(packets) {
      ToFromBe(input[..4]);
      PacketsExact(input[4..], FromBe(input[..4]));
      assert input == input[..4] + input[4..];
    }
  }
}
