/** Outer datagrams, inner framing and the IPv4 fields that the tunnel reads. */
module Protocol {
  import opened Bytes

  const VERSION: byte := 1
  const HEADER_LEN: nat := 20
  const MIN_IPV4_HEADER_LEN: nat := 20

  datatype PacketKind = HandshakeInit | HandshakeResponse | Data | Keepalive | Close
  datatype Header = Header(kind: PacketKind, flags: nat, sessionId: u64, sequence: u64)
  datatype Datagram = Datagram(header: Header, payload: seq<byte>)
  datatype DecodeError = Truncated | UnsupportedVersion | UnknownPacketKind

  function KindCode(kind: PacketKind): byte {
    match kind
    case HandshakeInit => 1
    case HandshakeResponse => 2
    case Data => 3
    case Keepalive => 4
    case Close => 5
  }

  function KindOf(code: byte): (kind: Option<PacketKind>)
    ensures kind.Some? ==> KindCode(kind.value) == code
    ensures kind.None? ==> forall k: PacketKind :: KindCode(k) != code
  {
    match code
    case 1 => Some(HandshakeInit)
    case 2 => Some(HandshakeResponse)
    case 3 => Some(Data)
    case 4 => Some(Keepalive)
    case 5 => Some(Close)
    case _ => None
  }

  function EncodeHeader(h: Header): (s: seq<byte>)
    ensures |s| == HEADER_LEN
  {
    [VERSION, KindCode(h.kind)] + ToBe(h.flags, 2) + ToBe(h.sessionId, 8) + ToBe(h.sequence, 8)
  }

  function DecodeHeader(input: seq<byte>): (r: Result<Header, DecodeError>) {
    if |input| < HEADER_LEN then Err(Truncated)
    else if input[0] != VERSION then Err(UnsupportedVersion)
    else
      Widths();
      match KindOf(input[1])
      case None => Err(UnknownPacketKind)
      case Some(kind) =>
        Ok(Header(kind, FromBe(input[2..4]), FromBe(input[4..12]), FromBe(input[12..20])))
  }

  function Encode(d: Datagram): (s: seq<byte>)
    ensures |s| == HEADER_LEN + |d.payload|
  {
    EncodeHeader(d.header) + d.payload
  }

  function Decode(input: seq<byte>): (r: Result<Datagram, DecodeError>) {
    match DecodeHeader(input)
    case Err(e) => Err(e)
    case Ok(h) => Ok(Datagram(h, input[HEADER_LEN..]))
  }

  lemma HeaderParts(h: Header, rest: seq<byte>)
    ensures var s := EncodeHeader(h) + rest;
            && s[0] == VERSION && s[1] == KindCode(h.kind) && s[2..4] == ToBe(h.flags, 2)
            && s[4..12] == ToBe(h.sessionId, 8) && s[12..20] == ToBe(h.sequence, 8) && s[HEADER_LEN..] == rest
  {
  }

  /** Every datagram with 16-bit flags survives the wire. */
  lemma DecodeEncode(d: Datagram)
    requires d.header.flags < U16_LIMIT
    ensures Decode(Encode(d)) == Ok(d)
  {
    var h := d.header;
    Widths();
    HeaderParts(h, d.payload);
    FromToBe(h.flags, 2);
    FromToBe(h.sessionId, 8);
    FromToBe(h.sequence, 8);
  }

  /** Every input that decodes is the encoding of what it decodes to. */
  lemma EncodeDecode(input: seq<byte>)
    requires Decode(input).Ok?
    ensures Encode(Decode(input).value) == input
  {
    ToFromBe(input[2..4]);
    ToFromBe(input[4..12]);
    ToFromBe(input[12..20]);
    assert input == input[..2] + input[2..4] + input[4..12] + input[12..20] + input[HEADER_LEN..];
  }

  /** Byte for byte: version, kind, then flags, session and sequence, each with the most significant byte first. */
  lemma HeaderLayout(d: Datagram, i: nat)
    requires i < 8
    ensures var s, h := Encode(d), d.header;
            && |s| == 20 + |d.payload| && s[20..] == d.payload && s[0] == 1
            && s[1] == (match h.kind case HandshakeInit => 1 case HandshakeResponse => 2 case Data => 3 case Keepalive => 4 case Close => 5)
            && s[2] == h.flags / 256 % 256 && s[3] == h.flags % 256
            && s[4 + i] == h.sessionId / Pow256(7 - i) % 256 && s[12 + i] == h.sequence / Pow256(7 - i) % 256
  {
    var s, h := Encode(d), d.header;
    HeaderParts(h, d.payload);
    ToBeAt(h.flags, 2, 0);
    ToBeAt(h.flags, 2, 1);
    ToBeAt(h.sessionId, 8, i);
    ToBeAt(h.sequence, 8, i);
    assert s[2] == s[2..4][0] && s[3] == s[2..4][1] && s[4 + i] == s[4..12][i] && s[12 + i] == s[12..20][i];
  }

  /** An input fails to decode exactly if it is short, of another version or of an unknown kind. */
  lemma DecodesUnless(input: seq<byte>)
    ensures Decode(input).Err? <==> |input| < 20 || input[0] != 1 || input[1] == 0 || input[1] > 5
  {
  }

  // ------------------------------------------------------------ inner framing

  datatype InnerKind = InnerData | InnerKeepalive | InnerClose
  datatype Inner = Inner(kind: InnerKind, payload: seq<byte>)
  datatype InnerError = Empty | UnknownInnerKind

  function InnerCode(kind: InnerKind): byte {
    match kind
    case InnerData => 1
    case InnerKeepalive => 2
    case InnerClose => 3
  }

  function EncodeInner(p: Inner): seq<byte> {
    [InnerCode(p.kind)] + p.payload
  }

  function DecodeInner(input: seq<byte>): (r: Result<Inner, InnerError>)
    ensures r.Ok? ==> EncodeInner(r.value) == input
  {
    if input == [] then Err(Empty)
    else match input[0]
      case 1 => Ok(Inner(InnerData, input[1..]))
      case 2 => Ok(Inner(InnerKeepalive, input[1..]))
      case 3 => Ok(Inner(InnerClose, input[1..]))
      case _ => Err(UnknownInnerKind)
  }

  /** One byte names the kind; everything after it is the payload. */
  lemma InnerLayout(input: seq<byte>, p: Inner)
    ensures var code := match p.kind case InnerData => 1 case InnerKeepalive => 2 case InnerClose => 3;
            (DecodeInner(input) == Ok(p) <==> input == [code] + p.payload) && EncodeInner(p) == [code] + p.payload
  {
  }

  // --------------------------------------------------------------------- IPv4

  datatype Ipv4 = Ipv4(bytes: seq<byte>, source: nat, destination: nat)
  datatype Ipv4Error = Ipv4Truncated | NotIpv4 | BadHeaderLength | BadTotalLength

  function ParseIpv4(input: seq<byte>): (r: Result<Ipv4, Ipv4Error>)
    ensures r.Ok? ==> MIN_IPV4_HEADER_LEN <= |r.value.bytes| < U16_LIMIT && r.value.bytes <= input
  {
    if |input| < MIN_IPV4_HEADER_LEN then Err(Ipv4Truncated)
    else if input[0] / 16 != 4 then Err(NotIpv4)
    else
      var headerLen := input[0] % 16 * 4;
      if headerLen < MIN_IPV4_HEADER_LEN || headerLen > |input| then Err(BadHeaderLength)
      else
        Widths();
        var totalLen := FromBe(input[2..4]);
        if totalLen < headerLen || totalLen > |input| then Err(BadTotalLength)
        else Ok(Ipv4(input[..totalLen], FromBe(input[12..16]), FromBe(input[16..20])))
  }

  /** Trimming a packet to its total length changes nothing that is parsed. */
  lemma ParseTrimmed(input: seq<byte>)
    requires ParseIpv4(input).Ok?
    ensures ParseIpv4(ParseIpv4(input).value.bytes) == ParseIpv4(input)
  {
    var bytes := ParseIpv4(input).value.bytes;
    assert bytes[2..4] == input[2..4] && bytes[12..16] == input[12..16] && bytes[16..20] == input[16..20];
    assert bytes[..|bytes|] == bytes;
  }

  lemma FieldsAreRead(input: seq<byte>)
    requires |input| >= 20
    ensures FromBe(input[2..4]) == 256 * (input[2] as int) + input[3]
    ensures FromBe(input[12..16]) == 256 * (256 * (256 * (input[12] as int) + input[13]) + input[14]) + input[15]
    ensures FromBe(input[16..20]) == 256 * (256 * (256 * (input[16] as int) + input[17]) + input[18]) + input[19]
  {
    FromTwo(input[2..4]);
    FromFour(input[12..16]);
    FromFour(input[16..20]);
  }

  /**
   * An input parses to exactly the packet it starts with, if that packet's own header says
   * version 4, a header within it, and its length and addresses, the most significant byte first.
   */
  lemma ParsesExactly(input: seq<byte>, p: Ipv4)
    ensures ParseIpv4(input) == Ok(p) <==>
            && p.bytes <= input && 20 <= |p.bytes| == 256 * (p.bytes[2] as int) + p.bytes[3]
            && p.bytes[0] / 16 == 4 && 20 <= p.bytes[0] % 16 * 4 <= |p.bytes|
            && p.source == 256 * (256 * (256 * (p.bytes[12] as int) + p.bytes[13]) + p.bytes[14]) + p.bytes[15]
            && p.destination == 256 * (256 * (256 * (p.bytes[16] as int) + p.bytes[17]) + p.bytes[18]) + p.bytes[19]
  {
    if |input| >= 20 { FieldsAreRead(input); }
    if p.bytes <= input { assert input[..|p.bytes|] == p.bytes; }
  }
}
