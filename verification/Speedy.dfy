/** Speedy frames: a routing tag, a datagram whose header is masked, and an authentication tag. */
module Speedy {
  import opened Bytes
  import opened Protocol
  import opened Router

  const ROUTING_TAG_LEN: nat := 8
  const AUTH_TAG_LEN: nat := 16
  const SAMPLE_LEN: nat := 16
  const OVERHEAD: nat := ROUTING_TAG_LEN + AUTH_TAG_LEN
  const MAX_DATAGRAM_LEN: nat := 1452
  const MAX_INNER_DATAGRAM_LEN: nat := MAX_DATAGRAM_LEN - OVERHEAD
  const SAFE_TUN_MTU: nat := 1391
  const MIN_FRAME_LEN: nat := OVERHEAD + HEADER_LEN + SAMPLE_LEN

  datatype Direction = ClientToServer | ServerToClient

  datatype SpeedyError = InvalidLength | InvalidHeader | UnknownRoutingTag | Authentication

  /** Keyed functions; nothing but their output lengths is known. */
  datatype Prf = Prf(
    route: (Key, Direction, nat) -> Tag,
    mask: (Key, Direction, seq<byte>) -> seq<byte>,
    mac: (Key, Direction, seq<byte>) -> seq<byte>)

  ghost predicate Sized(p: Prf) {
    && (forall k, d, e :: |p.route(k, d, e)| == ROUTING_TAG_LEN)
    && (forall k, d, s :: |p.mask(k, d, s)| == 32)
    && (forall k, d, s :: |p.mac(k, d, s)| == AUTH_TAG_LEN)
  }

  // -------------------------------------------------------------- specification

  function ValidateInner(inner: seq<byte>, d: Direction): (problem: Option<SpeedyError>) {
    if !(HEADER_LEN + SAMPLE_LEN <= |inner| <= MAX_INNER_DATAGRAM_LEN) then Some(InvalidLength)
    else match Decode(inner)
      case Err(_) => Some(InvalidHeader)
      case Ok(packet) =>
        var h := packet.header;
        if h.flags != 0 then Some(InvalidHeader)
        else if h.kind == Data || h.kind == Keepalive then None
        else if h.kind == HandshakeInit && d == ClientToServer && h.sequence == 0 then None
        else if h.kind == HandshakeResponse && d == ServerToClient && h.sequence == 0 then None
        else Some(InvalidHeader)
  }

  /** Exclusive or of the bytes from `at` on with a mask. */
  function XorAt(s: seq<byte>, at: nat, mask: seq<byte>, n: nat): (t: seq<byte>)
    requires at + n <= |s| && n <= |mask|
    ensures |t| == |s|
    ensures forall i :: 0 <= i < |s| ==> t[i] == if at <= i < at + n then Xor(s[i], mask[i - at]) else s[i]
  {
    seq(|s|, i requires 0 <= i < |s| => if at <= i < at + n then Xor(s[i], mask[i - at]) else s[i])
  }

  lemma XorTwice(s: seq<byte>, at: nat, mask: seq<byte>, n: nat)
    requires at + n <= |s| && n <= |mask|
    ensures XorAt(XorAt(s, at, mask, n), at, mask, n) == s
  {
    var t := XorAt(s, at, mask, n);
    forall i | at <= i < at + n ensures Xor(t[i], mask[i - at]) == s[i] {
      assert t[i] == Xor(s[i], mask[i - at]);
    }
  }

  /** The mask depends on the tag and on the last bytes, which masking never touches. */
  function HeaderMask(p: Prf, k: Key, d: Direction, route: Tag, inner: seq<byte>): seq<byte>
    requires |inner| >= SAMPLE_LEN
  {
    p.mask(k, d, route + inner[|inner| - SAMPLE_LEN..])
  }

  ghost function Masked(p: Prf, k: Key, d: Direction, route: Tag, inner: seq<byte>): seq<byte>
    requires Sized(p) && |inner| >= HEADER_LEN + SAMPLE_LEN
  {
    XorAt(inner, 0, HeaderMask(p, k, d, route, inner), HEADER_LEN)
  }

  ghost function Frame(p: Prf, k: Key, d: Direction, epoch: nat, inner: seq<byte>): seq<byte>
    requires Sized(p) && |inner| >= HEADER_LEN + SAMPLE_LEN
  {
    var route := p.route(k, d, epoch);
    var body := route + Masked(p, k, d, route, inner);
    body + p.mac(k, d, body)
  }

  ghost function EncodeAt(p: Prf, k: Key, inner: seq<byte>, d: Direction, epoch: nat): Result<seq<byte>, SpeedyError>
    requires Sized(p)
  {
    match ValidateInner(inner, d)
    case Some(problem) => Err(problem)
    case None => Ok(Frame(p, k, d, epoch, inner))
  }

  ghost predicate KnownTag(p: Prf, k: Key, d: Direction, epoch: nat, tag: Tag) {
    exists e :: e in SpeedyEpochs(epoch) && p.route(k, d, e) == tag
  }

  ghost function DecodeAt(p: Prf, k: Key, input: seq<byte>, d: Direction, epoch: nat): Result<seq<byte>, SpeedyError>
    requires Sized(p)
  {
    if !(MIN_FRAME_LEN <= |input| <= MAX_DATAGRAM_LEN) then Err(InvalidLength)
    else
      var route, end := input[..ROUTING_TAG_LEN], |input| - AUTH_TAG_LEN;
      if !KnownTag(p, k, d, epoch, route) then Err(UnknownRoutingTag)
      else if p.mac(k, d, input[..end]) != input[end..] then Err(Authentication)
      else
        var inner := Masked(p, k, d, route, input[ROUTING_TAG_LEN..end]);
        match ValidateInner(inner, d)
        case Some(problem) => Err(problem)
        case None => Ok(inner)
  }

  lemma {:induction false} ZeroSequence(s: seq<byte>)
    ensures FromBe(s) == 0 <==> forall i :: 0 <= i < |s| ==> s[i] == 0
  {
    if s != [] {
      var before := s[..|s| - 1];
      ZeroSequence(before);
      assert (forall i :: 0 <= i < |s| ==> s[i] == 0) <==> s[|s| - 1] == 0 && forall i :: 0 <= i < |before| ==> before[i] == 0;
    }
  }

  /**
   * Byte for byte: 36 to 1428 bytes, version 1, no flags, and a data or keepalive datagram, or
   * the handshake message of its direction under sequence zero.
   */
  lemma ValidExactly(inner: seq<byte>, d: Direction)
    ensures ValidateInner(inner, d) == None <==>
            && 36 <= |inner| <= 1428 && inner[0] == 1 && inner[2] == 0 && inner[3] == 0
            && (|| inner[1] == 3 || inner[1] == 4
                || (inner[1] == (if d == ClientToServer then 1 else 2) && forall i :: 12 <= i < 20 ==> inner[i] == 0))
  {
    if |inner| >= 20 {
      FromTwo(inner[2..4]);
      ZeroSequence(inner[12..20]);
      assert (forall i :: 0 <= i < 8 ==> inner[12..20][i] == 0) <==> forall i :: 12 <= i < 20 ==> inner[i] == 0 by {
        forall i | 12 <= i < 20 ensures inner[i] == inner[12..20][i - 12] {}
      }
    }
  }

  // ----------------------------------------------------------------- round trips

  /** Masking twice under one tag is the identity: both times the same bytes are sampled. */
  lemma MaskedTwice(p: Prf, k: Key, d: Direction, route: Tag, inner: seq<byte>)
    requires Sized(p) && |inner| >= HEADER_LEN + SAMPLE_LEN
    ensures Masked(p, k, d, route, Masked(p, k, d, route, inner)) == inner
  {
    var once := Masked(p, k, d, route, inner);
    assert once[|once| - SAMPLE_LEN..] == inner[|inner| - SAMPLE_LEN..];
    XorTwice(inner, 0, HeaderMask(p, k, d, route, inner), HEADER_LEN);
  }

  lemma FrameParts(p: Prf, k: Key, d: Direction, epoch: nat, inner: seq<byte>)
    requires Sized(p) && |inner| >= HEADER_LEN + SAMPLE_LEN
    ensures var f, route := Frame(p, k, d, epoch, inner), p.route(k, d, epoch);
            var end := |f| - AUTH_TAG_LEN;
            && |f| == |inner| + OVERHEAD && f[..ROUTING_TAG_LEN] == route
            && f[ROUTING_TAG_LEN..end] == Masked(p, k, d, route, inner)
            && f[..end] == route + Masked(p, k, d, route, inner)
            && f[end..] == p.mac(k, d, f[..end])
  {
  }

  /**
   * A frame byte for byte: the tag; the 20 header bytes, each differing from the clear one in
   * exactly the digits that its mask byte has; the rest in the clear; and the code over all of it.
   * The mask comes from the tag and the last 16 bytes.
   */
  lemma FrameBytes(p: Prf, k: Key, d: Direction, epoch: nat, inner: seq<byte>, i: nat, digit: nat)
    requires Sized(p) && |inner| >= HEADER_LEN + SAMPLE_LEN && i < 20 && digit < 8
    ensures var f, route, end := Frame(p, k, d, epoch, inner), p.route(k, d, epoch), 8 + |inner|;
            var mask := p.mask(k, d, route + inner[|inner| - 16..]);
            && |f| == end + 16 && f[..8] == route
            && (f[8 + i] / Pow2(digit) % 2 == 1 <==> inner[i] / Pow2(digit) % 2 != mask[i] / Pow2(digit) % 2)
            && f[28..end] == inner[20..] && f[end..] == p.mac(k, d, f[..end])
  {
    FrameParts(p, k, d, epoch, inner);
    var f, route := Frame(p, k, d, epoch, inner), p.route(k, d, epoch);
    var masked, mask := Masked(p, k, d, route, inner), p.mask(k, d, route + inner[|inner| - 16..]);
    assert f[8..8 + |inner|] == masked;
    assert f[8 + i] == masked[i] == Xor(inner[i], mask[i]);
    XorByte(inner[i], mask[i], digit);
    assert f[28..8 + |inner|] == masked[20..] == inner[20..];
  }

  lemma EncodedDecodes(p: Prf, k: Key, inner: seq<byte>, d: Direction, e: nat, epoch: nat)
    requires Sized(p) && ValidateInner(inner, d) == None && e in SpeedyEpochs(epoch)
    ensures DecodeAt(p, k, Frame(p, k, d, e, inner), d, epoch) == Ok(inner)
    ensures MIN_FRAME_LEN <= |Frame(p, k, d, e, inner)| <= MAX_DATAGRAM_LEN
  {
    FrameParts(p, k, d, e, inner);
    MaskedTwice(p, k, d, p.route(k, d, e), inner);
  }

  /** An authentic input is the frame of whatever it unmasks to. */
  lemma FrameRebuilds(p: Prf, k: Key, input: seq<byte>, d: Direction, e: nat)
    requires Sized(p) && |input| >= MIN_FRAME_LEN && p.route(k, d, e) == input[..ROUTING_TAG_LEN]
    requires p.mac(k, d, input[..|input| - AUTH_TAG_LEN]) == input[|input| - AUTH_TAG_LEN..]
    ensures var inner := Masked(p, k, d, input[..ROUTING_TAG_LEN], input[ROUTING_TAG_LEN..|input| - AUTH_TAG_LEN]);
            Frame(p, k, d, e, inner) == input
  {
    var route, end := input[..ROUTING_TAG_LEN], |input| - AUTH_TAG_LEN;
    MaskedTwice(p, k, d, route, input[ROUTING_TAG_LEN..end]);
    assert route + input[ROUTING_TAG_LEN..end] == input[..end];
    assert input[..end] + input[end..] == input;
  }

  lemma DecodedEncodes(p: Prf, k: Key, input: seq<byte>, inner: seq<byte>, d: Direction, epoch: nat)
    requires Sized(p) && DecodeAt(p, k, input, d, epoch) == Ok(inner)
    ensures exists e :: e in SpeedyEpochs(epoch) && EncodeAt(p, k, inner, d, e) == Ok(input)
  {
    var e :| e in SpeedyEpochs(epoch) && p.route(k, d, e) == input[..ROUTING_TAG_LEN];
    FrameRebuilds(p, k, input, d, e);
    assert EncodeAt(p, k, inner, d, e) == Ok(input);
  }

  /**
   * A frame decodes to a datagram at some epoch exactly when it is the encoding of that
   * datagram at one of the epochs then accepted.
   */
  lemma DecodeInvertsEncode(p: Prf, k: Key, input: seq<byte>, inner: seq<byte>, d: Direction, epoch: nat)
    requires Sized(p)
    ensures DecodeAt(p, k, input, d, epoch) == Ok(inner) <==>
            exists e :: e in SpeedyEpochs(epoch) && EncodeAt(p, k, inner, d, e) == Ok(input)
  {
    if e :| e in SpeedyEpochs(epoch) && EncodeAt(p, k, inner, d, e) == Ok(input) {
      EncodedDecodes(p, k, inner, d, e, epoch);
    }
    if DecodeAt(p, k, input, d, epoch) == Ok(inner) {
      DecodedEncodes(p, k, input, inner, d, epoch);
    }
  }

  // ------------------------------------------------------------- implementation

  /** Tags of the accepted epochs around `epoch`, both directions. */
  datatype RouteCache = RouteCache(epoch: nat, toServer: seq<Tag>, toClient: seq<Tag>)

  function TagsOf(p: Prf, k: Key, d: Direction, epoch: nat): (tags: seq<Tag>) {
    var epochs := SpeedyEpochs(epoch);
    [p.route(k, d, epochs[0]), p.route(k, d, epochs[1]), p.route(k, d, epochs[2])]
  }

  lemma KnownIsListed(p: Prf, k: Key, d: Direction, epoch: nat, tag: Tag)
    ensures KnownTag(p, k, d, epoch, tag) <==> tag in TagsOf(p, k, d, epoch)
  {
    var epochs := SpeedyEpochs(epoch);
    if tag in TagsOf(p, k, d, epoch) {
      var i :| 0 <= i < 3 && TagsOf(p, k, d, epoch)[i] == tag;
      assert epochs[i] in epochs && p.route(k, d, epochs[i]) == tag;
    }
    if e :| e in epochs && p.route(k, d, e) == tag {
      var i :| 0 <= i < 3 && epochs[i] == e;
      assert TagsOf(p, k, d, epoch)[i] == tag;
    }
  }

  method XorInPlace(buffer: seq<byte>, at: nat, mask: seq<byte>, n: nat) returns (output: seq<byte>)
    requires at + n <= |buffer| && n <= |mask|
    ensures output == XorAt(buffer, at, mask, n)
  {
    output := buffer;
    for i := 0 to n
      invariant output == XorAt(buffer, at, mask, i)
    {
      output := output[at + i := Xor(output[at + i], mask[i])];
    }
  }

  class SpeedyCodec {
    const prf: Prf
    const key: Key
    var cache: Option<RouteCache>

    /** A cache entry holds what would be computed for its epoch. */
    ghost predicate Valid()
      reads this
    {
      && Sized(prf)
      && (cache.Some? ==>
            && cache.value.toServer == TagsOf(prf, key, ClientToServer, cache.value.epoch)
            && cache.value.toClient == TagsOf(prf, key, ServerToClient, cache.value.epoch))
    }

    constructor (prf: Prf, key: Key)
      requires Sized(prf)
      ensures Valid() && this.prf == prf && this.key == key
    {
      this.prf, this.key, cache := prf, key, None;
    }

    method Tags(d: Direction, epoch: nat) returns (tags: seq<Tag>)
      requires Valid()
      modifies this
      ensures Valid() && tags == TagsOf(prf, key, d, epoch)
    {
      if cache.None? || cache.value.epoch != epoch {
        cache := Some(RouteCache(epoch, TagsOf(prf, key, ClientToServer, epoch), TagsOf(prf, key, ServerToClient, epoch)));
      }
      tags := if d == ClientToServer then cache.value.toServer else cache.value.toClient;
    }

    /** The cache never shows: the result is that of `EncodeAt`, and a failure leaves no output. */
    method EncodeInto(inner: seq<byte>, d: Direction, epoch: nat) returns (r: Result<(), SpeedyError>, output: seq<byte>)
      requires Valid()
      modifies this
      ensures Valid()
      ensures match EncodeAt(prf, key, inner, d, epoch)
              case Ok(frame) => r == Ok(()) && output == frame
              case Err(e) => r == Err(e) && output == []
    {
      output := [];
      var problem := ValidateInner(inner, d);
      if problem.Some? {
        return Err(problem.value), output;
      }
      var tags := Tags(d, epoch);
      var route := tags[0];
      var mask := HeaderMask(prf, key, d, route, inner);
      output := output + route;
      output := output + inner;
      output := XorInPlace(output, ROUTING_TAG_LEN, mask, HEADER_LEN);
      assert output == route + Masked(prf, key, d, route, inner);
      output := output + prf.mac(key, d, output);
      r := Ok(());
    }

    method DecodeInto(input: seq<byte>, d: Direction, epoch: nat) returns (r: Result<(), SpeedyError>, output: seq<byte>)
      requires Valid()
      modifies this
      ensures Valid()
      ensures match DecodeAt(prf, key, input, d, epoch)
              case Ok(inner) => r == Ok(()) && output == inner
              case Err(e) => r == Err(e) && output == []
    {
      output := [];
      if !(MIN_FRAME_LEN <= |input| <= MAX_DATAGRAM_LEN) {
        return Err(InvalidLength), output;
      }
      var route := input[..ROUTING_TAG_LEN];
      var tags := Tags(d, epoch);
      KnownIsListed(prf, key, d, epoch, route);
      if route !in tags {
        return Err(UnknownRoutingTag), output;
      }
      var end := |input| - AUTH_TAG_LEN;
      if prf.mac(key, d, input[..end]) != input[end..] {
        return Err(Authentication), output;
      }
      var inner := input[ROUTING_TAG_LEN..end];
      var mask := HeaderMask(prf, key, d, route, inner);
      output := XorInPlace(inner, 0, mask, HEADER_LEN);
      var problem := ValidateInner(output, d);
      if problem.Some? {
        output := [];
        return Err(problem.value), output;
      }
      r := Ok(());
    }
  }
}
