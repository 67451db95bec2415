/** MouseMorph frames: a routing tag, a nonce, and an AEAD around a small header, a datagram and padding. */
module Morph {
  import opened Bytes
  import opened Router

  const FORMAT_VERSION: byte := 2
  const ROUTING_TAG_LEN: nat := 8
  const NONCE_LEN: nat := 12
  const CLEAR_PREFIX_LEN: nat := ROUTING_TAG_LEN + NONCE_LEN
  const INNER_HEADER_LEN: nat := 6
  const AUTH_TAG_LEN: nat := 16
  const MIN_FRAME_LEN: nat := CLEAR_PREFIX_LEN + INNER_HEADER_LEN + AUTH_TAG_LEN
  const MAX_DATAGRAM_LEN: nat := 1472
  const SAFE_TUN_MTU: nat := 1280
  const MAX_RANDOM_PADDING: nat := 31
  const FRAME_RANDOM_LEN: nat := NONCE_LEN + 2 + MAX_RANDOM_PADDING

  datatype Direction = ClientToServer | ServerToClient
  datatype FrameKind = Cover | Payload

  datatype MorphError =
    | Truncated | FrameTooLarge | InvalidFrame | InvalidProfile | UnknownRoutingTag | Authentication

  /** Routing tags and an AEAD: key, nonce, associated data and text. */
  datatype Cipher = Cipher(
    route: (Key, Profile, Direction, nat) -> Tag,
    seal: (Key, seq<byte>, seq<byte>, seq<byte>) -> seq<byte>,
    unseal: (Key, seq<byte>, seq<byte>, seq<byte>) -> Option<seq<byte>>)

  /** Unsealing inverts sealing, and each text has one ciphertext under a nonce. */
  ghost predicate Sound(c: Cipher) {
    && (forall k, p, d, e :: |c.route(k, p, d, e)| == ROUTING_TAG_LEN)
    && (forall k, n, a, t :: |c.seal(k, n, a, t)| == |t| + AUTH_TAG_LEN)
    && (forall k, n, a, t :: c.unseal(k, n, a, c.seal(k, n, a, t)) == Some(t))
    && (forall k, n, a, s :: c.unseal(k, n, a, s).Some? ==> c.seal(k, n, a, c.unseal(k, n, a, s).value) == s)
  }

  function ProfileCode(p: Profile): byte {
    match p
    case Quiet => 1
    case Balanced => 2
    case Paranoid => 3
  }

  function KindCode(k: FrameKind): byte { if k == Cover then 0 else 1 }

  function DirectionCode(d: Direction): byte { if d == ClientToServer then 0 else 1 }

  function AssociatedData(route: Tag, d: Direction): seq<byte> { route + [DirectionCode(d)] }

  // -------------------------------------------------------------- specification

  function InnerHeader(p: Profile, kind: FrameKind, length: nat): (h: seq<byte>)
    ensures |h| == INNER_HEADER_LEN
  {
    [FORMAT_VERSION, KindCode(kind), ProfileCode(p), 0] + ToBe(length, 2)
  }

  /** A frame with given epoch, nonce and padding. */
  function Frame(c: Cipher, k: Key, p: Profile, d: Direction, kind: FrameKind, epoch: nat, nonce: seq<byte>,
                 inner: seq<byte>, padding: seq<byte>): seq<byte> {
    var route := c.route(k, p, d, epoch);
    route + nonce + c.seal(k, nonce, AssociatedData(route, d), InnerHeader(p, kind, |inner|) + inner + padding)
  }

  /** Padding length chosen by two random bytes, as far as the datagram limit allows. */
  function PaddingLength(choice: nat, minimum: nat): (n: nat)
    requires minimum <= MAX_DATAGRAM_LEN
    ensures n <= MAX_RANDOM_PADDING && minimum + n <= MAX_DATAGRAM_LEN
  {
    var n := choice % (MAX_RANDOM_PADDING + 1);
    if n < MAX_DATAGRAM_LEN - minimum then n else MAX_DATAGRAM_LEN - minimum
  }

  function EncodeFrame(c: Cipher, k: Key, p: Profile, kind: FrameKind, inner: seq<byte>, d: Direction, epoch: nat,
                       random: seq<byte>): (r: Result<seq<byte>, MorphError>)
    requires |random| == FRAME_RANDOM_LEN
  {
    if |inner| >= U16_LIMIT || MIN_FRAME_LEN + |inner| > MAX_DATAGRAM_LEN then Err(FrameTooLarge)
    else
      var n := PaddingLength(FromBe(random[NONCE_LEN..NONCE_LEN + 2]), MIN_FRAME_LEN + |inner|);
      Ok(Frame(c, k, p, d, kind, epoch, random[..NONCE_LEN], inner, random[NONCE_LEN + 2..NONCE_LEN + 2 + n]))
  }

  datatype Contents = Contents(kind: FrameKind, inner: seq<byte>)

  /** What an authenticated text holds, for a receiver of one profile. */
  function Unwrap(text: seq<byte>, p: Profile): (r: Result<Contents, MorphError>) {
    if |text| < INNER_HEADER_LEN || text[0] != FORMAT_VERSION || text[3] != 0 then Err(InvalidFrame)
    else if !(1 <= text[2] <= 3) then Err(InvalidProfile)
    else if text[2] != ProfileCode(p) then Err(InvalidFrame)
    else
      var length := FromBe(text[4..6]);
      if INNER_HEADER_LEN + length > |text| then Err(InvalidFrame)
      else if text[1] == KindCode(Cover) && length == 0 then Ok(Contents(Cover, []))
      else if text[1] == KindCode(Payload) then Ok(Contents(Payload, text[INNER_HEADER_LEN..INNER_HEADER_LEN + length]))
      else Err(InvalidFrame)
  }

  ghost predicate KnownTag(c: Cipher, k: Key, p: Profile, d: Direction, epoch: nat, tag: Tag) {
    exists e :: e in MorphEpochs(epoch) && c.route(k, p, d, e) == tag
  }

  ghost function DecodeFrame(c: Cipher, k: Key, p: Profile, input: seq<byte>, d: Direction, epoch: nat): Result<Contents, MorphError> {
    if |input| < MIN_FRAME_LEN then Err(Truncated)
    else if |input| > MAX_DATAGRAM_LEN then Err(FrameTooLarge)
    else
      var route, nonce := input[..ROUTING_TAG_LEN], input[ROUTING_TAG_LEN..CLEAR_PREFIX_LEN];
      if !KnownTag(c, k, p, d, epoch, route) then Err(UnknownRoutingTag)
      else match c.unseal(k, nonce, AssociatedData(route, d), input[CLEAR_PREFIX_LEN..])
        case None => Err(Authentication)
        case Some(text) => Unwrap(text, p)
  }

  // ----------------------------------------------------------------- round trips

  lemma WrapUnwraps(p: Profile, kind: FrameKind, inner: seq<byte>, padding: seq<byte>)
    requires |inner| < U16_LIMIT && (kind == Cover ==> inner == [])
    ensures Unwrap(InnerHeader(p, kind, |inner|) + inner + padding, p) == Ok(Contents(kind, inner))
  {
    var length := ToBe(|inner|, 2);
    var text := InnerHeader(p, kind, |inner|) + inner + padding;
    assert FromBe(length) == |inner| by {
      Widths();
      FromToBe(|inner|, 2);
    }
    assert text == [FORMAT_VERSION, KindCode(kind), ProfileCode(p), 0] + length + inner + padding;
    assert text[4..6] == length && text[6..6 + |inner|] == inner;
  }

  lemma UnwrapWraps(text: seq<byte>, p: Profile) returns (padding: seq<byte>)
    requires Unwrap(text, p).Ok?
    ensures var x := Unwrap(text, p).value;
            && |x.inner| < U16_LIMIT && (x.kind == Cover ==> x.inner == [])
            && text == InnerHeader(p, x.kind, |x.inner|) + x.inner + padding
  {
    var length := FromBe(text[4..6]);
    Widths();
    ToFromBe(text[4..6]);
    padding := text[INNER_HEADER_LEN + length..];
    assert text == text[..4] + text[4..6] + text[6..6 + length] + padding;
  }

  /** Lengths and parts of a frame. */
  lemma FrameParts(c: Cipher, k: Key, p: Profile, d: Direction, kind: FrameKind, e: nat, nonce: seq<byte>, inner: seq<byte>, padding: seq<byte>)
    requires Sound(c) && |nonce| == NONCE_LEN
    ensures var f, route := Frame(c, k, p, d, kind, e, nonce, inner, padding), c.route(k, p, d, e);
            && |f| == MIN_FRAME_LEN + |inner| + |padding|
            && f[..ROUTING_TAG_LEN] == route && f[ROUTING_TAG_LEN..CLEAR_PREFIX_LEN] == nonce
            && f[CLEAR_PREFIX_LEN..] ==
               c.seal(k, nonce, AssociatedData(route, d), InnerHeader(p, kind, |inner|) + inner + padding)
  {
  }

  /** Every frame within the limit decodes, at every epoch that accepts its own. */
  lemma FrameDecodes(c: Cipher, k: Key, p: Profile, d: Direction, kind: FrameKind, e: nat, nonce: seq<byte>, inner: seq<byte>,
                     padding: seq<byte>, epoch: nat)
    requires Sound(c) && |nonce| == NONCE_LEN && e in MorphEpochs(epoch)
    requires MIN_FRAME_LEN + |inner| + |padding| <= MAX_DATAGRAM_LEN && (kind == Cover ==> inner == [])
    ensures DecodeFrame(c, k, p, Frame(c, k, p, d, kind, e, nonce, inner, padding), d, epoch) == Ok(Contents(kind, inner))
  {
    FrameParts(c, k, p, d, kind, e, nonce, inner, padding);
    WrapUnwraps(p, kind, inner, padding);
  }

  /** Nothing else decodes. */
  lemma DecodedIsFrame(c: Cipher, k: Key, p: Profile, input: seq<byte>, d: Direction, epoch: nat)
    returns (e: nat, nonce: seq<byte>, padding: seq<byte>)
    requires Sound(c) && DecodeFrame(c, k, p, input, d, epoch).Ok?
    ensures var x := DecodeFrame(c, k, p, input, d, epoch).value;
            && e in MorphEpochs(epoch) && |nonce| == NONCE_LEN && (x.kind == Cover ==> x.inner == [])
            && MIN_FRAME_LEN + |x.inner| + |padding| <= MAX_DATAGRAM_LEN
            && input == Frame(c, k, p, d, x.kind, e, nonce, x.inner, padding)
  {
    var route := input[..ROUTING_TAG_LEN];
    nonce := input[ROUTING_TAG_LEN..CLEAR_PREFIX_LEN];
    e :| e in MorphEpochs(epoch) && c.route(k, p, d, e) == route;
    var text := c.unseal(k, nonce, AssociatedData(route, d), input[CLEAR_PREFIX_LEN..]).value;
    padding := UnwrapWraps(text, p);
    var x := Unwrap(text, p).value;
    assert input == route + nonce + input[CLEAR_PREFIX_LEN..];
    FrameParts(c, k, p, d, x.kind, e, nonce, x.inner, padding);
  }

  /** Whatever is drawn at random, an encoded datagram fits the limit and decodes to itself. */
  lemma EncodedDecodes(c: Cipher, k: Key, p: Profile, inner: seq<byte>, d: Direction, e: nat, random: seq<byte>, epoch: nat)
    requires Sound(c) && |random| == FRAME_RANDOM_LEN && e in MorphEpochs(epoch)
    requires MIN_FRAME_LEN + |inner| <= MAX_DATAGRAM_LEN
    ensures var r := EncodeFrame(c, k, p, Payload, inner, d, e, random);
            && r.Ok? && |r.value| <= MAX_DATAGRAM_LEN
            && r.value[..ROUTING_TAG_LEN] == c.route(k, p, d, e)
            && DecodeFrame(c, k, p, r.value, d, epoch) == Ok(Contents(Payload, inner))
  {
    var n := PaddingLength(FromBe(random[NONCE_LEN..NONCE_LEN + 2]), MIN_FRAME_LEN + |inner|);
    var nonce, padding := random[..NONCE_LEN], random[NONCE_LEN + 2..NONCE_LEN + 2 + n];
    FrameParts(c, k, p, d, Payload, e, nonce, inner, padding);
    FrameDecodes(c, k, p, d, Payload, e, nonce, inner, padding, epoch);
  }

  // ------------------------------------------------------------- implementation

  /** Padding takes the low five bits of the choice, unless less room is left. */
  lemma PaddingExactly(choice: nat, minimum: nat)
    requires minimum <= MAX_DATAGRAM_LEN
    ensures var n := PaddingLength(choice, minimum);
            n <= choice % 32 && n <= 1472 - minimum && (n == choice % 32 || n == 1472 - minimum)
  {
  }

  /**
   * A frame byte for byte: the tag, the nonce, and sealed for tag and direction a header of
   * version 2, kind, profile, zero and the length, the datagram, and the padding.
   */
  lemma FrameLayout(c: Cipher, k: Key, p: Profile, kind: FrameKind, inner: seq<byte>, d: Direction, epoch: nat, random: seq<byte>)
    requires |random| == 45
    ensures EncodeFrame(c, k, p, kind, inner, d, epoch, random).Ok? <==> |inner| <= 1430
    ensures |inner| <= 1430 ==>
              var route, nonce := c.route(k, p, d, epoch), random[..12];
              var n := PaddingLength(256 * (random[12] as int) + random[13], 42 + |inner|);
              var header := [2, if kind == Cover then 0 else 1, match p case Quiet => 1 case Balanced => 2 case Paranoid => 3, 0,
                             |inner| / 256, |inner| % 256];
              n <= 31 && EncodeFrame(c, k, p, kind, inner, d, epoch, random) ==
              Ok(route + nonce + c.seal(k, nonce, route + [if d == ClientToServer then 0 else 1], header + inner + random[14..14 + n]))
  {
    if |inner| <= 1430 {
      FromTwo(random[12..14]);
      ToBeAt(|inner|, 2, 0);
      ToBeAt(|inner|, 2, 1);
      assert ToBe(|inner|, 2) == [|inner| / 256, |inner| % 256];
      var code: byte := match p case Quiet => 1 case Balanced => 2 case Paranoid => 3;
      assert InnerHeader(p, kind, |inner|) == [2, if kind == Cover then 0 else 1, code, 0, |inner| / 256, |inner| % 256];
    }
  }

  method MatchesRoutingTag(c: Cipher, k: Key, p: Profile, d: Direction, epoch: nat, route: Tag) returns (known: bool)
    ensures known <==> KnownTag(c, k, p, d, epoch, route)
  {
    // The current epoch is tried first, then its neighbours.
    var candidates := [epoch, EpochBefore(epoch), EpochAfter(epoch)];
    var epochs := MorphEpochs(epoch);
    assert epochs[0] == candidates[1] && epochs[1] == candidates[0] && epochs[2] == candidates[2];
    known := false;
    for i := 0 to |candidates|
      invariant forall j :: 0 <= j < i ==> c.route(k, p, d, candidates[j]) != route
    {
      if c.route(k, p, d, candidates[i]) == route {
        assert candidates[i] in epochs;
        return true;
      }
    }
    assert forall e :: e in epochs ==> e in candidates;
  }

  method EncodeInto(c: Cipher, k: Key, p: Profile, kind: FrameKind, inner: seq<byte>, d: Direction, epoch: nat, random: seq<byte>, buffer: seq<byte>)
    returns (r: Result<(), MorphError>, output: seq<byte>)
    requires Sound(c) && |random| == FRAME_RANDOM_LEN
    ensures match EncodeFrame(c, k, p, kind, inner, d, epoch, random)
            case Ok(frame) => r == Ok(()) && output == frame
            case Err(e) => r == Err(e) && output == buffer
  {
    output := buffer;
    if |inner| >= U16_LIMIT {
      return Err(FrameTooLarge), output;
    }
    var minimum := MIN_FRAME_LEN + |inner|;
    if minimum > MAX_DATAGRAM_LEN {
      return Err(FrameTooLarge), output;
    }
    var route := c.route(k, p, d, epoch);
    var nonce := random[..NONCE_LEN];
    var padding := PaddingLength(FromBe(random[NONCE_LEN..NONCE_LEN + 2]), minimum);
    output := [];
    output := output + route;
    output := output + nonce;
    ghost var clear := output;
    output := output + InnerHeader(p, kind, |inner|);
    output := output + inner;
    output := output + random[NONCE_LEN + 2..NONCE_LEN + 2 + padding];
    ghost var text := InnerHeader(p, kind, |inner|) + inner + random[NONCE_LEN + 2..NONCE_LEN + 2 + padding];
    assert output == clear + text;
    assert output[..CLEAR_PREFIX_LEN] == clear && output[CLEAR_PREFIX_LEN..] == text;
    output := output[..CLEAR_PREFIX_LEN] + c.seal(k, nonce, AssociatedData(route, d), output[CLEAR_PREFIX_LEN..]);
    r := Ok(());
  }

  /** Moves `n` bytes at `from` to the front; the ranges may overlap. */
  function CopyWithin(s: seq<byte>, from: nat, n: nat): (t: seq<byte>)
    requires from + n <= |s|
    ensures |t| == |s| && t[..n] == s[from..from + n]
  {
    s[from..from + n] + s[n..]
  }

  method DecodeInto(c: Cipher, k: Key, p: Profile, input: seq<byte>, d: Direction, epoch: nat, buffer: seq<byte>)
    returns (r: Result<FrameKind, MorphError>, output: seq<byte>)
    requires Sound(c)
    ensures match DecodeFrame(c, k, p, input, d, epoch)
            case Ok(x) => r == Ok(x.kind) && output == x.inner
            case Err(e) => r == Err(e)
  {
    output := buffer;
    if |input| < MIN_FRAME_LEN {
      return Err(Truncated), output;
    }
    if |input| > MAX_DATAGRAM_LEN {
      return Err(FrameTooLarge), output;
    }
    var route := input[..ROUTING_TAG_LEN];
    var known := MatchesRoutingTag(c, k, p, d, epoch, route);
    if !known {
      return Err(UnknownRoutingTag), output;
    }
    var nonce := input[ROUTING_TAG_LEN..CLEAR_PREFIX_LEN];
    var text := c.unseal(k, nonce, AssociatedData(route, d), input[CLEAR_PREFIX_LEN..]);
    if text.None? {
      return Err(Authentication), input[CLEAR_PREFIX_LEN..|input| - AUTH_TAG_LEN];
    }
    output := text.value;
    if |output| < INNER_HEADER_LEN || output[0] != FORMAT_VERSION || output[3] != 0 {
      return Err(InvalidFrame), output;
    }
    if !(1 <= output[2] <= 3) {
      return Err(InvalidProfile), output;
    }
    if output[2] != ProfileCode(p) {
      return Err(InvalidFrame), output;
    }
    var length := FromBe(output[4..6]);
    if INNER_HEADER_LEN + length > |output| {
      return Err(InvalidFrame), output;
    }
    if output[1] == KindCode(Cover) && length == 0 {
      return Ok(Cover), [];
    }
    if output[1] == KindCode(Payload) {
      output := CopyWithin(output, INNER_HEADER_LEN, length);
      output := output[..length];
      return Ok(Payload), output;
    }
    r := Err(InvalidFrame);
  }
}
