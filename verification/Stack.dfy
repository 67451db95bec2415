/**
 * The layers together: an IP packet through the tunnel, the wire format of its session, the
 * server's tag routing, and back.
 */
module Stack {
  import opened Bytes
  import opened Protocol
  import opened Replay
  import opened Router
  import opened Sessions
  import opened Subnet
  import T = Tunnel
  import S = Speedy
  import M = Morph

  /** Keys, tags and ciphers as one server and its clients share them. */
  datatype Suite = Suite(keyring: Keyring, prf: S.Prf, cipher: M.Cipher)

  ghost predicate Coherent(x: Suite) {
    && S.Sized(x.prf) && M.Sound(x.cipher)
    && (forall k, p, e :: x.keyring.morphTag(k, p, e) == x.cipher.route(k, p, M.ClientToServer, e))
    && (forall k, e :: x.keyring.speedyTag(k, e) == x.prf.route(k, S.ClientToServer, e))
  }

  /** Largest IP packet of a session: masked formats leave room for their own bytes. */
  function SessionMtu(wire: WireMode, configured: nat): nat {
    var limit := if wire.SpeedyWire? then S.SAFE_TUN_MTU else M.SAFE_TUN_MTU;
    if wire.Legacy? || configured < limit then configured else limit
  }

  /** The configured MTU, but no more than 1391 under Speedy and 1280 under Morph. */
  lemma MtuExactly(wire: WireMode, configured: nat)
    ensures var mtu := SessionMtu(wire, configured);
            && mtu <= configured && (wire.Legacy? ==> mtu == configured)
            && (wire.SpeedyWire? ==> mtu <= 1391 && (mtu == configured || mtu == 1391))
            && (wire.MorphWire? ==> mtu <= 1280 && (mtu == configured || mtu == 1280))
  {
  }

  const MAX_MTU: nat := 9000

  function EpochOf(wire: WireMode, clock: nat): nat {
    match wire
    case Legacy => 0
    case SpeedyWire(_) => clock / SPEEDY_EPOCH_SECONDS
    case MorphWire(_, p) => clock / EpochSeconds(p)
  }

  /** A frame made at `sent` is still accepted at `read`. */
  /** Epochs last 10 s under Speedy, and 30, 5 or 1 s under the profiles of Morph. */
  lemma EpochExactly(wire: WireMode, clock: nat)
    ensures EpochOf(wire, clock) == match wire
            case Legacy => 0
            case SpeedyWire(_) => clock / 10
            case MorphWire(_, Quiet) => clock / 30
            case MorphWire(_, Balanced) => clock / 5
            case MorphWire(_, Paranoid) => clock
  {
  }

  predicate InWindow(wire: WireMode, sent: nat, read: nat) {
    wire.Legacy? || EpochOf(wire, sent) in MorphEpochs(EpochOf(wire, read))
  }

  /** Clocks one epoch apart or less always agree well enough. */
  lemma SkewIsTolerated(wire: WireMode, sent: nat, read: nat, period: nat)
    requires period == match wire case MorphWire(_, p) => EpochSeconds(p) case _ => SPEEDY_EPOCH_SECONDS
    requires sent <= read + period && read <= sent + period && sent < U64_LIMIT && read < U64_LIMIT - 1
    ensures InWindow(wire, sent, read)
  {
    if !wire.Legacy? {
      var e, f := EpochOf(wire, sent), EpochOf(wire, read);
      assert e - 1 <= f <= e + 1;
      assert MorphEpochs(f)[1] == f;
      assert f > 0 ==> MorphEpochs(f)[0] == f - 1;
      assert f < U64_LIMIT - 1 ==> MorphEpochs(f)[2] == f + 1;
    }
  }

  // -------------------------------------------------------------------- masking

  ghost function Mask(x: Suite, wire: WireMode, toServer: bool, clock: nat, inner: seq<byte>, random: seq<byte>): Option<seq<byte>>
    requires Coherent(x) && |random| == M.FRAME_RANDOM_LEN
  {
    match wire
    case Legacy => Some(inner)
    case SpeedyWire(pk) =>
      var d := if toServer then S.ClientToServer else S.ServerToClient;
      (match S.EncodeAt(x.prf, KeyOr(x.keyring.speedyKey(pk)), inner, d, EpochOf(wire, clock))
       case Ok(frame) => Some(frame)
       case Err(_) => None)
    case MorphWire(pk, p) =>
      var d := if toServer then M.ClientToServer else M.ServerToClient;
      (match M.EncodeFrame(x.cipher, KeyOr(x.keyring.morphKey(pk)), p, M.Payload, inner, d, EpochOf(wire, clock), random)
       case Ok(frame) => Some(frame)
       case Err(_) => None)
  }

  /** Unmasking by someone who knows the format of the session. */
  ghost function Unmask(x: Suite, wire: WireMode, toServer: bool, clock: nat, frame: seq<byte>): Option<seq<byte>>
    requires Coherent(x)
  {
    match wire
    case Legacy => Some(frame)
    case SpeedyWire(pk) =>
      var d := if toServer then S.ClientToServer else S.ServerToClient;
      (match S.DecodeAt(x.prf, KeyOr(x.keyring.speedyKey(pk)), frame, d, EpochOf(wire, clock))
       case Ok(inner) => Some(inner)
       case Err(_) => None)
    case MorphWire(pk, p) =>
      var d := if toServer then M.ClientToServer else M.ServerToClient;
      (match M.DecodeFrame(x.cipher, KeyOr(x.keyring.morphKey(pk)), p, frame, d, EpochOf(wire, clock))
       case Ok(y) => if y.kind == M.Payload then Some(y.inner) else None
       case Err(_) => None)
  }

  lemma SameEpochs(e: nat, epoch: nat)
    ensures e in MorphEpochs(epoch) <==> e in SpeedyEpochs(epoch)
  {
    var m, s := MorphEpochs(epoch), SpeedyEpochs(epoch);
    assert m[0] == s[1] && m[1] == s[0] && m[2] == s[2];
    if e in m {
      var i :| 0 <= i < 3 && m[i] == e;
      assert s[1] in s && s[0] in s && s[2] in s;
    }
    if e in s {
      var i :| 0 <= i < 3 && s[i] == e;
      assert m[1] in m && m[0] in m && m[2] in m;
    }
  }

  /** Whatever the format, direction and random draw, unmasking in the window undoes masking. */
  lemma UnmaskInvertsMask(x: Suite, wire: WireMode, toServer: bool, sent: nat, read: nat, inner: seq<byte>, random: seq<byte>)
    requires Coherent(x) && |random| == M.FRAME_RANDOM_LEN && InWindow(wire, sent, read)
    requires Mask(x, wire, toServer, sent, inner, random).Some?
    ensures Unmask(x, wire, toServer, read, Mask(x, wire, toServer, sent, inner, random).value) == Some(inner)
    ensures wire.SpeedyWire? ==> |Mask(x, wire, toServer, sent, inner, random).value| <= S.MAX_DATAGRAM_LEN
    ensures wire.MorphWire? ==> |Mask(x, wire, toServer, sent, inner, random).value| <= M.MAX_DATAGRAM_LEN
  {
    match wire
    case Legacy =>
    case SpeedyWire(pk) =>
      SameEpochs(EpochOf(wire, sent), EpochOf(wire, read));
      S.EncodedDecodes(x.prf, KeyOr(x.keyring.speedyKey(pk)), inner, if toServer then S.ClientToServer else S.ServerToClient,
                       EpochOf(wire, sent), EpochOf(wire, read));
    case MorphWire(pk, p) =>
      M.EncodedDecodes(x.cipher, KeyOr(x.keyring.morphKey(pk)), p, inner, if toServer then M.ClientToServer else M.ServerToClient,
                       EpochOf(wire, sent), random, EpochOf(wire, read));
  }

  // --------------------------------------------------------- one packet, all layers

  /** A tunnel datagram for a packet within the session MTU can always be masked. */
  lemma DatagramCanBeMasked(x: Suite, wire: WireMode, toServer: bool, clock: nat, datagram: seq<byte>, random: seq<byte>, configured: nat)
    requires Coherent(x) && |random| == M.FRAME_RANDOM_LEN
    requires Decode(datagram).Ok? && Decode(datagram).value.header.kind == Data && Decode(datagram).value.header.flags == 0
    requires MIN_IPV4_HEADER_LEN <= |datagram| - T.TUNNEL_OVERHEAD <= SessionMtu(wire, configured)
    ensures Mask(x, wire, toServer, clock, datagram, random).Some?
  {
  }

  lemma SealedPacketClassifies(packet: seq<byte>, mtu: nat)
    requires ParseIpv4(packet).Ok? && |ParseIpv4(packet).value.bytes| <= mtu
    ensures T.Classify(Data, EncodeInner(Inner(InnerData, ParseIpv4(packet).value.bytes)), mtu) ==
            Ok(T.Ip(ParseIpv4(packet).value.bytes))
  {
    var bytes := ParseIpv4(packet).value.bytes;
    ParseTrimmed(packet);
    assert EncodeInner(Inner(InnerData, bytes))[1..] == bytes;
  }

  /** The tunnel's share of the journey. */
  lemma TunnelCarries(sender: T.Sender, receiver: T.Receiver, seal: T.Seal, ledger: T.Ledger, packet: seq<byte>)
    requires T.AppendsTag(seal) && sender.mtu == receiver.mtu <= MAX_MTU && sender.sessionId == receiver.sessionId
    requires sender.next < U64_LIMIT - 1 && SetVerdict(receiver.accepted, sender.next) == Acceptable
    requires ParseIpv4(packet).Ok? && |ParseIpv4(packet).value.bytes| <= sender.mtu
    requires sender.next in ledger && ledger[sender.next] == EncodeInner(Inner(InnerData, ParseIpv4(packet).value.bytes))
    ensures var outgoing := T.OutgoingIp(sender.mtu, packet);
            && outgoing.Ok? && T.Frame(sender, seal, outgoing.value).Ok?
            && var datagram := T.Frame(sender, seal, outgoing.value).value;
               && |datagram| == |ParseIpv4(packet).value.bytes| + T.TUNNEL_OVERHEAD
               && Decode(datagram).Ok? && Decode(datagram).value.header == Header(Data, 0, sender.sessionId, sender.next)
               && T.Receive(receiver, seal, ledger, Decode(datagram).value).1 == Ok(T.Ip(ParseIpv4(packet).value.bytes))
  {
    var plaintext := EncodeInner(Inner(InnerData, ParseIpv4(packet).value.bytes));
    DecodeEncode(Datagram(Header(Data, 0, sender.sessionId, sender.next), seal(sender.next, plaintext)));
    SealedPacketClassifies(packet, sender.mtu);
  }

  /**
   * An IP packet that fits the session goes through tunnel, masking, unmasking and tunnel
   * again unchanged, up to its IP total length, within the datagram limit of its format.
   */
  lemma PacketSurvivesTheStack(x: Suite, wire: WireMode, toServer: bool, configured: nat, sender: T.Sender, receiver: T.Receiver,
                               seal: T.Seal, ledger: T.Ledger, packet: seq<byte>, sent: nat, read: nat, random: seq<byte>)
    requires Coherent(x) && T.AppendsTag(seal) && |random| == M.FRAME_RANDOM_LEN && InWindow(wire, sent, read)
    requires 576 <= configured <= 9000
    requires sender.mtu == receiver.mtu == SessionMtu(wire, configured) && sender.sessionId == receiver.sessionId
    requires sender.next < U64_LIMIT - 1 && SetVerdict(receiver.accepted, sender.next) == Acceptable
    requires ParseIpv4(packet).Ok? && |ParseIpv4(packet).value.bytes| <= sender.mtu
    requires sender.next in ledger && ledger[sender.next] == EncodeInner(Inner(InnerData, ParseIpv4(packet).value.bytes))
    ensures var outgoing := T.OutgoingIp(sender.mtu, packet);
            && outgoing.Ok? && T.Frame(sender, seal, outgoing.value).Ok?
            && var datagram := T.Frame(sender, seal, outgoing.value).value;
               var frame := Mask(x, wire, toServer, sent, datagram, random);
               && frame.Some?
               && (wire.SpeedyWire? ==> |frame.value| <= S.MAX_DATAGRAM_LEN)
               && (wire.MorphWire? ==> |frame.value| <= M.MAX_DATAGRAM_LEN)
               && Unmask(x, wire, toServer, read, frame.value) == Some(datagram)
               && Decode(datagram).Ok?
               && T.Receive(receiver, seal, ledger, Decode(datagram).value).1 == Ok(T.Ip(ParseIpv4(packet).value.bytes))
  {
    TunnelCarries(sender, receiver, seal, ledger, packet);
    var datagram := T.Frame(sender, seal, T.OutgoingIp(sender.mtu, packet).value).value;
    DatagramCanBeMasked(x, wire, toServer, sent, datagram, random, configured);
    UnmaskInvertsMask(x, wire, toServer, sent, read, datagram, random);
  }

  // ------------------------------------------------------------------ tag routing

  /** How the server finds out which device and format a frame belongs to. */
  ghost function DecodeWire(x: Suite, t: Tables, clock: nat, input: seq<byte>): Option<(WireMode, seq<byte>)>
    requires Coherent(x)
  {
    if |input| < 8 then Some((Legacy, input))
    else
      var tag := input[..8];
      if tag in t.routes then
        var route := t.routes[tag];
        (match M.DecodeFrame(x.cipher, route.key, route.profile, input, M.ClientToServer, clock / EpochSeconds(route.profile))
         case Ok(y) => if y.kind == M.Payload then Some((MorphWire(route.publicKey, route.profile), y.inner)) else None
         case Err(_) => None)
      else if tag in t.ambiguous then None
      else if tag in t.speedy then
        var route := t.speedy[tag];
        (match S.DecodeAt(x.prf, route.key, input, S.ClientToServer, clock / SPEEDY_EPOCH_SECONDS)
         case Ok(inner) => Some((SpeedyWire(route.publicKey), inner))
         case Err(_) => None)
      else Some((Legacy, input))
  }

  /** The claim behind a frame's tag. */
  lemma FrameIsClaimed(x: Suite, wire: WireMode, sent: nat, read: nat, inner: seq<byte>, random: seq<byte>, devices: set<PublicKey>)
    returns (c: Claim)
    requires Coherent(x) && |random| == M.FRAME_RANDOM_LEN && InWindow(wire, sent, read) && !wire.Legacy?
    requires wire.clientPublicKey in devices && x.keyring.morphKey(wire.clientPublicKey).Some?
    requires Mask(x, wire, true, sent, inner, random).Some?
    ensures var frame := Mask(x, wire, true, sent, inner, random).value;
            && |frame| >= 8 && c in AllClaims(x.keyring, devices) && TagOf(x.keyring, read, c) == frame[..8]
            && c.device == wire.clientPublicKey && c.Morph? == wire.MorphWire? && (c.Morph? ==> c.profile == wire.profile)
  {
    var epochs := MorphEpochs(EpochOf(wire, read));
    var i :| 0 <= i < 3 && epochs[i] == EpochOf(wire, sent);
    var pk := wire.clientPublicKey;
    match wire
    case MorphWire(_, p) =>
      M.EncodedDecodes(x.cipher, KeyOr(x.keyring.morphKey(pk)), p, inner, M.ClientToServer, EpochOf(wire, sent), random, EpochOf(wire, read));
      c := Morph(pk, p, i);
    case SpeedyWire(_) =>
      S.FrameParts(x.prf, KeyOr(x.keyring.speedyKey(pk)), S.ClientToServer, EpochOf(wire, sent), inner);
      c := Speedy(pk, if i == 0 then 1 else if i == 1 then 0 else 2);
  }

  lemma RoutesToItsClaim(k: Keyring, t: Tables, clock: nat, devices: set<PublicKey>, c: Claim)
    requires Right(k, clock, AllClaims(k, devices), t) && c in AllClaims(k, devices)
    ensures var tag := TagOf(k, clock, c);
            && (tag in t.ambiguous ==> tag !in t.routes && tag !in t.speedy)
            && (tag !in t.ambiguous && c.Morph? ==> tag in t.routes && t.routes[tag] == MorphRouteOf(k, c))
            && (tag !in t.ambiguous && c.Speedy? ==> tag !in t.routes && tag in t.speedy && t.speedy[tag] == SpeedyRouteOf(k, c))
  {
    var tag := TagOf(k, clock, c);
    RoutedIffSoleClaim(k, clock, AllClaims(k, devices), t, tag);
    assert RightAt(k, clock, AllClaims(k, devices), t, tag);
    assert c in Claimants(k, clock, AllClaims(k, devices), tag);
  }

  /**
   * A masked client frame is recognised as its own device's and format's, and unmasked,
   * exactly when its tag is not ambiguous; an ambiguous one is dropped.
   */
  lemma UplinkIsRouted(x: Suite, t: Tables, wire: WireMode, sent: nat, read: nat, inner: seq<byte>, random: seq<byte>, devices: set<PublicKey>)
    requires Coherent(x) && |random| == M.FRAME_RANDOM_LEN && InWindow(wire, sent, read) && !wire.Legacy?
    requires wire.clientPublicKey in devices && x.keyring.morphKey(wire.clientPublicKey).Some?
    requires Mask(x, wire, true, sent, inner, random).Some? && Right(x.keyring, read, AllClaims(x.keyring, devices), t)
    ensures var frame := Mask(x, wire, true, sent, inner, random).value;
            |frame| >= 8 && DecodeWire(x, t, read, frame) == if frame[..8] in t.ambiguous then None else Some((wire, inner))
  {
    var frame := Mask(x, wire, true, sent, inner, random).value;
    var c := FrameIsClaimed(x, wire, sent, read, inner, random, devices);
    UnmaskInvertsMask(x, wire, true, sent, read, inner, random);
    RoutesToItsClaim(x.keyring, t, read, devices, c);
  }

  lemma Unrouted(k: Keyring, t: Tables, clock: nat, devices: set<PublicKey>, tag: Tag)
    requires Right(k, clock, AllClaims(k, devices), t) && Claimants(k, clock, AllClaims(k, devices), tag) == iset{}
    ensures tag !in t.routes && tag !in t.speedy && tag !in t.ambiguous
  {
    assert RightAt(k, clock, AllClaims(k, devices), t, tag);
    assert forall c: Claim :: iset{c} != Claimants(k, clock, AllClaims(k, devices), tag) by {
      forall c: Claim ensures iset{c} != Claimants(k, clock, AllClaims(k, devices), tag) { assert c in iset{c}; }
    }
  }

  /** A datagram passes as a legacy one exactly when no claim happens to start like it. */
  lemma LegacyIffUnclaimed(x: Suite, t: Tables, clock: nat, input: seq<byte>, devices: set<PublicKey>)
    requires Coherent(x) && |input| >= 8 && Right(x.keyring, clock, AllClaims(x.keyring, devices), t)
    ensures DecodeWire(x, t, clock, input) == Some((Legacy, input)) <==>
            forall c :: c in AllClaims(x.keyring, devices) ==> TagOf(x.keyring, clock, c) != input[..8]
  {
    var tag := input[..8];
    assert RightAt(x.keyring, clock, AllClaims(x.keyring, devices), t, tag);
    if c :| c in AllClaims(x.keyring, devices) && TagOf(x.keyring, clock, c) == tag {
      RoutesToItsClaim(x.keyring, t, clock, devices, c);
    } else {
      assert Claimants(x.keyring, clock, AllClaims(x.keyring, devices), tag) == iset{};
      Unrouted(x.keyring, t, clock, devices, tag);
    }
  }

  /** What is too short for a tag is taken as plain. */
  lemma ShortIsLegacy(x: Suite, t: Tables, clock: nat, input: seq<byte>)
    requires Coherent(x) && |input| < 8
    ensures DecodeWire(x, t, clock, input) == Some((Legacy, input))
  {
  }

  /** A claim made by the device and format of `w`. */
  predicate ClaimOf(c: Claim, w: WireMode) {
    !w.Legacy? && c.device == w.clientPublicKey && c.Morph? == w.MorphWire? && (c.Morph? ==> c.profile == w.profile)
  }

  lemma NotAmbiguous(k: Keyring, t: Tables, clock: nat, devices: set<PublicKey>, c: Claim, tag: Tag)
    requires Right(k, clock, AllClaims(k, devices), t) && Claimants(k, clock, AllClaims(k, devices), tag) == iset{c}
    ensures tag !in t.ambiguous
  {
    assert RightAt(k, clock, AllClaims(k, devices), t, tag);
  }

  /**
   * A frame is taken for one of a masked format if and only if its tag has a single claim, by
   * that device and format, and the frame unmasks. One that is claimed and does not is dropped.
   */
  lemma RecognisedExactly(x: Suite, t: Tables, clock: nat, input: seq<byte>, devices: set<PublicKey>, w: WireMode, inner: seq<byte>)
    requires Coherent(x) && |input| >= 8 && Right(x.keyring, clock, AllClaims(x.keyring, devices), t) && !w.Legacy?
    ensures DecodeWire(x, t, clock, input) == Some((w, inner)) <==>
            && (exists c: Claim :: Claimants(x.keyring, clock, AllClaims(x.keyring, devices), input[..8]) == iset{c} && ClaimOf(c, w))
            && Unmask(x, w, true, clock, input) == Some(inner)
  {
    var tag, all := input[..8], AllClaims(x.keyring, devices);
    assert RightAt(x.keyring, clock, all, t, tag);
    if c: Claim :| Claimants(x.keyring, clock, all, tag) == iset{c} && ClaimOf(c, w) {
      assert c in Claimants(x.keyring, clock, all, tag);
      RoutesToItsClaim(x.keyring, t, clock, devices, c);
      NotAmbiguous(x.keyring, t, clock, devices, c, tag);
    } else if tag in t.routes || tag in t.speedy {
      var c: Claim :| Claimants(x.keyring, clock, all, tag) == iset{c};
      assert c in Claimants(x.keyring, clock, all, tag);
      RoutesToItsClaim(x.keyring, t, clock, devices, c);
      NotAmbiguous(x.keyring, t, clock, devices, c, tag);
      assert !ClaimOf(c, w);
    }
  }

  /** An installed session as the UDP loop finds it: format, address, flag and receiver. */
  datatype Endpoint = Endpoint(wire: WireMode, address: Address, active: bool, receiver: T.Receiver)

  /** The datagram is opened, and its packet written if it comes from the session's address. */
  ghost function Written(session: Endpoint, seal: T.Seal, ledger: T.Ledger, inner: seq<byte>): Option<seq<byte>> {
    match Decode(inner)
    case Err(_) => None
    case Ok(datagram) =>
      if datagram.header.kind != Data then None
      else match T.Receive(session.receiver, seal, ledger, datagram).1
        case Ok(Ip(packet)) =>
          (match ParseIpv4(packet)
           case Ok(ip) => if ip.source == session.address then Some(packet) else None
           case Err(_) => None)
        case _ => None
  }

  /** What a client's datagram puts on the TUN device through its session, if anything. */
  ghost function Uplink(x: Suite, t: Tables, session: Endpoint, seal: T.Seal, ledger: T.Ledger, clock: nat, input: seq<byte>): Option<seq<byte>>
    requires Coherent(x)
  {
    match DecodeWire(x, t, clock, input)
    case None => None
    case Some((incoming, inner)) =>
      if session.active && session.wire.Matches(incoming) then Written(session, seal, ledger, inner) else None
  }

  /** The tag tables let a frame of this format through as what it is. */
  ghost predicate Passes(x: Suite, t: Tables, wire: WireMode, clock: nat, devices: set<PublicKey>, frame: seq<byte>)
    requires |frame| >= 8
  {
    if wire.Legacy? then forall c :: c in AllClaims(x.keyring, devices) ==> TagOf(x.keyring, clock, c) != frame[..8]
    else frame[..8] !in t.ambiguous
  }

  /** A frame is recognised as what it is exactly when the tables let it through, and otherwise never as its own format. */
  lemma RecognisedIffPasses(x: Suite, t: Tables, wire: WireMode, sent: nat, read: nat, inner: seq<byte>, random: seq<byte>, devices: set<PublicKey>)
    requires Coherent(x) && |random| == M.FRAME_RANDOM_LEN && InWindow(wire, sent, read) && |inner| >= 8
    requires !wire.Legacy? ==> wire.clientPublicKey in devices && x.keyring.morphKey(wire.clientPublicKey).Some?
    requires Mask(x, wire, true, sent, inner, random).Some? && Right(x.keyring, read, AllClaims(x.keyring, devices), t)
    ensures var frame := Mask(x, wire, true, sent, inner, random).value;
            && |frame| >= 8
            && var r := DecodeWire(x, t, read, frame);
               if Passes(x, t, wire, read, devices, frame) then r == Some((wire, inner)) else r.Some? ==> !wire.Matches(r.value.0)
  {
    if wire.Legacy? {
      LegacyIffUnclaimed(x, t, read, inner, devices);
    } else {
      UplinkIsRouted(x, t, wire, sent, read, inner, random, devices);
    }
  }

  /**
   * From the client's IP packet to the server's TUN device: the packet is written unchanged if
   * the session's flag is up, the packet comes from the session's address, and its tag is not
   * ambiguous, or for the plain format no claim starts like its datagram; otherwise it is not written.
   */
  lemma UplinkArrivesIffPasses(x: Suite, t: Tables, session: Endpoint, devices: set<PublicKey>, configured: nat, sender: T.Sender,
                               seal: T.Seal, ledger: T.Ledger, packet: seq<byte>, sent: nat, read: nat, random: seq<byte>)
    requires Coherent(x) && T.AppendsTag(seal) && |random| == M.FRAME_RANDOM_LEN && InWindow(session.wire, sent, read)
    requires 576 <= configured <= 9000 && Right(x.keyring, read, AllClaims(x.keyring, devices), t)
    requires !session.wire.Legacy? ==>
               session.wire.clientPublicKey in devices && x.keyring.morphKey(session.wire.clientPublicKey).Some?
    requires sender.mtu == session.receiver.mtu == SessionMtu(session.wire, configured) && sender.sessionId == session.receiver.sessionId
    requires sender.next < U64_LIMIT - 1 && SetVerdict(session.receiver.accepted, sender.next) == Acceptable
    requires ParseIpv4(packet).Ok? && |ParseIpv4(packet).value.bytes| <= sender.mtu
    requires sender.next in ledger && ledger[sender.next] == EncodeInner(Inner(InnerData, ParseIpv4(packet).value.bytes))
    ensures var outgoing := T.OutgoingIp(sender.mtu, packet);
            && outgoing.Ok? && T.Frame(sender, seal, outgoing.value).Ok?
            && var frame := Mask(x, session.wire, true, sent, T.Frame(sender, seal, outgoing.value).value, random);
               && frame.Some? && |frame.value| >= 8
               && Uplink(x, t, session, seal, ledger, read, frame.value) ==
                    if session.active && ParseIpv4(packet).value.source == session.address &&
                       Passes(x, t, session.wire, read, devices, frame.value)
                    then Some(ParseIpv4(packet).value.bytes) else None
  {
    TunnelCarries(sender, session.receiver, seal, ledger, packet);
    var datagram := T.Frame(sender, seal, T.OutgoingIp(sender.mtu, packet).value).value;
    ParseTrimmed(packet);
    DatagramCanBeMasked(x, session.wire, true, sent, datagram, random, configured);
    RecognisedIffPasses(x, t, session.wire, sent, read, datagram, random, devices);
  }
}
