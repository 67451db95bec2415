/**
 * The two halves of a tunnel over an ideal AEAD.
 *
 * A `Ledger` records what was sealed in one key direction, plaintext by nonce. Opening
 * succeeds only on the seal of a recorded plaintext, which is what authentication means.
 */
module Tunnel {
  import opened Bytes
  import opened Protocol
  import opened Replay

  const AUTH_TAG_LEN: nat := 16
  const MAX_NOISE_MESSAGE_LEN: nat := 65535
  const MAX_PLAINTEXT_LEN: nat := MAX_NOISE_MESSAGE_LEN - AUTH_TAG_LEN
  const TUNNEL_OVERHEAD: nat := HEADER_LEN + 1 + AUTH_TAG_LEN

  type Seal = (u64, seq<byte>) -> seq<byte>
  type Ledger = map<u64, seq<byte>>

  /** A ciphertext is its plaintext's length plus the authentication tag. */
  ghost predicate AppendsTag(seal: Seal) {
    forall n: u64, p: seq<byte> :: |seal(n, p)| == |p| + AUTH_TAG_LEN
  }

  function Open(seal: Seal, ledger: Ledger, nonce: u64, ciphertext: seq<byte>): (p: Option<seq<byte>>)
    ensures p.Some? ==> nonce in ledger && p.value == ledger[nonce] && seal(nonce, p.value) == ciphertext
  {
    if nonce in ledger && seal(nonce, ledger[nonce]) == ciphertext then Some(ledger[nonce]) else None
  }

  datatype Error =
    | SequenceExhausted | MessageTooLarge | Rejected(verdict: Verdict) | Unauthentic
    | SessionMismatch | UnexpectedKind | UnexpectedInnerKind | ExceedsMtu
    | BadInner(inner: InnerError) | BadIp(ip: Ipv4Error)

  /** What one sealed datagram carries. */
  datatype Outgoing = Outgoing(kind: PacketKind, inner: Inner)

  datatype Decoded = Ip(packet: seq<byte>) | KeepaliveSeen

  datatype Sender = Sender(sessionId: u64, next: u64, mtu: nat)

  datatype Receiver = Receiver(sessionId: u64, mtu: nat, accepted: set<nat>)

  const KEEPALIVE: Outgoing := Outgoing(Keepalive, Inner(InnerKeepalive, []))

  // -------------------------------------------------------------- specification

  function OutgoingIp(mtu: nat, packet: seq<byte>): (r: Result<Outgoing, Error>) {
    match ParseIpv4(packet)
    case Err(e) => Err(BadIp(e))
    case Ok(ip) =>
      if |ip.bytes| > mtu then Err(ExceedsMtu)
      else Ok(Outgoing(Data, Inner(InnerData, ip.bytes)))
  }

  function Wire(sessionId: u64, sequence: u64, kind: PacketKind, ciphertext: seq<byte>): seq<byte> {
    Encode(Datagram(Header(kind, 0, sessionId, sequence), ciphertext))
  }

  /** The complete datagram for `o`, or why none is produced. */
  function Frame(s: Sender, seal: Seal, o: Outgoing): (r: Result<seq<byte>, Error>) {
    if s.next + 1 >= U64_LIMIT then Err(SequenceExhausted)
    else if |EncodeInner(o.inner)| > MAX_PLAINTEXT_LEN then Err(MessageTooLarge)
    else Ok(Wire(s.sessionId, s.next, o.kind, seal(s.next, EncodeInner(o.inner))))
  }

  /** Meaning of an authenticated plaintext under an outer kind. */
  function Classify(kind: PacketKind, plaintext: seq<byte>, mtu: nat): (r: Result<Decoded, Error>) {
    match DecodeInner(plaintext)
    case Err(e) => Err(BadInner(e))
    case Ok(inner) =>
      if kind == Data && inner.kind == InnerData then
        match ParseIpv4(inner.payload)
        case Err(e) => Err(BadIp(e))
        case Ok(ip) => if |ip.bytes| > mtu then Err(ExceedsMtu) else Ok(Ip(ip.bytes))
      else if kind == Keepalive && inner.kind == InnerKeepalive && inner.payload == [] then Ok(KeepaliveSeen)
      else Err(UnexpectedInnerKind)
  }

  /** Check, authenticate, commit, and only then look inside. */
  ghost function Receive(r: Receiver, seal: Seal, ledger: Ledger, d: Datagram): (Receiver, Result<Decoded, Error>) {
    if d.header.sessionId != r.sessionId then (r, Err(SessionMismatch))
    else if d.header.kind != Data && d.header.kind != Keepalive then (r, Err(UnexpectedKind))
    else if |d.payload| > MAX_NOISE_MESSAGE_LEN then (r, Err(MessageTooLarge))
    else if SetVerdict(r.accepted, d.header.sequence) != Acceptable then
      (r, Err(Rejected(SetVerdict(r.accepted, d.header.sequence))))
    else match Open(seal, ledger, d.header.sequence, d.payload)
      case None => (r, Err(Unauthentic))
      case Some(plaintext) =>
        (r.(accepted := r.accepted + {d.header.sequence}), Classify(d.header.kind, plaintext, r.mtu))
  }

  // ------------------------------------------------------------- implementation

  /** Sealing fails exactly when sequences or the message size run out, and otherwise frames kind and payload. */
  lemma SealsExactly(s: Sender, seal: Seal, o: Outgoing)
    ensures Frame(s, seal, o).Ok? <==> s.next < 0xffff_ffff_ffff_ffff && |o.inner.payload| <= 65518
    ensures Frame(s, seal, o).Ok? ==>
              var code := match o.inner.kind case InnerData => 1 case InnerKeepalive => 2 case InnerClose => 3;
              Frame(s, seal, o).value ==
              Encode(Datagram(Header(o.kind, 0, s.sessionId, s.next), seal(s.next, [code] + o.inner.payload)))
  {
    InnerLayout([], o.inner);
  }

  /** An IP packet is sealed as data, trimmed to its total length, if it parses and fits the MTU. */
  lemma OutgoingExactly(mtu: nat, packet: seq<byte>, o: Outgoing)
    ensures OutgoingIp(mtu, packet) == Ok(o) <==>
            && ParseIpv4(packet).Ok? && |ParseIpv4(packet).value.bytes| <= mtu
            && o == Outgoing(Data, Inner(InnerData, ParseIpv4(packet).value.bytes))
  {
  }

  /** The datagram is for this session, of a kind it takes, in size, new, and sealed under its sequence. */
  ghost predicate Authentic(r: Receiver, seal: Seal, ledger: Ledger, d: Datagram) {
    && d.header.sessionId == r.sessionId && (d.header.kind == Data || d.header.kind == Keepalive)
    && |d.payload| <= 65535 && SetVerdict(r.accepted, d.header.sequence) == Acceptable
    && d.header.sequence in ledger && seal(d.header.sequence, ledger[d.header.sequence]) == d.payload
  }

  /** Exactly an authentic datagram uses its sequence up; nothing else changes. */
  lemma CommitsExactly(r: Receiver, seal: Seal, ledger: Ledger, d: Datagram)
    ensures Receive(r, seal, ledger, d).0 ==
            if Authentic(r, seal, ledger, d) then r.(accepted := r.accepted + {d.header.sequence}) else r
  {
  }

  /**
   * What is delivered: an authentic data datagram whose plaintext is a one and an IP packet
   * within the MTU, or an authentic keepalive whose plaintext is a lone two.
   */
  lemma ReceivesExactly(r: Receiver, seal: Seal, ledger: Ledger, d: Datagram, c: Decoded)
    ensures Receive(r, seal, ledger, d).1 == Ok(c) <==>
            && Authentic(r, seal, ledger, d)
            && var text := ledger[d.header.sequence];
               if d.header.kind == Keepalive then text == [2] && c == KeepaliveSeen
               else && text != [] && text[0] == 1 && ParseIpv4(text[1..]).Ok?
                    && |ParseIpv4(text[1..]).value.bytes| <= r.mtu && c == Ip(ParseIpv4(text[1..]).value.bytes)
  {
    if Authentic(r, seal, ledger, d) {
      var text := ledger[d.header.sequence];
      if text != [] { assert text == [text[0]] + text[1..]; }
    }
  }


  /** One key direction of a Noise transport, shared by its two halves. */
  class Transport {
    const seal: Seal
    var ledger: Ledger

    constructor (seal: Seal)
      ensures this.seal == seal && ledger == map[]
    {
      this.seal := seal;
      ledger := map[];
    }

    method WriteMessage(nonce: u64, plaintext: seq<byte>) returns (ciphertext: seq<byte>)
      modifies this
      ensures ciphertext == seal(nonce, plaintext)
      ensures ledger == old(ledger)[nonce := plaintext]
    {
      ciphertext := seal(nonce, plaintext);
      ledger := ledger[nonce := plaintext];
    }

    method ReadMessage(nonce: u64, ciphertext: seq<byte>) returns (plaintext: Option<seq<byte>>)
      ensures plaintext == Open(seal, ledger, nonce, ciphertext)
    {
      plaintext := Open(seal, ledger, nonce, ciphertext);
    }
  }

  function Resize(buffer: seq<byte>, length: nat): (s: seq<byte>)
    ensures |s| == length
  {
    if length <= |buffer| then buffer[..length] else buffer + seq(length - |buffer|, _ => 0)
  }

  class TunnelSender {
    const sessionId: u64
    const mtu: nat
    const crypto: Transport
    var next: u64
    var plaintext: seq<byte>

    ghost function State(): Sender
      reads this
    {
      Sender(sessionId, next, mtu)
    }

    constructor (sessionId: u64, mtu: nat, crypto: Transport)
      ensures State() == Sender(sessionId, 0, mtu) && this.crypto == crypto
    {
      this.sessionId, this.mtu, this.crypto := sessionId, mtu, crypto;
      next, plaintext := 0, [];
    }

    method EncodeInto(kind: PacketKind, innerKind: InnerKind, payload: seq<byte>, buffer: seq<byte>)
      returns (r: Result<(), Error>, output: seq<byte>)
      requires AppendsTag(crypto.seal)
      modifies this, crypto
      ensures var inner := Inner(innerKind, payload);
              match Frame(old(State()), crypto.seal, Outgoing(kind, inner))
              case Ok(datagram) =>
                && r == Ok(()) && output == datagram
                && State() == old(State()).(next := old(next) + 1)
                && crypto.ledger == old(crypto.ledger)[old(next) := EncodeInner(inner)]
              case Err(e) =>
                r == Err(e) && State() == old(State()) && crypto.ledger == old(crypto.ledger)
    {
      output := buffer;
      var sequence := next;
      if sequence + 1 >= U64_LIMIT {
        return Err(SequenceExhausted), output;
      }
      plaintext := [];
      plaintext := plaintext + [InnerCode(innerKind)];
      plaintext := plaintext + payload;
      assert plaintext == EncodeInner(Inner(innerKind, payload));
      output := Resize(output, HEADER_LEN + |plaintext| + AUTH_TAG_LEN);
      if |plaintext| > MAX_PLAINTEXT_LEN {
        return Err(MessageTooLarge), output;
      }
      var ciphertext := crypto.WriteMessage(sequence, plaintext);
      output := output[..HEADER_LEN] + ciphertext;
      output := EncodeHeader(Header(kind, 0, sessionId, sequence)) + output[HEADER_LEN..];
      next := sequence + 1;
      r := Ok(());
    }

    method EncodeIpInto(packet: seq<byte>, buffer: seq<byte>) returns (r: Result<(), Error>, output: seq<byte>)
      requires AppendsTag(crypto.seal)
      modifies this, crypto
      ensures match OutgoingIp(mtu, packet)
              case Err(e) => r == Err(e) && State() == old(State()) && crypto.ledger == old(crypto.ledger)
              case Ok(o) =>
                match Frame(old(State()), crypto.seal, o)
                case Ok(datagram) =>
                  && r == Ok(()) && output == datagram
                  && State() == old(State()).(next := old(next) + 1)
                  && crypto.ledger == old(crypto.ledger)[old(next) := EncodeInner(o.inner)]
                case Err(e) => r == Err(e) && State() == old(State()) && crypto.ledger == old(crypto.ledger)
    {
      match ParseIpv4(packet)
      case Err(e) => r, output := Err(BadIp(e)), buffer;
      case Ok(ip) =>
        if |ip.bytes| > mtu {
          return Err(ExceedsMtu), buffer;
        }
        r, output := EncodeInto(Data, InnerData, ip.bytes, buffer);
    }

    method EncodeKeepaliveInto(buffer: seq<byte>) returns (r: Result<(), Error>, output: seq<byte>)
      requires AppendsTag(crypto.seal)
      modifies this, crypto
      ensures match Frame(old(State()), crypto.seal, KEEPALIVE)
              case Ok(datagram) =>
                && r == Ok(()) && output == datagram
                && State() == old(State()).(next := old(next) + 1)
                && crypto.ledger == old(crypto.ledger)[old(next) := EncodeInner(KEEPALIVE.inner)]
              case Err(e) => r == Err(e) && State() == old(State()) && crypto.ledger == old(crypto.ledger)
    {
      r, output := EncodeInto(Keepalive, InnerKeepalive, [], buffer);
    }
  }

  class TunnelReceiver {
    const sessionId: u64
    const mtu: nat
    const crypto: Transport
    const window: ReplayWindow

    ghost predicate Valid()
      reads window, window.seen
    {
      window.Valid()
    }

    ghost function State(): Receiver
      reads window
    {
      Receiver(sessionId, mtu, window.accepted)
    }

    constructor (sessionId: u64, mtu: nat, crypto: Transport)
      ensures Valid() && fresh(window) && fresh(window.seen)
      ensures State() == Receiver(sessionId, mtu, {}) && this.crypto == crypto
    {
      this.sessionId, this.mtu, this.crypto := sessionId, mtu, crypto;
      window := new ReplayWindow();
    }

    method DecodeInto(d: Datagram, buffer: seq<byte>) returns (r: Result<Decoded, Error>, output: seq<byte>)
      requires Valid()
      modifies window, window.seen
      ensures Valid()
      ensures (State(), r) == Receive(old(State()), crypto.seal, crypto.ledger, d)
      ensures r.Ok? && r.value.Ip? ==> |r.value.packet| < |output| && r.value.packet == output[1..1 + |r.value.packet|]
    {
      output := buffer;
      if d.header.sessionId != sessionId {
        return Err(SessionMismatch), output;
      }
      if d.header.kind != Data && d.header.kind != Keepalive {
        return Err(UnexpectedKind), output;
      }
      output := Resize(output, |d.payload|);
      if |d.payload| > MAX_NOISE_MESSAGE_LEN {
        return Err(MessageTooLarge), output;
      }
      var verdict := window.EnsureAcceptable(d.header.sequence);
      if verdict != Acceptable {
        return Err(Rejected(verdict)), output;
      }
      var plaintext := crypto.ReadMessage(d.header.sequence, d.payload);
      if plaintext.None? {
        return Err(Unauthentic), output;
      }
      window.MarkAuthenticated(d.header.sequence);
      output := plaintext.value;
      r := Classify(d.header.kind, output, mtu);
    }
  }
}
