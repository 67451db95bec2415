/**
 * One tunnel direction end to end: a sender, a network that may drop, duplicate, reorder,
 * alter and invent datagrams, and a receiver. A run is any sequence of events.
 */
module Link {
  import opened Bytes
  import opened Protocol
  import opened Replay
  import opened Tunnel

  datatype Event = SendIp(packet: seq<byte>) | SendKeepalive | Arrive(bytes: seq<byte>)

  datatype Delivery = Delivery(sequence: u64, content: Decoded)

  /** `sent[n]` is what was sealed under nonce `n`; `delivered` is what the receiver handed on. */
  datatype Link = Link(sender: Sender, receiver: Receiver, ledger: Ledger,
                       sent: seq<Outgoing>, delivered: seq<Delivery>)

  ghost function Fresh(sessionId: u64, mtu: nat): Link {
    Link(Sender(sessionId, 0, mtu), Receiver(sessionId, mtu, {}), map[], [], [])
  }

  ghost function Transmit(l: Link, seal: Seal, o: Outgoing): Link {
    if Frame(l.sender, seal, o).Err? then l
    else l.(sender := l.sender.(next := l.sender.next + 1),
            ledger := l.ledger[l.sender.next := EncodeInner(o.inner)],
            sent := l.sent + [o])
  }

  ghost function Deliver(l: Link, seal: Seal, d: Datagram): Link {
    var (receiver, r) := Receive(l.receiver, seal, l.ledger, d);
    match r
    case Err(_) => l.(receiver := receiver)
    case Ok(content) =>
      l.(receiver := receiver, delivered := l.delivered + [Delivery(d.header.sequence, content)])
  }

  ghost function Step(l: Link, seal: Seal, e: Event): Link {
    match e
    case SendIp(packet) =>
      (match OutgoingIp(l.sender.mtu, packet)
       case Err(_) => l
       case Ok(o) => Transmit(l, seal, o))
    case SendKeepalive => Transmit(l, seal, KEEPALIVE)
    case Arrive(bytes) =>
      (match Decode(bytes)
       case Err(_) => l
       case Ok(d) => Deliver(l, seal, d))
  }

  ghost function Run(l: Link, seal: Seal, events: seq<Event>): Link {
    if events == [] then l
    else Step(Run(l, seal, events[..|events| - 1]), seal, events[|events| - 1])
  }

  // ------------------------------------------------------------------ invariant

  /** Only trimmed IP packets within the MTU and empty keepalives are ever sealed. */
  ghost predicate Sealable(o: Outgoing, mtu: nat) {
    || o == KEEPALIVE
    || (&& o.kind == Data && o.inner.kind == InnerData && |o.inner.payload| <= mtu
        && ParseIpv4(o.inner.payload).Ok? && ParseIpv4(o.inner.payload).value.bytes == o.inner.payload)
  }

  /** What the receiving application should see for `o`. */
  function Content(o: Outgoing): Decoded {
    if o.kind == Data then Ip(o.inner.payload) else KeepaliveSeen
  }

  ghost predicate SenderInv(l: Link) {
    && l.sender.next == |l.sent|
    && l.receiver.sessionId == l.sender.sessionId && l.receiver.mtu == l.sender.mtu
    && (forall n: u64 :: n in l.ledger <==> n < |l.sent|)
    && (forall n: u64 :: n < |l.sent| ==>
          && Sealable(l.sent[n], l.sender.mtu)
          && l.ledger[n] == EncodeInner(l.sent[n].inner)
          && |l.ledger[n]| <= MAX_PLAINTEXT_LEN)
  }

  ghost predicate ReceiverInv(l: Link) {
    && (forall n :: n in l.receiver.accepted ==> n < |l.sent|)
    && (forall i :: 0 <= i < |l.delivered| ==>
          && l.delivered[i].sequence in l.receiver.accepted
          && l.delivered[i].content == Content(l.sent[l.delivered[i].sequence]))
    && (forall i, j :: 0 <= i < j < |l.delivered| ==> l.delivered[i].sequence != l.delivered[j].sequence)
  }

  ghost predicate Inv(l: Link) {
    SenderInv(l) && ReceiverInv(l)
  }

  /** A sealed outgoing classifies to its content under its own outer kind and no other. */
  lemma ClassifySealable(o: Outgoing, mtu: nat, kind: PacketKind)
    requires Sealable(o, mtu) && (kind == Data || kind == Keepalive)
    ensures Classify(kind, EncodeInner(o.inner), mtu) ==
            if kind == o.kind then Ok(Content(o)) else Err(UnexpectedInnerKind)
  {
    var plaintext := EncodeInner(o.inner);
    assert plaintext[1..] == o.inner.payload;
  }

  lemma TransmitKeepsInv(l: Link, seal: Seal, o: Outgoing)
    requires Inv(l) && Sealable(o, l.sender.mtu)
    ensures Inv(Transmit(l, seal, o))
  {
  }

  ghost predicate WasDelivered(l: Link, n: u64) {
    exists i :: 0 <= i < |l.delivered| && l.delivered[i].sequence == n
  }

  ghost predicate InWindow(accepted: set<nat>, n: nat) {
    accepted == {} || n + WINDOW_SIZE > Highest(accepted)
  }

  lemma AcceptedWas(l: Link, n: u64)
    requires Inv(l) && SetVerdict(l.receiver.accepted, n) == Acceptable
    ensures !WasDelivered(l, n)
    ensures InWindow(l.receiver.accepted + {n}, n)
    ensures SetVerdict(l.receiver.accepted + {n}, n) == Duplicate
  {
    var grown := l.receiver.accepted + {n};
    if l.receiver.accepted == {} || n > Highest(l.receiver.accepted) {
      HighestUnique(grown, n);
    } else {
      HighestUnique(grown, Highest(l.receiver.accepted));
    }
  }

  lemma DeliverKeepsInv(l: Link, seal: Seal, d: Datagram)
    requires Inv(l)
    ensures Inv(Deliver(l, seal, d))
  {
    var n := d.header.sequence;
    if Receive(l.receiver, seal, l.ledger, d).0 == l.receiver {
      assert Deliver(l, seal, d) == l;
    } else {
      AcceptedWas(l, n);
      ClassifySealable(l.sent[n], l.sender.mtu, d.header.kind);
    }
  }

  lemma StepKeepsInv(l: Link, seal: Seal, e: Event)
    requires Inv(l)
    ensures Inv(Step(l, seal, e))
  {
    match e
    case SendIp(packet) =>
      if ParseIpv4(packet).Ok? { ParseTrimmed(packet); }
      if OutgoingIp(l.sender.mtu, packet).Ok? {
        TransmitKeepsInv(l, seal, OutgoingIp(l.sender.mtu, packet).value);
      }
    case SendKeepalive => TransmitKeepsInv(l, seal, KEEPALIVE);
    case Arrive(bytes) =>
      if Decode(bytes).Ok? { DeliverKeepsInv(l, seal, Decode(bytes).value); }
  }

  lemma {:induction false} RunKeepsInv(sessionId: u64, mtu: nat, seal: Seal, events: seq<Event>)
    ensures Inv(Run(Fresh(sessionId, mtu), seal, events))
  {
    if events != [] {
      RunKeepsInv(sessionId, mtu, seal, events[..|events| - 1]);
      StepKeepsInv(Run(Fresh(sessionId, mtu), seal, events[..|events| - 1]), seal, events[|events| - 1]);
    }
  }

  // ------------------------------------------------------------------- theorems

  /** Whatever the network does, each sealed packet is handed on at most once and unchanged. */
  lemma AtMostOnceAndUnchanged(sessionId: u64, mtu: nat, seal: Seal, events: seq<Event>)
    ensures var l := Run(Fresh(sessionId, mtu), seal, events);
            && (forall i :: 0 <= i < |l.delivered| ==>
                  && l.delivered[i].sequence < |l.sent|
                  && l.delivered[i].content == Content(l.sent[l.delivered[i].sequence]))
            && (forall i, j :: 0 <= i < j < |l.delivered| ==>
                  l.delivered[i].sequence != l.delivered[j].sequence)
  {
    RunKeepsInv(sessionId, mtu, seal, events);
  }

  /** Nothing sealed in `now` is forgotten or resealed in `later`. */
  ghost predicate Extends(now: Link, later: Link) {
    && now.sent <= later.sent
    && forall n: u64 :: n in now.ledger ==> n in later.ledger && later.ledger[n] == now.ledger[n]
  }

  lemma StepExtends(l: Link, seal: Seal, e: Event)
    requires SenderInv(l)
    ensures Extends(l, Step(l, seal, e))
  {
  }

  /** Every nonce is used for one plaintext, forever, and 2^64 - 1 never is. */
  lemma {:induction false} NoncesAreNeverReused(sessionId: u64, mtu: nat, seal: Seal, events: seq<Event>, k: nat)
    requires k <= |events|
    ensures Extends(Run(Fresh(sessionId, mtu), seal, events[..k]), Run(Fresh(sessionId, mtu), seal, events))
    ensures U64_LIMIT - 1 !in Run(Fresh(sessionId, mtu), seal, events).ledger
  {
    RunKeepsInv(sessionId, mtu, seal, events);
    if k == |events| {
      assert events[..k] == events;
    } else {
      var before := events[..|events| - 1];
      NoncesAreNeverReused(sessionId, mtu, seal, before, k);
      RunKeepsInv(sessionId, mtu, seal, before);
      StepExtends(Run(Fresh(sessionId, mtu), seal, before), seal, events[|events| - 1]);
      assert before[..k] == events[..k];
    }
  }

  // ------------------------------------------------------------------- delivery

  /** The datagram that was put on the wire for nonce `n`. */
  ghost function Genuine(l: Link, seal: Seal, n: u64): seq<byte>
    requires SenderInv(l) && n < |l.sent|
  {
    Wire(l.sender.sessionId, n, l.sent[n].kind, seal(n, l.ledger[n]))
  }

  /** What the sender puts on the wire is the genuine datagram of its nonce. */
  lemma TransmittedIsGenuine(l: Link, seal: Seal, o: Outgoing)
    requires Inv(l) && Sealable(o, l.sender.mtu) && Frame(l.sender, seal, o).Ok?
    ensures var t := Transmit(l, seal, o);
            SenderInv(t) && t.sent == l.sent + [o] && Genuine(t, seal, l.sender.next) == Frame(l.sender, seal, o).value
  {
    TransmitKeepsInv(l, seal, o);
  }

  lemma ArriveDecodes(l: Link, seal: Seal, sequence: u64, kind: PacketKind, ciphertext: seq<byte>)
    ensures Step(l, seal, Arrive(Wire(l.sender.sessionId, sequence, kind, ciphertext))) ==
            Deliver(l, seal, Datagram(Header(kind, 0, l.sender.sessionId, sequence), ciphertext))
  {
    DecodeEncode(Datagram(Header(kind, 0, l.sender.sessionId, sequence), ciphertext));
  }

  /** A genuine datagram is handed on exactly when its sequence is still acceptable. */
  lemma GenuineArrival(l: Link, seal: Seal, n: u64)
    requires Inv(l) && AppendsTag(seal) && n < |l.sent|
    ensures Step(l, seal, Arrive(Genuine(l, seal, n))) ==
            if SetVerdict(l.receiver.accepted, n) == Acceptable
            then l.(receiver := l.receiver.(accepted := l.receiver.accepted + {n}),
                    delivered := l.delivered + [Delivery(n, Content(l.sent[n]))])
            else l
  {
    ArriveDecodes(l, seal, n, l.sent[n].kind, seal(n, l.ledger[n]));
    ClassifySealable(l.sent[n], l.sender.mtu, l.sent[n].kind);
  }

  /** Anything sent, in the window and not handed on yet is handed on when it arrives. */
  ghost predicate Prompt(l: Link, seal: Seal)
    requires SenderInv(l)
  {
    forall n: u64 :: n < |l.sent| && !WasDelivered(l, n) && InWindow(l.receiver.accepted, n) ==>
      WasDelivered(Step(l, seal, Arrive(Genuine(l, seal, n))), n)
  }

  /**
   * A fresh genuine ciphertext under the other outer kind. The outer header is not
   * authenticated, and the window commits before the kinds are compared.
   */
  ghost predicate Relabelled(l: Link, seal: Seal, e: Event) {
    && e.Arrive? && Decode(e.bytes).Ok?
    && var d := Decode(e.bytes).value;
       var n := d.header.sequence;
       && d.header.sessionId == l.receiver.sessionId
       && (d.header.kind == Data || d.header.kind == Keepalive)
       && Open(seal, l.ledger, n, d.payload).Some?
       && SetVerdict(l.receiver.accepted, n) == Acceptable
       && n < |l.sent| && l.sent[n].kind != d.header.kind
  }

  /** Every sequence the window holds was handed on. */
  ghost predicate NoneLost(l: Link) {
    forall n :: n in l.receiver.accepted ==> 0 <= n < U64_LIMIT && WasDelivered(l, n)
  }

  lemma NoneLostIsPrompt(l: Link, seal: Seal)
    requires Inv(l) && AppendsTag(seal) && NoneLost(l)
    ensures Prompt(l, seal)
  {
    forall n: u64 | n < |l.sent| && !WasDelivered(l, n) && InWindow(l.receiver.accepted, n)
      ensures WasDelivered(Step(l, seal, Arrive(Genuine(l, seal, n))), n)
    {
      GenuineArrival(l, seal, n);
      assert Step(l, seal, Arrive(Genuine(l, seal, n))).delivered[|l.delivered|].sequence == n;
    }
  }

  lemma DeliveredStays(l: Link, seal: Seal, e: Event, n: u64)
    requires WasDelivered(l, n)
    ensures WasDelivered(Step(l, seal, e), n)
  {
    var i :| 0 <= i < |l.delivered| && l.delivered[i].sequence == n;
    assert Step(l, seal, e).delivered[i].sequence == n;
  }

  lemma StepKeepsNoneLost(l: Link, seal: Seal, e: Event)
    requires Inv(l) && AppendsTag(seal) && NoneLost(l) && !Relabelled(l, seal, e)
    ensures NoneLost(Step(l, seal, e))
  {
    var next := Step(l, seal, e);
    forall n | n in next.receiver.accepted
      ensures 0 <= n < U64_LIMIT && WasDelivered(next, n)
    {
      if n in l.receiver.accepted {
        DeliveredStays(l, seal, e, n);
      } else {
        ClassifySealable(l.sent[n], l.sender.mtu, Decode(e.bytes).value.header.kind);
        assert next.delivered[|l.delivered|].sequence == n;
      }
    }
  }

  /** A relabelled copy uses the sequence up: what was sent can no longer be handed on. */
  lemma RelabelledLoses(l: Link, seal: Seal, e: Event)
    requires Inv(l) && AppendsTag(seal) && Relabelled(l, seal, e)
    ensures SenderInv(Step(l, seal, e)) && !Prompt(Step(l, seal, e), seal)
  {
    var d := Decode(e.bytes).value;
    var n := d.header.sequence;
    var next := Step(l, seal, e);
    ClassifySealable(l.sent[n], l.sender.mtu, d.header.kind);
    StepKeepsInv(l, seal, e);
    assert next.receiver.accepted == l.receiver.accepted + {n} && next.delivered == l.delivered;
    AcceptedWas(l, n);
    GenuineArrival(next, seal, n);
  }

  /** The state of a run after its first `k` events. */
  ghost function At(sessionId: u64, mtu: nat, seal: Seal, events: seq<Event>, k: nat): Link
    requires k <= |events|
  {
    Run(Fresh(sessionId, mtu), seal, events[..k])
  }

  lemma AtNext(sessionId: u64, mtu: nat, seal: Seal, events: seq<Event>, k: nat)
    requires k < |events|
    ensures At(sessionId, mtu, seal, events, k + 1) == Step(At(sessionId, mtu, seal, events, k), seal, events[k])
  {
    assert events[..k + 1][..k] == events[..k];
  }

  ghost predicate AlwaysPrompt(sessionId: u64, mtu: nat, seal: Seal, events: seq<Event>) {
    forall k :: 0 <= k <= |events| ==>
      SenderInv(At(sessionId, mtu, seal, events, k)) && Prompt(At(sessionId, mtu, seal, events, k), seal)
  }

  ghost predicate NeverRelabelled(sessionId: u64, mtu: nat, seal: Seal, events: seq<Event>) {
    forall k :: 0 <= k < |events| ==> !Relabelled(At(sessionId, mtu, seal, events, k), seal, events[k])
  }

  lemma {:induction false} NeverRelabelledLosesNone(sessionId: u64, mtu: nat, seal: Seal, events: seq<Event>, k: nat)
    requires k <= |events| && AppendsTag(seal) && NeverRelabelled(sessionId, mtu, seal, events)
    ensures NoneLost(At(sessionId, mtu, seal, events, k))
  {
    if k > 0 {
      NeverRelabelledLosesNone(sessionId, mtu, seal, events, k - 1);
      RunKeepsInv(sessionId, mtu, seal, events[..k - 1]);
      AtNext(sessionId, mtu, seal, events, k - 1);
      StepKeepsNoneLost(At(sessionId, mtu, seal, events, k - 1), seal, events[k - 1]);
    }
  }

  /**
   * Prompt delivery holds in every state of a run if and only if the network never
   * relabels a fresh datagram in it.
   */
  lemma PromptIffNeverRelabelled(sessionId: u64, mtu: nat, seal: Seal, events: seq<Event>)
    requires AppendsTag(seal)
    ensures AlwaysPrompt(sessionId, mtu, seal, events) <==> NeverRelabelled(sessionId, mtu, seal, events)
  {
    if k :| 0 <= k < |events| && Relabelled(At(sessionId, mtu, seal, events, k), seal, events[k]) {
      RunKeepsInv(sessionId, mtu, seal, events[..k]);
      RelabelledLoses(At(sessionId, mtu, seal, events, k), seal, events[k]);
      AtNext(sessionId, mtu, seal, events, k);
      assert !Prompt(At(sessionId, mtu, seal, events, k + 1), seal);
    } else {
      forall k | 0 <= k <= |events|
        ensures SenderInv(At(sessionId, mtu, seal, events, k)) && Prompt(At(sessionId, mtu, seal, events, k), seal)
      {
        RunKeepsInv(sessionId, mtu, seal, events[..k]);
        NeverRelabelledLosesNone(sessionId, mtu, seal, events, k);
        NoneLostIsPrompt(At(sessionId, mtu, seal, events, k), seal);
      }
    }
  }

  /** A link that has sealed one keepalive and received nothing. */
  ghost function OneKeepalive(sessionId: u64, mtu: nat): Link {
    Fresh(sessionId, mtu).(sender := Sender(sessionId, 1, mtu), sent := [KEEPALIVE],
                           ledger := map[0 := EncodeInner(KEEPALIVE.inner)])
  }

  lemma OneKeepaliveReached(sessionId: u64, mtu: nat, seal: Seal)
    ensures Step(Fresh(sessionId, mtu), seal, SendKeepalive) == OneKeepalive(sessionId, mtu)
    ensures Inv(OneKeepalive(sessionId, mtu))
  {
    StepKeepsInv(Fresh(sessionId, mtu), seal, SendKeepalive);
  }

  lemma LateKeepalive(l: Link, seal: Seal)
    requires Inv(l) && AppendsTag(seal) && |l.sent| > 0 && l.sent[0] == KEEPALIVE && l.receiver.accepted == {0}
    ensures Step(l, seal, Arrive(Wire(l.sender.sessionId, 0, Keepalive, seal(0, l.ledger[0])))) == l
  {
    HighestUnique({0}, 0);
    GenuineArrival(l, seal, 0);
  }

  lemma KeepaliveCopy(l: Link, seal: Seal, ciphertext: seq<byte>)
    requires Inv(l) && AppendsTag(seal) && |l.sent| > 0 && l.sent[0] == KEEPALIVE && l.receiver.accepted == {}
    requires ciphertext == seal(0, l.ledger[0])
    ensures Deliver(l, seal, Datagram(Header(Data, 0, l.sender.sessionId, 0), ciphertext)) ==
            l.(receiver := l.receiver.(accepted := {0}))
  {
    ClassifySealable(KEEPALIVE, l.sender.mtu, Data);
  }

  /** Prompt delivery can fail: one keepalive, its relabelled copy, then the keepalive itself. */
  lemma RelabellingLosesAKeepalive(sessionId: u64, mtu: nat, seal: Seal)
    requires AppendsTag(seal)
    ensures Step(Fresh(sessionId, mtu), seal, SendKeepalive) == OneKeepalive(sessionId, mtu)
    ensures var ciphertext := seal(0, EncodeInner(KEEPALIVE.inner));
            var copy := Step(OneKeepalive(sessionId, mtu), seal, Arrive(Wire(sessionId, 0, Data, ciphertext)));
            var end := Step(copy, seal, Arrive(Wire(sessionId, 0, Keepalive, ciphertext)));
            end.sent == [KEEPALIVE] && end.delivered == []
  {
    OneKeepaliveReached(sessionId, mtu, seal);
    var l := OneKeepalive(sessionId, mtu);
    var ciphertext := seal(0, l.ledger[0]);
    ArriveDecodes(l, seal, 0, Data, ciphertext);
    KeepaliveCopy(l, seal, ciphertext);
    LateKeepalive(l.(receiver := l.receiver.(accepted := {0})), seal);
  }
}
