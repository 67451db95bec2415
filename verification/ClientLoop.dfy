/** The client's packet loop as far as keepalives and reconnects go. */
module ClientLoop {
  import opened Bytes
  import opened Liveness

  const KEEPALIVE_RESPONSE_TIMEOUT: nat := 20_000

  datatype Metrics = Metrics(sent: nat, responses: nat, timeouts: nat)

  /** `pending` holds the send times of unanswered keepalives, oldest first; `now` is the last clock reading. */
  datatype Loop = Loop(live: State, pending: seq<int>, metrics: Metrics, now: int)

  datatype Outcome = Success | Unreachable | NoRoute | Failed

  /** One reading of the clock and what the loop does with it. */
  datatype Turn =
    | IpPacket
    | KeepaliveReply
    | LossReport
    | Expire
    | Maintain(outcome: Outcome, finished: int)

  datatype Event = Event(now: int, turn: Turn)

  // ---------------------------------------------------------------------- steps

  /** How many of the oldest keepalives have waited too long. */
  function Overdue(pending: seq<int>, now: int): (n: nat)
    ensures n <= |pending|
    ensures forall i :: 0 <= i < n ==> Since(now, pending[i]) >= KEEPALIVE_RESPONSE_TIMEOUT
    ensures n < |pending| ==> Since(now, pending[n]) < KEEPALIVE_RESPONSE_TIMEOUT
  {
    if pending == [] || Since(now, pending[0]) < KEEPALIVE_RESPONSE_TIMEOUT then 0 else 1 + Overdue(pending[1..], now)
  }

  method ExpireKeepalives(pending: seq<int>, now: int, timeouts: nat) returns (rest: seq<int>, counted: nat)
    ensures rest == pending[Overdue(pending, now)..] && counted == timeouts + Overdue(pending, now)
    ensures var n := counted - timeouts;
            && 0 <= n <= |pending| && rest == pending[n..]
            && (forall i :: 0 <= i < n ==> now - pending[i] >= 20_000) && (n < |pending| ==> now - pending[n] < 20_000)
  {
    rest := pending;
    var expired := 0;
    while rest != [] && Since(now, rest[0]) >= KEEPALIVE_RESPONSE_TIMEOUT
      invariant expired <= |pending| && rest == pending[expired..]
      invariant expired + Overdue(rest, now) == Overdue(pending, now)
      decreases |rest|
    {
      rest := rest[1..];
      expired := expired + 1;
    }
    counted := timeouts + expired;
  }

  function OnReply(l: Loop, now: int): Loop {
    var live := PacketReceived(l.live, now);
    if l.pending == [] then l.(live := live, now := now)
    else Loop(live, l.pending[..|l.pending| - 1], l.metrics.(responses := l.metrics.responses + 1), now)
  }

  /** A reconnect writes off whatever is pending, whether or not it then succeeds. */
  function OnReconnect(l: Loop, now: int, outcome: Outcome, finished: int): Loop {
    var metrics := l.metrics.(timeouts := l.metrics.timeouts + |l.pending|);
    var attempted := ReconnectAttempted(l.live, now);
    match outcome
    case NoRoute => Loop(NetworkUnavailable(l.live, now), [], metrics, now)
    case Success => Loop(Reconnected(attempted, finished), [], metrics, finished)
    case _ => Loop(attempted, [], metrics, now)
  }

  function OnMaintain(l: Loop, now: int, outcome: Outcome, finished: int): Loop {
    match ActionAt(l.live, now)
    case Nothing => l.(now := now)
    case Reconnect => OnReconnect(l, now, outcome, finished)
    case Keepalive =>
      if outcome == Success then
        Loop(KeepaliveSent(l.live, now), l.pending + [now], l.metrics.(sent := l.metrics.sent + 1), now)
      else if outcome == Unreachable then l.(live := ConnectionLost(l.live, now), now := now)
      else l.(now := now)
  }

  /** A clock that would run backwards is ignored. */
  function Advance(l: Loop, e: Event): Loop {
    if e.now < l.now then l
    else match e.turn
      case IpPacket => l.(live := PacketReceived(l.live, e.now), now := e.now)
      case KeepaliveReply => OnReply(l, e.now)
      case LossReport => l.(live := ConnectionLost(l.live, e.now), now := e.now)
      case Expire =>
        var n := Overdue(l.pending, e.now);
        Loop(l.live, l.pending[n..], l.metrics.(timeouts := l.metrics.timeouts + n), e.now)
      case Maintain(outcome, finished) =>
        if finished < e.now then l else OnMaintain(l, e.now, outcome, finished)
  }

  function Run(start: int, earliest: int, events: seq<Event>): Loop {
    if events == [] then Loop(Start(start, earliest), [], Metrics(0, 0, 0), start)
    else Advance(Run(start, earliest, events[..|events| - 1]), events[|events| - 1])
  }

  // ------------------------------------------------------------------- the loop

  class PacketLoop {
    const liveness: Monitor
    var pending: seq<int>
    var sent: nat
    var responses: nat
    var timeouts: nat
    ghost var now: int

    ghost function Contents(): Loop
      reads this, liveness
    {
      Loop(liveness.Contents(), pending, Metrics(sent, responses, timeouts), now)
    }

    constructor (start: int, earliest: int)
      ensures Contents() == Run(start, earliest, []) && fresh(liveness)
    {
      liveness := new Monitor(start, earliest);
      pending, sent, responses, timeouts, now := [], 0, 0, 0, start;
    }

    method Reply(at: int)
      modifies this, liveness
      ensures Contents() == OnReply(old(Contents()), at)
    {
      liveness.OnPacketReceived(at);
      if pending != [] {
        pending := pending[..|pending| - 1];
        responses := responses + 1;
      }
      now := at;
    }

    method DoReconnect(at: int, outcome: Outcome, finished: int)
      modifies this, liveness
      ensures Contents() == OnReconnect(old(Contents()), at, outcome, finished)
    {
      timeouts := timeouts + |pending|;
      pending := [];
      now := at;
      if outcome == NoRoute {
        liveness.OnNetworkUnavailable(at);
        return;
      }
      liveness.OnReconnectAttempted(at);
      if outcome == Success {
        liveness.OnReconnected(finished);
        now := finished;
      }
    }

    method MaintainLiveness(at: int, outcome: Outcome, finished: int)
      modifies this, liveness
      ensures Contents() == OnMaintain(old(Contents()), at, outcome, finished)
    {
      var action := liveness.NextAction(at);
      match action {
        case Nothing =>
          now := at;
        case Reconnect =>
          DoReconnect(at, outcome, finished);
        case Keepalive =>
          now := at;
          if outcome == Success {
            liveness.OnKeepaliveSent(at);
            pending := pending + [at];
            sent := sent + 1;
          } else if outcome == Unreachable {
            var _ := liveness.OnConnectionLost(at);
          }
      }
    }

    /** One turn of the loop takes the step of the specification. */
    method Take(e: Event)
      requires now <= e.now && (e.turn.Maintain? ==> e.now <= e.turn.finished)
      modifies this, liveness
      ensures Contents() == Advance(old(Contents()), e)
    {
      match e.turn {
        case IpPacket =>
          liveness.OnPacketReceived(e.now);
          now := e.now;
        case KeepaliveReply =>
          Reply(e.now);
        case LossReport =>
          var _ := liveness.OnConnectionLost(e.now);
          now := e.now;
        case Expire =>
          pending, timeouts := ExpireKeepalives(pending, e.now, timeouts);
          now := e.now;
        case Maintain(outcome, finished) =>
          MaintainLiveness(e.now, outcome, finished);
      }
    }
  }

  // ------------------------------------------------------------------ invariant

  /** Pending keepalives were sent at least one interval apart. */
  ghost predicate Spread(pending: seq<int>) {
    forall i :: 0 < i < |pending| ==> pending[i - 1] + KEEPALIVE_INTERVAL <= pending[i]
  }

  ghost predicate Inv(l: Loop) {
    && l.metrics.sent == l.metrics.responses + l.metrics.timeouts + |l.pending|
    && Spread(l.pending)
    && (l.pending != [] ==> l.pending[|l.pending| - 1] <= l.live.heartbeat)
    && l.live.heartbeat <= l.now
    && MIN_RECONNECT_BACKOFF <= l.live.backoff <= MAX_RECONNECT_BACKOFF
  }

  lemma ReplyKeepsInv(l: Loop, now: int)
    requires Inv(l) && l.now <= now
    ensures Inv(OnReply(l, now))
  {
  }

  lemma MaintainKeepsInv(l: Loop, now: int, outcome: Outcome, finished: int)
    requires Inv(l) && l.now <= now <= finished
    ensures Inv(OnMaintain(l, now, outcome, finished))
  {
  }

  lemma StepKeepsInv(l: Loop, e: Event)
    requires Inv(l)
    ensures Inv(Advance(l, e))
  {
    if e.now >= l.now {
      match e.turn
      case KeepaliveReply => ReplyKeepsInv(l, e.now);
      case Maintain(outcome, finished) =>
        if finished >= e.now { MaintainKeepsInv(l, e.now, outcome, finished); }
      case _ =>
    }
  }

  lemma {:induction false} RunKeepsInv(start: int, earliest: int, events: seq<Event>)
    ensures Inv(Run(start, earliest, events))
  {
    if events != [] {
      RunKeepsInv(start, earliest, events[..|events| - 1]);
      StepKeepsInv(Run(start, earliest, events[..|events| - 1]), events[|events| - 1]);
    }
  }

  // ------------------------------------------------------------------- theorems

  /** Every keepalive sent is answered, timed out or pending, and sends stay one interval apart. */
  lemma KeepalivesAreConserved(start: int, earliest: int, events: seq<Event>)
    ensures var l := Run(start, earliest, events);
            && l.metrics.sent == l.metrics.responses + l.metrics.timeouts + |l.pending|
            && forall i :: 0 < i < |l.pending| ==> l.pending[i - 1] + 10_000 <= l.pending[i]
  {
    RunKeepsInv(start, earliest, events);
  }

  /**
   * What a turn of maintenance does to the queue and the counters: a keepalive that goes out is
   * queued and counted, a reconnect writes off all that is pending, and nothing else touches them.
   */
  lemma MaintainAccounts(l: Loop, now: int, outcome: Outcome, finished: int)
    ensures var m, action := OnMaintain(l, now, outcome, finished), ActionAt(l.live, now);
            && (action == Keepalive && outcome == Success ==>
                  && m.pending == l.pending + [now] && m.metrics == l.metrics.(sent := l.metrics.sent + 1)
                  && m.live.heartbeat == now && m.live.peerActivity == l.live.peerActivity)
            && (action == Reconnect ==>
                  m.pending == [] && m.metrics == l.metrics.(timeouts := l.metrics.timeouts + |l.pending|))
            && (action == Reconnect && outcome == Success ==>
                  m.live.peerActivity == m.live.heartbeat == m.now == finished && m.live.retry.None? && m.live.backoff == 1000)
            && (action == Reconnect && outcome != Success ==>
                  && m.live.retry == Some(now) && m.live.peerActivity == l.live.peerActivity
                  && m.live.backoff == if outcome == NoRoute then 1000 else Min(2 * l.live.backoff, 16_000))
            && (action == Nothing || (action == Keepalive && outcome != Success) ==> m.pending == l.pending && m.metrics == l.metrics)
            && (action == Nothing || (action == Keepalive && outcome != Success && outcome != Unreachable) ==> m.live == l.live)
            && (action == Keepalive && outcome == Unreachable ==> m.live == ConnectionLost(l.live, now))
  {
  }

  /** Any packet from the server counts as hearing it; only a keepalive also settles a probe. */
  lemma HearingIsNoted(l: Loop, now: int)
    requires now >= l.now
    ensures var packet, reply := Advance(l, Event(now, IpPacket)), Advance(l, Event(now, KeepaliveReply));
            && packet.live == reply.live && packet.live.peerActivity == now && packet.live.retry.None? && !packet.live.lost
            && packet.pending == l.pending && packet.metrics == l.metrics
            && (l.pending == [] ==> reply.metrics == l.metrics && reply.pending == [])
  {
  }

  lemma {:induction false} LatestIsLast(pending: seq<int>, k: int)
    requires Spread(pending) && k < |pending|
    ensures forall i :: 0 <= i <= k ==> pending[i] <= pending[k]
    decreases if k < 0 then 0 else k
  {
    if k > 0 { LatestIsLast(pending, k - 1); }
  }

  /** A reply settles the newest probe; older ones stay pending until they time out. */
  lemma ReplySettlesTheNewest(start: int, earliest: int, events: seq<Event>, now: int)
    requires now >= Run(start, earliest, events).now && Run(start, earliest, events).pending != []
    ensures var l, m := Run(start, earliest, events), Advance(Run(start, earliest, events), Event(now, KeepaliveReply));
            && |m.pending| == |l.pending| - 1 && m.metrics.responses == l.metrics.responses + 1
            && exists newest :: l.pending == m.pending + [newest] && forall i :: 0 <= i < |m.pending| ==> m.pending[i] <= newest
  {
    RunKeepsInv(start, earliest, events);
    var l, m := Run(start, earliest, events), Advance(Run(start, earliest, events), Event(now, KeepaliveReply));
    LatestIsLast(l.pending, |l.pending| - 1);
    var newest := l.pending[|l.pending| - 1];
    assert l.pending == m.pending + [newest];
  }

  lemma TwoIntervals(pending: seq<int>, n: nat)
    requires Spread(pending) && n + 2 < |pending|
    ensures pending[n] + 2 * KEEPALIVE_INTERVAL <= pending[n + 2]
  {
    assert pending[n] + KEEPALIVE_INTERVAL <= pending[n + 1];
  }

  lemma FewAreYoung(pending: seq<int>, now: int)
    requires Spread(pending) && (pending != [] ==> pending[|pending| - 1] <= now)
    ensures var young := pending[Overdue(pending, now)..];
            |young| <= 2 && forall i :: 0 <= i < |young| ==> now < young[i] + KEEPALIVE_RESPONSE_TIMEOUT
  {
    var n := Overdue(pending, now);
    LatestIsLast(pending, |pending| - 1);
    if n + 2 < |pending| { TwoIntervals(pending, n); }
    if n + 1 < |pending| { assert pending[n] + KEEPALIVE_INTERVAL <= pending[n + 1]; }
  }

  /** Right after expiry at most two keepalives are pending, all younger than 20 s. */
  lemma ExpiryLeavesAtMostTwo(start: int, earliest: int, events: seq<Event>, now: int)
    requires now >= Run(start, earliest, events).now
    ensures var l := Advance(Run(start, earliest, events), Event(now, Expire));
            |l.pending| <= 2 && forall i :: 0 <= i < |l.pending| ==> now < l.pending[i] + 20_000
  {
    RunKeepsInv(start, earliest, events);
    FewAreYoung(Run(start, earliest, events).pending, now);
  }

  /** Whatever happened before, 20 s of silence and 16 s since the last attempt make a reconnect due. */
  lemma ReconnectBecomesDue(start: int, earliest: int, events: seq<Event>, now: int)
    requires var live := Run(start, earliest, events).live;
             && now >= live.peerActivity + 20_000
             && (live.retry.Some? ==> now >= live.retry.value + 16_000)
    ensures ActionAt(Run(start, earliest, events).live, now) == Reconnect
  {
    RunKeepsInv(start, earliest, events);
  }
}
