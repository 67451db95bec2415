/** When the client sends keepalives and when it reconnects. Times are milliseconds. */
module Liveness {
  import opened Bytes

  const KEEPALIVE_INTERVAL: nat := 10_000
  const SESSION_TIMEOUT: nat := 20_000
  const MIN_RECONNECT_BACKOFF: nat := 1_000
  const MAX_RECONNECT_BACKOFF: nat := 16_000

  datatype Action = Nothing | Keepalive | Reconnect

  /** `earliest` is the first instant the platform's clock can represent. */
  datatype State = State(peerActivity: int, heartbeat: int, retry: Option<int>, backoff: nat, lost: bool, earliest: int)

  function Since(now: int, earlier: int): nat {
    if now < earlier then 0 else now - earlier
  }

  function Min(a: nat, b: nat): nat { if a < b then a else b }

  // -------------------------------------------------------------- specification

  function Start(now: int, earliest: int): State { State(now, now, None, MIN_RECONNECT_BACKOFF, false, earliest) }

  /** A reconnect is due: long silence, and the backoff since the last attempt has passed. */
  predicate Due(s: State, now: int) {
    && Since(now, s.peerActivity) >= SESSION_TIMEOUT
    && (s.retry.Some? ==> Since(now, s.retry.value) >= s.backoff)
  }

  function ActionAt(s: State, now: int): Action {
    if Due(s, now) then Reconnect
    else if Since(now, s.heartbeat) >= KEEPALIVE_INTERVAL then Keepalive
    else Nothing
  }

  function KeepaliveSent(s: State, now: int): State { s.(heartbeat := now) }

  function PacketReceived(s: State, now: int): State {
    s.(peerActivity := now, retry := None, backoff := MIN_RECONNECT_BACKOFF, lost := false)
  }

  function ReconnectAttempted(s: State, now: int): State {
    s.(retry := Some(now), backoff := Min(s.backoff * 2, MAX_RECONNECT_BACKOFF))
  }

  function NetworkUnavailable(s: State, now: int): State {
    s.(retry := Some(now), backoff := MIN_RECONNECT_BACKOFF)
  }

  /** Only the first report since the peer was last heard counts. */
  function ConnectionLost(s: State, now: int): State {
    if s.lost then s
    else s.(peerActivity := if now - SESSION_TIMEOUT >= s.earliest then now - SESSION_TIMEOUT else now, retry := None, lost := true)
  }

  function Reconnected(s: State, now: int): State { Start(now, s.earliest) }

  /** When the client acts: a reconnect after 20 s of silence and the backoff, else a keepalive every 10 s. */
  lemma ActionExactly(s: State, now: int)
    ensures var due := now - s.peerActivity >= 20_000 && (s.retry.Some? && s.backoff > 0 ==> now - s.retry.value >= s.backoff);
            && (ActionAt(s, now) == Reconnect <==> due)
            && (ActionAt(s, now) == Keepalive <==> !due && now - s.heartbeat >= 10_000)
  {
  }

  /** One keepalive puts the next off for 10 s, and changes nothing about reconnects. */
  lemma KeepaliveWaits(s: State, at: int, now: int)
    ensures ActionAt(KeepaliveSent(s, at), now) == Reconnect <==> ActionAt(s, now) == Reconnect
    ensures ActionAt(KeepaliveSent(s, at), now) == Keepalive <==> ActionAt(s, now) != Reconnect && now >= at + 10_000
  {
  }

  class Monitor {
    const earliest: int
    var peerActivity: int
    var heartbeat: int
    var retry: Option<int>
    var backoff: nat
    var lost: bool

    ghost function Contents(): State
      reads this
    {
      State(peerActivity, heartbeat, retry, backoff, lost, earliest)
    }

    constructor (now: int, earliest: int)
      ensures Contents() == Start(now, earliest)
    {
      this.earliest := earliest;
      peerActivity, heartbeat, retry, backoff, lost := now, now, None, MIN_RECONNECT_BACKOFF, false;
    }

    method NextAction(now: int) returns (a: Action)
      ensures a == ActionAt(Contents(), now)
    {
      if Since(now, peerActivity) >= SESSION_TIMEOUT && (retry.None? || Since(now, retry.value) >= backoff) {
        return Reconnect;
      } else if Since(now, heartbeat) >= KEEPALIVE_INTERVAL {
        return Keepalive;
      }
      a := Nothing;
    }

    method OnKeepaliveSent(now: int)
      modifies this
      ensures Contents() == KeepaliveSent(old(Contents()), now)
    {
      heartbeat := now;
    }

    method OnPacketReceived(now: int)
      modifies this
      ensures Contents() == PacketReceived(old(Contents()), now)
    {
      peerActivity, retry, backoff, lost := now, None, MIN_RECONNECT_BACKOFF, false;
    }

    method OnReconnectAttempted(now: int)
      modifies this
      ensures Contents() == ReconnectAttempted(old(Contents()), now)
    {
      retry := Some(now);
      backoff := Min(backoff * 2, MAX_RECONNECT_BACKOFF);
    }

    method OnNetworkUnavailable(now: int)
      modifies this
      ensures Contents() == NetworkUnavailable(old(Contents()), now)
    {
      retry, backoff := Some(now), MIN_RECONNECT_BACKOFF;
    }

    method OnConnectionLost(now: int) returns (first: bool)
      modifies this
      ensures Contents() == ConnectionLost(old(Contents()), now) && first == !old(lost)
    {
      if lost {
        return false;
      }
      peerActivity := if now - SESSION_TIMEOUT >= earliest then now - SESSION_TIMEOUT else now;
      retry := None;
      lost := true;
      first := true;
    }

    method OnReconnected(now: int)
      modifies this
      ensures Contents() == Reconnected(old(Contents()), now)
    {
      peerActivity, heartbeat, retry, backoff, lost := now, now, None, MIN_RECONNECT_BACKOFF, false;
    }
  }

  // --------------------------------------------------------------- silent runs

  /** What can happen while the peer stays silent and no reconnect succeeds. */
  datatype Event =
    | SentKeepalive(now: int)
    | Loss(now: int)
    | Attempt(now: int, routed: bool)

  /** An attempt made, with the backoff then in force; `prompted` if no earlier one held it back. */
  datatype Made = Made(now: int, backoff: nat, prompted: bool, routed: bool)

  /** The loop attempts a reconnect only when it is due. */
  function Step(s: State, e: Event): State {
    match e
    case SentKeepalive(now) => KeepaliveSent(s, now)
    case Loss(now) => ConnectionLost(s, now)
    case Attempt(now, routed) =>
      if !Due(s, now) then s
      else if routed then ReconnectAttempted(s, now)
      else NetworkUnavailable(s, now)
  }

  function After(s: State, events: seq<Event>): State {
    if events == [] then s else Step(After(s, events[..|events| - 1]), events[|events| - 1])
  }

  /** The attempts of a run, in order. */
  function Attempts(s: State, events: seq<Event>): seq<Made> {
    if events == [] then []
    else
      var before, e := After(s, events[..|events| - 1]), events[|events| - 1];
      Attempts(s, events[..|events| - 1]) +
      if e.Attempt? && Due(before, e.now) then [Made(e.now, before.backoff, before.retry.None?, e.routed)] else []
  }

  /** Prompted attempts after the first attempt of the run. */
  function Prompted(made: seq<Made>): nat {
    if |made| <= 1 then 0 else Prompted(made[..|made| - 1]) + if made[|made| - 1].prompted then 1 else 0
  }

  ghost predicate Spaced(made: seq<Made>) {
    forall i :: 0 < i < |made| ==> made[i].prompted || made[i].now >= made[i - 1].now + made[i].backoff
  }

  lemma PromptedNext(made: seq<Made>, m: Made)
    ensures Prompted(made + [m]) == Prompted(made) + if made != [] && m.prompted then 1 else 0
  {
    assert (made + [m])[..|made|] == made;
  }

  /** What holds of a silent run that has made these attempts and reached state `t`. */
  ghost predicate Paced(t: State, made: seq<Made>) {
    && Spaced(made) && MIN_RECONNECT_BACKOFF <= t.backoff <= MAX_RECONNECT_BACKOFF
    && (made != [] ==> if t.retry.Some? then made[|made| - 1].now == t.retry.value else t.lost && Prompted(made) == 0)
    && Prompted(made) <= 1 && (Prompted(made) == 1 ==> t.lost)
  }

  lemma AttemptKeepsPace(t: State, made: seq<Made>, now: int, routed: bool)
    requires Paced(t, made) && Due(t, now)
    ensures Paced(Step(t, Attempt(now, routed)), made + [Made(now, t.backoff, t.retry.None?, routed)])
  {
    var m := Made(now, t.backoff, t.retry.None?, routed);
    var more := made + [m];
    PromptedNext(made, m);
    forall i | 0 < i < |more| ensures more[i].prompted || more[i].now >= more[i - 1].now + more[i].backoff {
      if i < |made| { assert more[i] == made[i] && more[i - 1] == made[i - 1]; }
    }
  }

  lemma OtherKeepsPace(t: State, made: seq<Made>, e: Event)
    requires Paced(t, made) && !(e.Attempt? && Due(t, e.now))
    ensures Paced(Step(t, e), made)
  {
  }

  /**
   * In a silent run every attempt waits out the backoff since the one before it, except for
   * at most one that the first loss report prompts; the backoff stays between 1 and 16 s.
   */
  lemma {:induction false} AttemptsAreSpaced(s: State, events: seq<Event>)
    requires MIN_RECONNECT_BACKOFF <= s.backoff <= MAX_RECONNECT_BACKOFF
    ensures Spaced(Attempts(s, events)) && Prompted(Attempts(s, events)) <= 1
    ensures Paced(After(s, events), Attempts(s, events))
  {
    if events != [] {
      var before, e := events[..|events| - 1], events[|events| - 1];
      AttemptsAreSpaced(s, before);
      var t, made := After(s, before), Attempts(s, before);
      if e.Attempt? && Due(t, e.now) {
        AttemptKeepsPace(t, made, e.now, e.routed);
      } else {
        OtherKeepsPace(t, made, e);
        assert made + [] == made;
      }
    }
  }

  /** Attempts that found a route since the last one that did not. */
  function Streak(made: seq<Made>): nat {
    if made == [] || !made[|made| - 1].routed then 0 else 1 + Streak(made[..|made| - 1])
  }

  /** After `k` attempts since a route was last missing, the backoff is `min(2^k, 16)` seconds. */
  lemma {:induction false} BackoffDoubles(s: State, events: seq<Event>)
    requires s.backoff == MIN_RECONNECT_BACKOFF
    ensures After(s, events).backoff == 1000 * Min(Pow2(Streak(Attempts(s, events))), 16)
  {
    if events != [] {
      var before, e := events[..|events| - 1], events[|events| - 1];
      BackoffDoubles(s, before);
      var t, made := After(s, before), Attempts(s, before);
      if e.Attempt? && Due(t, e.now) {
        assert (made + [Made(e.now, t.backoff, t.retry.None?, e.routed)])[..|made|] == made;
      } else {
        assert made + [] == made;
      }
    }
  }

  /** The peer was last heard at `at`, and nothing held back or spurred a reconnect since. */
  predicate Heard(s: State, at: int) {
    s.peerActivity == at && s.retry.None?
  }

  lemma {:induction false} HeardWaits(s: State, at: int, events: seq<Event>, now: int)
    requires Heard(s, at) && forall i :: 0 <= i < |events| ==> !events[i].Loss?
    ensures Attempts(s, events) == [] ==>
              Heard(After(s, events), at) && (Due(After(s, events), now) <==> now >= at + SESSION_TIMEOUT)
    ensures Attempts(s, events) != [] ==> Attempts(s, events)[0].now >= at + SESSION_TIMEOUT
  {
    if events != [] {
      var before, e := events[..|events| - 1], events[|events| - 1];
      HeardWaits(s, at, before, e.now);
      assert Attempts(s, before) + [] == Attempts(s, before);
    }
  }

  /**
   * Once a packet is received or a session established at `at`, in every run without a loss
   * report: until an attempt is made, one is due exactly from the session timeout on, and the
   * first one made is no earlier.
   */
  lemma FirstAttemptWaitsForTheTimeout(s: State, at: int, established: bool, events: seq<Event>, now: int)
    requires forall i :: 0 <= i < |events| ==> !events[i].Loss?
    ensures var start := if established then Reconnected(s, at) else PacketReceived(s, at);
            && (Attempts(start, events) == [] ==> (Due(After(start, events), now) <==> now >= at + SESSION_TIMEOUT))
            && (Attempts(start, events) != [] ==> Attempts(start, events)[0].now >= at + SESSION_TIMEOUT)
  {
    HeardWaits(if established then Reconnected(s, at) else PacketReceived(s, at), at, events, now);
  }

  /**
   * A first loss report makes a reconnect due at once, if and only if the clock can represent
   * an instant that lies the session timeout back.
   */
  lemma LossIsDueAtOnce(s: State, now: int)
    requires !s.lost
    ensures ActionAt(ConnectionLost(s, now), now) == Reconnect <==> now - SESSION_TIMEOUT >= s.earliest
  {
  }

  /**
   * A received packet or a new session starts afresh: the backoff doubles from one second again,
   * and the next loss report counts as a first one. Only a new session puts the keepalive off.
   */
  lemma HearingRestarts(s: State, at: int, established: bool, events: seq<Event>, now: int)
    ensures var start := if established then Reconnected(s, at) else PacketReceived(s, at);
            && After(start, events).backoff == 1000 * Min(Pow2(Streak(Attempts(start, events))), 16)
            && (ActionAt(ConnectionLost(start, now), now) == Reconnect <==> now - 20_000 >= s.earliest)
            && (now < at + 20_000 ==>
                  (ActionAt(start, now) == Keepalive <==> now >= (if established then at else s.heartbeat) + 10_000))
  {
    var start := if established then Reconnected(s, at) else PacketReceived(s, at);
    BackoffDoubles(start, events);
    LossIsDueAtOnce(start, now);
  }

  /** Repeated loss reports are ignored until the peer is heard. */
  lemma LossCountsOnce(s: State, first: int, again: int)
    ensures ConnectionLost(ConnectionLost(s, first), again) == ConnectionLost(s, first)
  {
  }
}
