/** The per-address handshake limiter. */
module RateLimit {
  import opened Bytes

  type Ip = nat

  const CLEANUP_INTERVAL: nat := 4096

  datatype Limits = Limits(maximumAttempts: nat, window: nat, maximumClients: nat)
  datatype Counter = Counter(started: nat, attempts: nat)
  datatype State = State(clients: map<Ip, Counter>, operations: u64, lastCleanup: Option<nat>)
  datatype Call = Call(address: Ip, now: nat)

  /** `now.saturating_duration_since(earlier)` */
  function Since(now: nat, earlier: nat): nat {
    if now < earlier then 0 else now - earlier
  }

  const INITIAL: State := State(map[], 0, None)

  // -------------------------------------------------------------- specification

  /** The counters that have not expired. */
  function Unexpired(c: Limits, clients: map<Ip, Counter>, now: nat): (kept: map<Ip, Counter>)
    ensures forall a :: a in kept <==> a in clients && Since(now, clients[a].started) < c.window
    ensures forall a :: a in kept ==> kept[a] == clients[a]
  {
    map a | a in clients && Since(now, clients[a].started) < c.window :: clients[a]
  }

  function Cleaned(c: Limits, s: State, now: nat): State {
    var operations := (s.operations + 1) % U64_LIMIT;
    if s.lastCleanup.None? || Since(now, s.lastCleanup.value) >= c.window || operations % CLEANUP_INTERVAL == 0
    then State(Unexpired(c, s.clients, now), operations, Some(now))
    else s.(operations := operations)
  }

  /** The counter a call is charged to, before the charge. */
  function Current(c: Limits, clients: map<Ip, Counter>, call: Call): Counter {
    if call.address !in clients || Since(call.now, clients[call.address].started) >= c.window
    then Counter(call.now, 0)
    else clients[call.address]
  }

  function Charge(c: Limits, clients: map<Ip, Counter>, call: Call): (map<Ip, Counter>, bool) {
    var counter := Current(c, clients, call);
    if counter.attempts >= c.maximumAttempts then (clients[call.address := counter], false)
    else (clients[call.address := Counter(counter.started, counter.attempts + 1)], true)
  }

  /** There is no room for a new address. */
  predicate Full(c: Limits, clients: map<Ip, Counter>, address: Ip) {
    address !in clients && |clients| >= c.maximumClients
  }

  function Allow(c: Limits, s: State, call: Call): (State, bool) {
    var t := Cleaned(c, s, call.now);
    if Full(c, t.clients, call.address) then (t, false)
    else
      var (clients, ok) := Charge(c, t.clients, call);
      (t.(clients := clients), ok)
  }

  function After(c: Limits, calls: seq<Call>): State {
    if calls == [] then INITIAL
    else Allow(c, After(c, calls[..|calls| - 1]), calls[|calls| - 1]).0
  }

  /** The decision on the last of some calls. */
  predicate Allowed(c: Limits, calls: seq<Call>)
    requires calls != []
  {
    Allow(c, After(c, calls[..|calls| - 1]), calls[|calls| - 1]).1
  }

  ghost predicate Monotone(calls: seq<Call>) {
    forall i, j :: 0 <= i <= j < |calls| ==> calls[i].now <= calls[j].now
  }

  class HandshakeLimiter {
    const limits: Limits
    var clients: map<Ip, Counter>
    var operations: u64
    var lastCleanup: Option<nat>

    ghost function Contents(): State
      reads this
    {
      State(clients, operations, lastCleanup)
    }

    constructor (limits: Limits)
      ensures Contents() == INITIAL && this.limits == limits
    {
      this.limits := limits;
      clients, operations, lastCleanup := map[], 0, None;
    }

    method AllowAt(address: Ip, now: nat) returns (ok: bool)
      modifies this
      ensures (Contents(), ok) == Allow(limits, old(Contents()), Call(address, now))
    {
      CleanUp(now);
      if address !in clients && |clients| >= limits.maximumClients {
        return false;
      }
      var counter := if address in clients then clients[address] else Counter(now, 0);
      if Since(now, counter.started) >= limits.window {
        counter := Counter(now, 0);
      }
      assert counter == Current(limits, clients, Call(address, now));
      if counter.attempts >= limits.maximumAttempts {
        clients := clients[address := counter];
        return false;
      }
      clients := clients[address := Counter(counter.started, counter.attempts + 1)];
      ok := true;
    }

    /** Expired counters go once a window and every 4096 calls. */
    method CleanUp(now: nat)
      modifies this
      ensures Contents() == Cleaned(limits, old(Contents()), now)
    {
      operations := (operations + 1) % U64_LIMIT;
      var cleanupDue :=
        lastCleanup.None? || Since(now, lastCleanup.value) >= limits.window || operations % CLEANUP_INTERVAL == 0;
      if cleanupDue {
        clients := Unexpired(limits, clients, now);
        lastCleanup := Some(now);
      }
    }
  }

  // ------------------------------------------------------------------- capacity

  lemma SubsetIsSmaller(small: set<Ip>, large: set<Ip>)
    requires small <= large
    ensures |small| <= |large|
  {
    assert large == small + (large - small);
  }

  lemma SubmapIsSmaller(small: map<Ip, Counter>, large: map<Ip, Counter>)
    requires small.Keys <= large.Keys
    ensures |small| <= |large|
  {
    SubsetIsSmaller(small.Keys, large.Keys);
  }

  lemma {:induction false} TableIsBounded(c: Limits, calls: seq<Call>)
    ensures |After(c, calls).clients| <= c.maximumClients
  {
    if calls != [] {
      var s, call := After(c, calls[..|calls| - 1]), calls[|calls| - 1];
      TableIsBounded(c, calls[..|calls| - 1]);
      var t := Cleaned(c, s, call.now);
      SubmapIsSmaller(t.clients, s.clients);
      if !Full(c, t.clients, call.address) {
        var grown := Allow(c, s, call).0.clients;
        assert grown.Keys == t.clients.Keys + {call.address};
      }
    }
  }

  // --------------------------------------------------------------------- window

  /** Accepted calls of `a` at times in `[lo, hi)`. */
  ghost function Accepted(c: Limits, calls: seq<Call>, a: Ip, lo: int, hi: int): nat {
    if calls == [] then 0
    else
      var call := calls[|calls| - 1];
      Accepted(c, calls[..|calls| - 1], a, lo, hi) +
      if call.address == a && lo <= call.now < hi && Allowed(c, calls) then 1 else 0
  }

  /** Accepted calls of `a` from time `lo` on. */
  ghost function From(c: Limits, calls: seq<Call>, a: Ip, lo: int): nat {
    if calls == [] then 0
    else
      var call := calls[|calls| - 1];
      From(c, calls[..|calls| - 1], a, lo) + if call.address == a && lo <= call.now && Allowed(c, calls) then 1 else 0
  }

  lemma {:induction false} AcceptedBetween(c: Limits, calls: seq<Call>, a: Ip, lo: int, hi: int)
    requires lo <= hi
    ensures Accepted(c, calls, a, lo, hi) == From(c, calls, a, lo) - From(c, calls, a, hi)
  {
    if calls != [] { AcceptedBetween(c, calls[..|calls| - 1], a, lo, hi); }
  }

  /** Nothing was accepted at `time` or later, and little in the window before it. */
  ghost predicate Rested(c: Limits, calls: seq<Call>, a: Ip, time: nat) {
    && From(c, calls, a, time) == 0
    && forall lo: int :: lo > time - c.window ==> From(c, calls, a, lo) <= c.maximumAttempts
  }

  /** The counter covers everything accepted in its window, and the window before held little. */
  ghost predicate Counting(c: Limits, calls: seq<Call>, a: Ip, k: Counter) {
    && From(c, calls, a, k.started) == k.attempts <= c.maximumAttempts
    && From(c, calls, a, k.started + c.window) == 0
    && forall lo: int :: k.started - c.window < lo <= k.started ==>
         From(c, calls, a, lo) - From(c, calls, a, k.started) <= c.maximumAttempts
  }

  ghost predicate Tracked(c: Limits, calls: seq<Call>, clients: map<Ip, Counter>, a: Ip, time: nat) {
    if a in clients then clients[a].started <= time && Counting(c, calls, a, clients[a]) else Rested(c, calls, a, time)
  }

  ghost predicate Limited(c: Limits, calls: seq<Call>, a: Ip) {
    forall lo: int :: From(c, calls, a, lo) - From(c, calls, a, lo + c.window) <= 2 * c.maximumAttempts
  }

  lemma {:induction false} FromFalls(c: Limits, calls: seq<Call>, a: Ip, lo: int, hi: int)
    requires lo <= hi
    ensures From(c, calls, a, hi) <= From(c, calls, a, lo)
  {
    if calls != [] { FromFalls(c, calls[..|calls| - 1], a, lo, hi); }
  }

  /** An expired counter says no more than no counter. */
  lemma ExpiredIsRested(c: Limits, calls: seq<Call>, a: Ip, k: Counter, now: nat)
    requires Counting(c, calls, a, k) && k.started + c.window <= now
    ensures Rested(c, calls, a, now)
  {
    FromFalls(c, calls, a, k.started + c.window, now);
    forall lo: int | lo > now - c.window ensures From(c, calls, a, lo) <= c.maximumAttempts {
      FromFalls(c, calls, a, k.started, lo);
    }
  }

  lemma RestedLater(c: Limits, calls: seq<Call>, a: Ip, time: nat, now: nat)
    requires Rested(c, calls, a, time) && time <= now
    ensures Rested(c, calls, a, now)
  {
    FromFalls(c, calls, a, time, now);
  }

  /** A counter opened on a rested address. */
  lemma RestedOpens(c: Limits, calls: seq<Call>, a: Ip, now: nat)
    requires Rested(c, calls, a, now)
    ensures Counting(c, calls, a, Counter(now, 0))
  {
    FromFalls(c, calls, a, now, now + c.window);
  }

  lemma CleanedTracks(c: Limits, calls: seq<Call>, s: State, a: Ip, time: nat, now: nat)
    requires Tracked(c, calls, s.clients, a, time) && time <= now
    ensures Tracked(c, calls, Cleaned(c, s, now).clients, a, now)
  {
    if a !in s.clients {
      RestedLater(c, calls, a, time, now);
    } else if a !in Cleaned(c, s, now).clients {
      ExpiredIsRested(c, calls, a, s.clients[a], now);
    }
  }

  lemma CurrentCounts(c: Limits, calls: seq<Call>, clients: map<Ip, Counter>, call: Call)
    requires Tracked(c, calls, clients, call.address, call.now)
    ensures Counting(c, calls, call.address, Current(c, clients, call))
    ensures Current(c, clients, call).started <= call.now
    ensures c.window > 0 ==> call.now < Current(c, clients, call).started + c.window
  {
    var a := call.address;
    if a in clients && Since(call.now, clients[a].started) >= c.window {
      ExpiredIsRested(c, calls, a, clients[a], call.now);
    }
    if Current(c, clients, call) == Counter(call.now, 0) && !(a in clients && clients[a] == Counter(call.now, 0)) {
      RestedOpens(c, calls, a, call.now);
    }
  }

  /** Charging one more accepted call keeps the counter honest and the window within bounds. */
  lemma ChargeTracks(c: Limits, calls: seq<Call>, k: Counter)
    requires calls != [] && Allowed(c, calls)
    requires var before, call := calls[..|calls| - 1], calls[|calls| - 1];
             && Counting(c, before, call.address, k) && Limited(c, before, call.address)
             && k.started <= call.now < k.started + c.window && k.attempts < c.maximumAttempts
    ensures Counting(c, calls, calls[|calls| - 1].address, Counter(k.started, k.attempts + 1))
    ensures Limited(c, calls, calls[|calls| - 1].address)
  {
    var before, call := calls[..|calls| - 1], calls[|calls| - 1];
    var a := call.address;
    forall lo: int | lo <= k.started ensures From(c, calls, a, lo) == From(c, before, a, lo) + 1 {}
    assert From(c, calls, a, k.started + c.window) == From(c, before, a, k.started + c.window);
    forall lo: int ensures From(c, calls, a, lo) - From(c, calls, a, lo + c.window) <= 2 * c.maximumAttempts {
      if lo <= call.now < lo + c.window {
        if lo <= k.started {
          assert From(c, calls, a, lo) == From(c, before, a, lo) + 1;
        } else {
          FromFalls(c, calls, a, k.started, lo);
        }
      }
    }
  }

  lemma SameFrom(c: Limits, calls: seq<Call>, a: Ip)
    requires calls != [] && (calls[|calls| - 1].address == a ==> !Allowed(c, calls))
    ensures forall lo: int :: From(c, calls, a, lo) == From(c, calls[..|calls| - 1], a, lo)
  {
  }

  /** A call that finds room is charged to its own counter. */
  lemma OwnCallTracks(c: Limits, calls: seq<Call>, clients: map<Ip, Counter>)
    requires c.window > 0 && calls != []
    requires var before, call := calls[..|calls| - 1], calls[|calls| - 1];
             && Tracked(c, before, clients, call.address, call.now) && Limited(c, before, call.address)
             && Allowed(c, calls) == Charge(c, clients, call).1
    ensures var call := calls[|calls| - 1];
            Tracked(c, calls, Charge(c, clients, call).0, call.address, call.now) && Limited(c, calls, call.address)
  {
    var before, call := calls[..|calls| - 1], calls[|calls| - 1];
    CurrentCounts(c, before, clients, call);
    var k := Current(c, clients, call);
    if k.attempts < c.maximumAttempts {
      ChargeTracks(c, calls, k);
    } else {
      SameFrom(c, calls, call.address);
    }
  }

  /** A call of another address, or one that finds no room, changes nothing for `a`. */
  lemma OtherCallTracks(c: Limits, calls: seq<Call>, clients: map<Ip, Counter>, after: map<Ip, Counter>, a: Ip, now: nat)
    requires calls != [] && (calls[|calls| - 1].address == a ==> !Allowed(c, calls))
    requires Tracked(c, calls[..|calls| - 1], clients, a, now) && Limited(c, calls[..|calls| - 1], a)
    requires (a in clients <==> a in after) && (a in clients ==> after[a] == clients[a])
    ensures Tracked(c, calls, after, a, now) && Limited(c, calls, a)
  {
    SameFrom(c, calls, a);
  }

  lemma TrackedLater(c: Limits, calls: seq<Call>, clients: map<Ip, Counter>, a: Ip, time: nat, now: nat)
    requires Tracked(c, calls, clients, a, time) && time <= now
    ensures Tracked(c, calls, clients, a, now)
  {
    if a !in clients { RestedLater(c, calls, a, time, now); }
  }

  lemma {:induction false} RunIsTracked(c: Limits, calls: seq<Call>, a: Ip, time: nat)
    requires c.window > 0 && Monotone(calls) && forall i :: 0 <= i < |calls| ==> calls[i].now <= time
    ensures Tracked(c, calls, After(c, calls).clients, a, time) && Limited(c, calls, a)
  {
    if calls != [] {
      var before, call := calls[..|calls| - 1], calls[|calls| - 1];
      RunIsTracked(c, before, a, call.now);
      var t := Cleaned(c, After(c, before), call.now);
      CleanedTracks(c, before, After(c, before), a, call.now, call.now);
      if call.address == a && !Full(c, t.clients, a) {
        OwnCallTracks(c, calls, t.clients);
      } else {
        OtherCallTracks(c, calls, t.clients, After(c, calls).clients, a, call.now);
      }
      TrackedLater(c, calls, After(c, calls).clients, a, call.now, time);
    }
  }

  /** Any half-open interval of one window length holds at most twice the allowance. */
  lemma WindowsAreLimited(c: Limits, calls: seq<Call>, a: Ip, lo: int)
    requires Monotone(calls)
    ensures Accepted(c, calls, a, lo, lo + c.window) <= 2 * c.maximumAttempts
  {
    AcceptedBetween(c, calls, a, lo, lo + c.window);
    if c.window > 0 {
      var time := if calls == [] then 0 else calls[|calls| - 1].now;
      RunIsTracked(c, calls, a, time);
    }
  }

  lemma {:induction false} NothingLater(c: Limits, calls: seq<Call>, a: Ip, time: int)
    requires forall i :: 0 <= i < |calls| ==> calls[i].now < time
    ensures From(c, calls, a, time) == 0
  {
    if calls != [] { NothingLater(c, calls[..|calls| - 1], a, time); }
  }

  /** A counter that is used up stands for a full allowance within one window. */
  lemma SpentCounter(c: Limits, calls: seq<Call>, a: Ip, started: nat, now: nat)
    requires From(c, calls, a, started) >= c.maximumAttempts && started <= now < started + c.window
    requires forall i :: 0 <= i < |calls| ==> calls[i].now <= now
    ensures Accepted(c, calls, a, now - c.window + 1, now + 1) >= c.maximumAttempts
  {
    AcceptedBetween(c, calls, a, now - c.window + 1, now + 1);
    FromFalls(c, calls, a, now - c.window + 1, started);
    NothingLater(c, calls, a, now + 1);
  }

  /** What the counter of a call says, over a run, before the charge. */
  lemma CurrentIsHonest(c: Limits, calls: seq<Call>, clients: map<Ip, Counter>, call: Call)
    requires c.window > 0 && Monotone(calls) && forall i :: 0 <= i < |calls| ==> calls[i].now <= call.now
    requires clients == Cleaned(c, After(c, calls), call.now).clients
    ensures var k := Current(c, clients, call);
            From(c, calls, call.address, k.started) == k.attempts && k.started <= call.now < k.started + c.window
  {
    RunIsTracked(c, calls, call.address, call.now);
    CleanedTracks(c, calls, After(c, calls), call.address, call.now, call.now);
    CurrentCounts(c, calls, clients, call);
  }

  lemma SpentClient(c: Limits, calls: seq<Call>, clients: map<Ip, Counter>, call: Call)
    requires c.window > 0 && Monotone(calls) && forall i :: 0 <= i < |calls| ==> calls[i].now <= call.now
    requires clients == Cleaned(c, After(c, calls), call.now).clients && !Charge(c, clients, call).1
    ensures Accepted(c, calls, call.address, call.now - c.window + 1, call.now + 1) >= c.maximumAttempts
  {
    CurrentIsHonest(c, calls, clients, call);
    var k := Current(c, clients, call);
    assert k.attempts >= c.maximumAttempts;
    SpentCounter(c, calls, call.address, k.started, call.now);
  }

  ghost predicate CalledAt(calls: seq<Call>, a: Ip, time: nat) {
    exists i :: 0 <= i < |calls| && calls[i] == Call(a, time)
  }

  /**
   * What a table knows of its addresses: each counter started with a call of its address, less
   * than a window before the last clean-up or after it.
   */
  ghost predicate Recent(c: Limits, calls: seq<Call>, s: State, cleaned: nat) {
    forall a :: a in s.clients ==> CalledAt(calls, a, s.clients[a].started) && cleaned < s.clients[a].started + c.window
  }

  lemma StillCalled(before: seq<Call>, calls: seq<Call>, a: Ip, time: nat)
    requires before <= calls && CalledAt(before, a, time)
    ensures CalledAt(calls, a, time)
  {
    var i :| 0 <= i < |before| && before[i] == Call(a, time);
    assert calls[i] == Call(a, time);
  }

  lemma CleanedIsRecent(c: Limits, calls: seq<Call>, s: State, now: nat)
    requires s.lastCleanup.Some? ==> s.lastCleanup.value <= now && Recent(c, calls, s, s.lastCleanup.value)
    requires s.lastCleanup.None? ==> s.clients == map[]
    ensures var t := Cleaned(c, s, now);
            && t.lastCleanup.Some? && t.lastCleanup.value <= now && Recent(c, calls, t, t.lastCleanup.value)
            && (t.clients != map[] ==> now < t.lastCleanup.value + c.window)
  {
  }

  lemma ChargeIsRecent(c: Limits, calls: seq<Call>, s: State, cleaned: nat, call: Call)
    requires c.window > 0 && cleaned <= call.now && Recent(c, calls, s, cleaned)
    ensures Recent(c, calls + [call], s.(clients := Charge(c, s.clients, call).0), cleaned)
  {
    var after := Charge(c, s.clients, call).0;
    forall a | a in after ensures CalledAt(calls + [call], a, after[a].started) && cleaned < after[a].started + c.window {
      if a in s.clients && after[a].started == s.clients[a].started {
        StillCalled(calls, calls + [call], a, after[a].started);
      } else {
        assert (calls + [call])[|calls|] == Call(a, after[a].started);
      }
    }
  }

  lemma {:induction false} RunIsRecent(c: Limits, calls: seq<Call>)
    requires c.window > 0 && Monotone(calls)
    ensures var s := After(c, calls);
            && (calls == [] ==> s.lastCleanup.None? && s.clients == map[])
            && (calls != [] ==> s.lastCleanup.Some? && s.lastCleanup.value <= calls[|calls| - 1].now &&
                                Recent(c, calls, s, s.lastCleanup.value))
  {
    if calls != [] {
      var before, call := calls[..|calls| - 1], calls[|calls| - 1];
      RunIsRecent(c, before);
      var t := Cleaned(c, After(c, before), call.now);
      CleanedIsRecent(c, before, After(c, before), call.now);
      assert before + [call] == calls;
      if Full(c, t.clients, call.address) {
        forall a | a in t.clients ensures CalledAt(calls, a, t.clients[a].started) {
          StillCalled(before, calls, a, t.clients[a].started);
        }
      } else {
        ChargeIsRecent(c, before, t, t.lastCleanup.value, call);
      }
    }
  }

  /** So many other addresses called within two windows. */
  ghost predicate Crowded(c: Limits, calls: seq<Call>, call: Call, others: set<Ip>) {
    && |others| >= c.maximumClients && call.address !in others
    && forall a :: a in others ==> exists i :: 0 <= i < |calls| && calls[i].address == a && call.now < calls[i].now + 2 * c.window
  }

  lemma FullIsCrowded(c: Limits, calls: seq<Call>, call: Call)
    requires c.window > 0 && Monotone(calls) && forall i :: 0 <= i < |calls| ==> calls[i].now <= call.now
    requires Full(c, Cleaned(c, After(c, calls), call.now).clients, call.address)
    ensures Crowded(c, calls, call, Cleaned(c, After(c, calls), call.now).clients.Keys)
  {
    RunIsRecent(c, calls);
    CleanedIsRecent(c, calls, After(c, calls), call.now);
    var t := Cleaned(c, After(c, calls), call.now);
    forall a | a in t.clients
      ensures exists i :: 0 <= i < |calls| && calls[i].address == a && call.now < calls[i].now + 2 * c.window
    {
      var i :| 0 <= i < |calls| && calls[i] == Call(a, t.clients[a].started);
      assert t.clients != map[];
    }
  }

  lemma RejectedIsSpentOrCrowded(c: Limits, before: seq<Call>, call: Call, clients: map<Ip, Counter>)
    requires Monotone(before) && forall i :: 0 <= i < |before| ==> before[i].now <= call.now
    requires clients == Cleaned(c, After(c, before), call.now).clients && !Allow(c, After(c, before), call).1
    ensures || Accepted(c, before, call.address, call.now - c.window + 1, call.now + 1) >= c.maximumAttempts
            || Crowded(c, before, call, clients.Keys)
  {
    if c.window == 0 {
      assert clients == map[];
    } else if Full(c, clients, call.address) {
      FullIsCrowded(c, before, call);
    } else {
      SpentClient(c, before, clients, call);
    }
  }

  /**
   * A call is turned away only if its address had a full allowance accepted within one window,
   * or if as many other addresses as there is room for called within two.
   */
  lemma RejectionsAreEarned(c: Limits, calls: seq<Call>)
    requires calls != [] && Monotone(calls) && !Allowed(c, calls)
    ensures var before, call := calls[..|calls| - 1], calls[|calls| - 1];
            || Accepted(c, before, call.address, call.now - c.window + 1, call.now + 1) >= c.maximumAttempts
            || (exists others: set<Ip> ::
                  && |others| >= c.maximumClients && call.address !in others
                  && forall a :: a in others ==>
                       exists i :: 0 <= i < |before| && before[i].address == a && call.now < before[i].now + 2 * c.window)
  {
    var before, call := calls[..|calls| - 1], calls[|calls| - 1];
    var clients := Cleaned(c, After(c, before), call.now).clients;
    RejectedIsSpentOrCrowded(c, before, call, clients);
    if Crowded(c, before, call, clients.Keys) {
      var others := clients.Keys;
      assert |others| >= c.maximumClients && call.address !in others;
    }
  }

  // ------------------------------------------------------------------- clean-up

  lemma CountsOn(n: nat)
    ensures (n % U64_LIMIT + 1) % U64_LIMIT == (n + 1) % U64_LIMIT
  {
  }

  lemma AllowCounts(c: Limits, s: State, call: Call)
    ensures Allow(c, s, call).0.operations == (s.operations + 1) % U64_LIMIT
  {
  }

  lemma {:induction false} OperationsAreCounted(c: Limits, calls: seq<Call>)
    ensures After(c, calls).operations == |calls| % U64_LIMIT
  {
    if calls != [] {
      var before := calls[..|calls| - 1];
      OperationsAreCounted(c, before);
      AllowCounts(c, After(c, before), calls[|calls| - 1]);
      CountsOn(|before|);
    }
  }

  /** Every 4096th call, and every call a window after the last clean-up, leaves no expired counter but its own. */
  lemma SweepsExpired(c: Limits, calls: seq<Call>, a: Ip)
    requires calls != [] && a in After(c, calls).clients && a != calls[|calls| - 1].address
    requires var s, now := After(c, calls[..|calls| - 1]), calls[|calls| - 1].now;
             || |calls| % U64_LIMIT % 4096 == 0
             || (s.lastCleanup.Some? && now >= s.lastCleanup.value + c.window)
    ensures Since(calls[|calls| - 1].now, After(c, calls).clients[a].started) < c.window
  {
    OperationsAreCounted(c, calls);
    OperationsAreCounted(c, calls[..|calls| - 1]);
  }

  /** A limiter that never forgets a counter and has room for everyone. */
  function Plain(c: Limits, calls: seq<Call>): map<Ip, Counter> {
    if calls == [] then map[]
    else Charge(c, Plain(c, calls[..|calls| - 1]), calls[|calls| - 1]).0
  }

  /** Capacity did not decide any of the calls. */
  ghost predicate NeverFull(c: Limits, calls: seq<Call>) {
    forall n :: 0 <= n < |calls| ==>
      var clients := Cleaned(c, After(c, calls[..n]), calls[n].now).clients;
      calls[n].address in clients || |clients| < c.maximumClients
  }

  /** Both limiters agree on live counters; the plain one may also keep expired ones. */
  ghost predicate Similar(c: Limits, clients: map<Ip, Counter>, plain: map<Ip, Counter>, time: nat) {
    && (forall a :: a in clients ==> a in plain && plain[a] == clients[a])
    && (forall a :: a in plain ==> plain[a].started <= time)
    && (forall a :: a in plain && a !in clients ==> plain[a].started + c.window <= time)
  }

  lemma CleanedIsSimilar(c: Limits, s: State, plain: map<Ip, Counter>, time: nat, now: nat)
    requires Similar(c, s.clients, plain, time) && time <= now
    ensures Similar(c, Cleaned(c, s, now).clients, plain, now)
  {
  }

  lemma ChargeIsSimilar(c: Limits, clients: map<Ip, Counter>, plain: map<Ip, Counter>, call: Call)
    requires Similar(c, clients, plain, call.now)
    ensures Similar(c, Charge(c, clients, call).0, Charge(c, plain, call).0, call.now)
    ensures Charge(c, clients, call).1 == Charge(c, plain, call).1
  {
  }

  /** While capacity does not bind, every decision is the plain limiter's. */
  lemma {:induction false} CleanupIsInvisible(c: Limits, calls: seq<Call>)
    requires calls != [] && Monotone(calls) && NeverFull(c, calls)
    ensures Allowed(c, calls) <==> Charge(c, Plain(c, calls[..|calls| - 1]), calls[|calls| - 1]).1
    ensures Similar(c, After(c, calls).clients, Plain(c, calls), calls[|calls| - 1].now)
  {
    var before, call := calls[..|calls| - 1], calls[|calls| - 1];
    var s := After(c, before);
    if before == [] {
      CleanedIsSimilar(c, s, Plain(c, before), 0, call.now);
    } else {
      assert forall n :: 0 <= n < |before| ==> before[..n] == calls[..n];
      CleanupIsInvisible(c, before);
      CleanedIsSimilar(c, s, Plain(c, before), before[|before| - 1].now, call.now);
    }
    assert !Full(c, Cleaned(c, s, call.now).clients, call.address);
    ChargeIsSimilar(c, Cleaned(c, s, call.now).clients, Plain(c, before), call);
  }
}
