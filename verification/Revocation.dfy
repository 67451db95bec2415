/**
 * Packets on their way while a device is revoked: for whom they are forwarded, and what is
 * still forwarded once the revocation has returned.
 */
module Revocation {
  import opened Bytes
  import opened Subnet
  import opened Sessions
  import opened S = Server

  // --------------------------------------------------------- the current holder

  /** The step writes, seals or sends the packet that passed check `t`. */
  ghost predicate Handles(s: Server, e: Event, t: Ticket) {
    || (e.Unseal? && s.udp.Cleared? && e.written && e.source == Some(s.udp.ticket.session.address) && t == s.udp.ticket)
    || (e.SealOut? && s.tun.Ready? && e.complete && t == s.tun.ticket)
    || (Transmits(s, e) && exists i :: 0 <= i < e.count && s.batch[i].ticket == t)
  }

  /** A packet that passed check `t` is in the hands of a thread. */
  ghost predicate InPlay(s: Server, t: Ticket) {
    || (s.udp.Cleared? && s.udp.ticket == t)
    || (s.tun.Ready? && s.tun.ticket == t)
    || exists i :: 0 <= i < |s.batch| && s.batch[i].ticket == t
  }

  /** The device of the session holds its address now. */
  ghost predicate Holds(d: Devices, session: Session) {
    session.key in d.leases && d.leases[session.key] == session.address
  }

  /** The step takes the record of `key` off the list. */
  ghost predicate Removes(d: Devices, e: Event, key: PublicKey) {
    e == Administer(RevokeRecord(key)) && d.revoking.None? && key in d.leases && d.leases.Keys != {key}
  }

  /** A ticket is dated by the step that checked its flag. */
  ghost predicate Dated(leases: Leases, events: seq<Event>, n: nat, t: Ticket)
    requires n <= |events|
  {
    t.time < n && t.session.key in At(leases, events, t.time).devices.active
  }

  lemma NewTicketIsDated(s: Server, e: Event, t: Ticket)
    requires InPlay(Step(s, e), t)
    ensures InPlay(s, t) || (t.time == s.time && t.session.key in s.devices.active)
  {
    var batch := Step(s, e).batch;
    if i :| 0 <= i < |batch| && batch[i].ticket == t && i < |s.batch| {
      assert s.batch[i].ticket == t;
    }
  }

  lemma {:induction false} TicketsAreDated(leases: Leases, events: seq<Event>, n: nat, t: Ticket)
    requires n <= |events| && InPlay(At(leases, events, n), t)
    ensures Dated(leases, events, n, t)
  {
    if n > 0 {
      AtNext(leases, events, n - 1);
      Clock(leases, events[..n - 1]);
      NewTicketIsDated(At(leases, events, n - 1), events[n - 1], t);
      if InPlay(At(leases, events, n - 1), t) { TicketsAreDated(leases, events, n - 1, t); }
    }
  }

  lemma InPlayIsOwned(s: Server, t: Ticket)
    requires Inv(s) && InPlay(s, t)
    ensures Owned(s.devices.granted, s.table.serial, t.session)
  {
    if i :| 0 <= i < |s.batch| && s.batch[i].ticket == t {
      assert ForwardInv(s.devices, s.table.serial, s.time, s.batch[i]);
    }
  }

  /** A key that was granted an address loses its lease only when its record is removed. */
  lemma LeaseStays(s: Server, e: Event, key: PublicKey)
    requires DevicesInv(s.devices, s.time) && key in s.devices.granted
    ensures key in Step(s, e).devices.granted
    ensures key in Step(s, e).devices.leases <==> key in s.devices.leases && !Removes(s.devices, e, key)
  {
    if e.Administer? { AdminKeepsDevices(s.devices, s.time, e.admin); }
  }

  lemma LeaseStaysAt(leases: Leases, events: seq<Event>, k: nat, key: PublicKey)
    requires Injective(leases) && k < |events| && key in At(leases, events, k).devices.granted
    ensures key in At(leases, events, k + 1).devices.granted
    ensures key in At(leases, events, k + 1).devices.leases <==>
            key in At(leases, events, k).devices.leases && !Removes(At(leases, events, k).devices, events[k], key)
  {
    RunKeepsInv(leases, events[..k]);
    AtNext(leases, events, k);
    LeaseStays(At(leases, events, k), events[k], key);
  }

  lemma {:induction false} Persists(held: seq<bool>, gone: seq<bool>, i: nat, j: nat)
    requires i <= j < |held| && j <= |gone|
    requires forall k :: i <= k < j ==> held[k + 1] == (held[k] && !gone[k])
    ensures held[j] <==> held[i] && forall k :: i <= k < j ==> !gone[k]
    decreases j
  {
    if i < j {
      Persists(held, gone, i, j - 1);
      assert held[j - 1 + 1] == (held[j - 1] && !gone[j - 1]);
    }
  }

  lemma {:induction false} GrantLasts(leases: Leases, events: seq<Event>, i: nat, j: nat, key: PublicKey)
    requires Injective(leases) && i <= j <= |events| && key in At(leases, events, i).devices.granted
    ensures key in At(leases, events, j).devices.granted
    decreases j
  {
    if i < j {
      GrantLasts(leases, events, i, j - 1, key);
      LeaseStaysAt(leases, events, j - 1, key);
    }
  }

  /** When `key` was leased, and which steps removed it. */
  ghost function Held(leases: Leases, events: seq<Event>, key: PublicKey): seq<bool> {
    seq(|events| + 1, k requires 0 <= k <= |events| => key in At(leases, events, k).devices.leases)
  }

  ghost function Removals(leases: Leases, events: seq<Event>, key: PublicKey): seq<bool> {
    seq(|events|, k requires 0 <= k < |events| => Removes(At(leases, events, k).devices, events[k], key))
  }

  ghost predicate NotRemoved(leases: Leases, events: seq<Event>, i: nat, j: nat, key: PublicKey)
    requires i <= j <= |events|
  {
    forall k :: i <= k < j ==> !Removals(leases, events, key)[k]
  }

  lemma HeldNext(leases: Leases, events: seq<Event>, k: nat, key: PublicKey)
    requires Injective(leases) && k < |events| && key in At(leases, events, k).devices.granted
    ensures Held(leases, events, key)[k + 1] == (Held(leases, events, key)[k] && !Removals(leases, events, key)[k])
  {
    LeaseStaysAt(leases, events, k, key);
  }

  lemma LeaseLasts(leases: Leases, events: seq<Event>, i: nat, j: nat, key: PublicKey)
    requires Injective(leases) && i <= j <= |events| && key in At(leases, events, i).devices.granted
    ensures Held(leases, events, key)[j] <==> Held(leases, events, key)[i] && NotRemoved(leases, events, i, j, key)
  {
    var held, gone := Held(leases, events, key), Removals(leases, events, key);
    forall k | i <= k < j ensures held[k + 1] == (held[k] && !gone[k]) {
      GrantLasts(leases, events, i, k, key);
      HeldNext(leases, events, k, key);
    }
    Persists(held, gone, i, j);
  }

  /** The check did not fall inside a revocation of its key, and none began since. */
  ghost predicate Undisturbed(leases: Leases, events: seq<Event>, j: nat, t: Ticket)
    requires t.time <= j <= |events|
  {
    && At(leases, events, t.time).devices.revoking != Some(t.session.key)
    && NotRemoved(leases, events, t.time, j, t.session.key)
  }

  /** A key whose flag is up is leased unless its revocation has begun. */
  lemma ActiveIsLeased(leases: Leases, events: seq<Event>, key: PublicKey)
    requires Injective(leases) && key in Run(leases, events).devices.active
    ensures var d := Run(leases, events).devices; key in d.granted && (key in d.leases <==> d.revoking != Some(key))
  {
    RunKeepsInv(leases, events);
  }

  lemma LeasedAtItsAddress(leases: Leases, events: seq<Event>, j: nat, t: Ticket)
    requires Injective(leases) && j <= |events| && InPlay(At(leases, events, j), t)
    ensures Holds(At(leases, events, j).devices, t.session) <==> t.session.key in At(leases, events, j).devices.leases
  {
    RunKeepsInv(leases, events[..j]);
    InPlayIsOwned(At(leases, events, j), t);
  }

  /**
   * Whatever is written, sealed or sent, is so for the device that holds the address at that
   * moment, if and only if its check was undisturbed.
   */
  lemma HolderIffUndisturbed(leases: Leases, events: seq<Event>, j: nat, t: Ticket)
    requires Injective(leases) && j < |events| && Handles(At(leases, events, j), events[j], t)
    ensures t.time < j
    ensures Holds(At(leases, events, j).devices, t.session) <==> Undisturbed(leases, events, j, t)
  {
    var key := t.session.key;
    TicketsAreDated(leases, events, j, t);
    ActiveIsLeased(leases, events[..t.time], key);
    LeaseLasts(leases, events, t.time, j, key);
    assert Held(leases, events, key)[j] == (key in At(leases, events, j).devices.leases);
    assert Held(leases, events, key)[t.time] == (key in At(leases, events, t.time).devices.leases);
    LeasedAtItsAddress(leases, events, j, t);
  }

  ghost predicate ForTheHolder(leases: Leases, events: seq<Event>, j: nat, t: Ticket)
    requires j < |events|
  {
    Handles(At(leases, events, j), events[j], t) ==> Holds(At(leases, events, j).devices, t.session)
  }

  ghost predicate HandledUndisturbed(leases: Leases, events: seq<Event>, j: nat, t: Ticket)
    requires j < |events|
  {
    Handles(At(leases, events, j), events[j], t) ==> t.time <= j && Undisturbed(leases, events, j, t)
  }

  ghost predicate AlwaysForTheHolder(leases: Leases, events: seq<Event>) {
    forall j, t :: 0 <= j < |events| ==> ForTheHolder(leases, events, j, t)
  }

  ghost predicate NeverDisturbed(leases: Leases, events: seq<Event>) {
    forall j, t :: 0 <= j < |events| ==> HandledUndisturbed(leases, events, j, t)
  }

  /** Over a run: everything is handled for the current holder exactly when no revocation overlaps a check and its packet. */
  lemma ForTheHolderIffNeverDisturbed(leases: Leases, events: seq<Event>)
    requires Injective(leases)
    ensures AlwaysForTheHolder(leases, events) <==> NeverDisturbed(leases, events)
  {
    forall j, t | 0 <= j < |events|
      ensures ForTheHolder(leases, events, j, t) <==> HandledUndisturbed(leases, events, j, t)
    {
      if Handles(At(leases, events, j), events[j], t) { HolderIffUndisturbed(leases, events, j, t); }
    }
  }

  /**
   * While a packet waits to be sealed, its device holds the destination exactly while the
   * flag is up and no revocation of it has begun; and while the flag is up nobody else does.
   */
  lemma SealedForTheHolder(leases: Leases, events: seq<Event>)
    requires Injective(leases) && Run(leases, events).tun.Ready?
    ensures var s := Run(leases, events);
            var key := s.tun.ticket.session.key;
            && s.tun.ticket.session.address == s.tun.destination
            && (Holds(s.devices, s.tun.ticket.session) <==> key in s.devices.active && s.devices.revoking != Some(key))
            && (key in s.devices.active ==>
                  forall k :: k in s.devices.leases && s.devices.leases[k] == s.tun.destination ==> k == key)
  {
    RunKeepsInv(leases, events);
  }

  // ---------------------------------------------------------------- example runs

  ghost function Revoked(s: Server, key: PublicKey): Server {
    Step(Step(s, Administer(RevokeRecord(key))), Administer(RevokeFlag))
  }

  lemma RevokedFirst(s: Server, a: PublicKey, b: PublicKey)
    requires a != b && s.devices == Boot(TwoDevices(a, b)).devices
    ensures var r := Revoked(s, a);
            && r.devices == Devices(map[b := 8], TwoDevices(a, b), {b}, None, map[a := s.time + 1])
            && r.table == s.table && r.udp == s.udp && r.tun == s.tun && r.batch == s.batch && r.log == s.log
  {
    var d := OnAdmin(s.devices, s.time, RevokeRecord(a));
    assert b in s.devices.leases.Keys;
    assert d.leases == map[b := 8] && d.revoking == Some(a);
    assert d.active - {a} == {b};
    assert map[][a := s.time + 1] == map[a := s.time + 1];
  }

  /** The worker has looked a packet's session up and read its flag. */
  ghost function Admitted(s: Server, destination: Address): Server {
    Step(Step(s, Route(destination)), Admit)
  }

  lemma AdmittedFirst(s: Server, a: PublicKey, b: PublicKey, request: seq<byte>)
    requires a != b && s.tun.Resting? && |s.batch| < UDP_BATCH_SIZE
    requires s.devices == Boot(TwoDevices(a, b)).devices && s.table == OneSession(a, b, request).table
    ensures var session := Session(0, a, 7, SpeedyWire(a));
            Admitted(s, 7) == s.(tun := Ready(Ticket(session, s.time + 1, s.devices.leases), 7), time := s.time + 2)
  {
  }

  /** Between check and seal, the first device is revoked and a new one takes over its address. */
  lemma LateSealReachesTheOldHolder(a: PublicKey, b: PublicKey, c: PublicKey, request: seq<byte>)
    requires a != b && a != c && b != c
    ensures var leased := Step(Revoked(Admitted(OneSession(a, b, request), 7), a), Administer(Provision(c, 7)));
            var s := Step(Step(leased, SealOut(true)), Transmit(1));
            && |s.log| == 1 && s.log[0].Downlink? && s.log[0].destination == 7 && s.log[0].ticket.session.key == a
            && c in s.devices.leases && s.devices.leases[c] == 7
  {
    AdmittedFirst(OneSession(a, b, request), a, b, request);
    RevokedFirst(Admitted(OneSession(a, b, request), 7), a, b);
  }

  /** A check inside a revocation, after the record is gone and before the flag is down, passes too. */
  lemma CheckInsideARevocation(a: PublicKey, b: PublicKey, request: seq<byte>)
    requires a != b
    ensures var s := Admitted(Step(OneSession(a, b, request), Administer(RevokeRecord(a))), 7);
            s.tun.Ready? && Handles(s, SealOut(true), s.tun.ticket) && a !in s.devices.leases
  {
    assert b in OneSession(a, b, request).devices.leases.Keys;
  }

  /** Between check and write, the device is revoked; its packet is written all the same. */
  lemma LateUplinkIsWritten(a: PublicKey, b: PublicKey, request: seq<byte>)
    requires a != b
    ensures var checked := Step(Step(OneSession(a, b, request), Lookup(0, SpeedyWire(a))), Clear);
            var s := Step(Revoked(checked, a), Unseal(Some(7), true));
            && a in Revoked(checked, a).devices.revokedAt
            && |s.log| == 1 && s.log[0].Uplink? && s.log[0].source == 7 && s.log[0].ticket.session.key == a
  {
    RevokedFirst(Step(Step(OneSession(a, b, request), Lookup(0, SpeedyWire(a))), Clear), a, b);
  }

  /** Two packets are sealed into one batch, the device is revoked, and the batch is sent. */
  lemma LateBatchIsSent(a: PublicKey, b: PublicKey, request: seq<byte>)
    requires a != b
    ensures var first := Step(Admitted(OneSession(a, b, request), 7), SealOut(true));
            var revoked := Revoked(Step(Admitted(first, 7), SealOut(true)), a);
            var s := Step(revoked, Transmit(2));
            && a in revoked.devices.revokedAt && revoked.tun.Resting? && revoked.log == []
            && |s.log| == 2 && forall i :: 0 <= i < 2 ==> s.log[i].Downlink? && s.log[i].ticket.session.key == a
  {
    var start := OneSession(a, b, request);
    AdmittedFirst(start, a, b, request);
    var first := Step(Admitted(start, 7), SealOut(true));
    AdmittedFirst(first, a, b, request);
    RevokedFirst(Step(Admitted(first, 7), SealOut(true)), a, b);
  }

  // ------------------------------------------------------------ after a revocation

  ghost predicate HeldDown(s: Server, key: PublicKey) { s.tun.Ready? && s.tun.ticket.session.key == key }

  ghost predicate HeldUp(s: Server, key: PublicKey) { s.udp.Cleared? && s.udp.ticket.session.key == key }

  lemma DevicesStay(d: Devices, time: nat)
    requires DevicesInv(d, time)
    ensures DevicesInv(d, time + 1)
  {
  }

  lemma StepKeepsDevices(s: Server, e: Event)
    requires DevicesInv(s.devices, s.time)
    ensures DevicesInv(Step(s, e).devices, Step(s, e).time)
  {
    if e.Administer? { AdminKeepsDevices(s.devices, s.time, e.admin); } else { DevicesStay(s.devices, s.time); }
  }

  lemma RevokedStays(s: Server, e: Event, key: PublicKey)
    requires key in s.devices.revokedAt
    ensures key in Step(s, e).devices.revokedAt
  {
  }

  /** While a key's flag is down, no check passes for its sessions. */
  lemma RevokedIsNotCleared(s: Server, e: Event, key: PublicKey)
    requires key !in s.devices.active
    ensures HeldUp(Step(s, e), key) <==> HeldUp(s, key) && !e.Unseal?
    ensures HeldDown(Step(s, e), key) <==> HeldDown(s, key) && !e.SealOut?
    ensures HeldUp(Step(s, e), key) ==> Step(s, e).udp == s.udp
    ensures HeldDown(Step(s, e), key) ==> Step(s, e).tun == s.tun
  {
  }

  /** The packets of `key` among `fs`, in one direction. */
  ghost function Forwards(fs: seq<Forward>, key: PublicKey, up: bool): seq<Forward> {
    if fs == [] then []
    else
      var f := fs[|fs| - 1];
      Forwards(fs[..|fs| - 1], key, up) + if f.ticket.session.key == key && f.Uplink? == up then [f] else []
  }

  lemma {:induction false} ForwardsConcat(a: seq<Forward>, b: seq<Forward>, key: PublicKey, up: bool)
    ensures Forwards(a + b, key, up) == Forwards(a, key, up) + Forwards(b, key, up)
  {
    if b == [] {
      assert a + b == a;
    } else {
      assert (a + b)[..|a + b| - 1] == a + b[..|b| - 1];
      ForwardsConcat(a, b[..|b| - 1], key, up);
    }
  }

  ghost predicate NoneOf(fs: seq<Forward>, key: PublicKey, up: bool) {
    forall i :: 0 <= i < |fs| ==> !(fs[i].ticket.session.key == key && fs[i].Uplink? == up)
  }

  lemma {:induction false} NoneForwarded(fs: seq<Forward>, key: PublicKey, up: bool)
    requires NoneOf(fs, key, up)
    ensures Forwards(fs, key, up) == []
  {
    if fs != [] { NoneForwarded(fs[..|fs| - 1], key, up); }
  }

  lemma {:induction false} ForwardsAreFewer(fs: seq<Forward>, key: PublicKey, up: bool)
    ensures |Forwards(fs, key, up)| <= |fs|
  {
    if fs != [] { ForwardsAreFewer(fs[..|fs| - 1], key, up); }
  }

  lemma OneForward(f: Forward, key: PublicKey, up: bool)
    ensures Forwards([f], key, up) == if f.ticket.session.key == key && f.Uplink? == up then [f] else []
  {
    assert [f][..0] == [];
  }

  // ---------------------------------------------------------------------- uplinks

  /** How the first unsealing of a run ends for a session at `address`. */
  function FirstUnseal(events: seq<Event>, address: Address): Option<bool> {
    if events == [] then None
    else
      var first, e := FirstUnseal(events[..|events| - 1], address), events[|events| - 1];
      if first.None? && e.Unseal? then Some(e.written && e.source == Some(address)) else first
  }

  ghost predicate BatchIsSealed(s: Server) {
    forall i :: 0 <= i < |s.batch| ==> s.batch[i].Downlink?
  }

  lemma StaysSealed(s: Server, e: Event)
    requires BatchIsSealed(s)
    ensures BatchIsSealed(Step(s, e))
  {
  }

  /** What one step writes for `key`. */
  lemma StepWrites(s: Server, e: Event, key: PublicKey)
    requires BatchIsSealed(s)
    ensures Forwards(Step(s, e).log, key, true) == Forwards(s.log, key, true) +
              if HeldUp(s, key) && e == Unseal(Some(s.udp.ticket.session.address), true)
              then [Uplink(s.udp.ticket, s.udp.ticket.session.address, s.udp.incoming)] else []
  {
    if e.Unseal? && Step(s, e).log != s.log {
      var f := Uplink(s.udp.ticket, s.udp.ticket.session.address, s.udp.incoming);
      assert Step(s, e).log == s.log + [f];
      ForwardsConcat(s.log, [f], key, true);
      OneForward(f, key, true);
    } else if Transmits(s, e) {
      ForwardsConcat(s.log, s.batch[..e.count], key, true);
      NoneForwarded(s.batch[..e.count], key, true);
    }
  }

  lemma {:induction false} LateUplinks(s: Server, more: seq<Event>, key: PublicKey)
    requires DevicesInv(s.devices, s.time) && key in s.devices.revokedAt && BatchIsSealed(s)
    ensures var t := Exec(s, more);
            && DevicesInv(t.devices, t.time) && key in t.devices.revokedAt && BatchIsSealed(t)
            && (HeldUp(s, key) ==>
                  var first := FirstUnseal(more, s.udp.ticket.session.address);
                  && (HeldUp(t, key) <==> first.None?) && (HeldUp(t, key) ==> t.udp == s.udp)
                  && Forwards(t.log, key, true) == Forwards(s.log, key, true) +
                       if first == Some(true) then [Uplink(s.udp.ticket, s.udp.ticket.session.address, s.udp.incoming)] else [])
            && (!HeldUp(s, key) ==> !HeldUp(t, key) && Forwards(t.log, key, true) == Forwards(s.log, key, true))
  {
    if more != [] {
      var before, e := more[..|more| - 1], more[|more| - 1];
      LateUplinks(s, before, key);
      var u := Exec(s, before);
      StepKeepsDevices(u, e);
      RevokedStays(u, e, key);
      RevokedIsNotCleared(u, e, key);
      StaysSealed(u, e);
      StepWrites(u, e, key);
    }
  }

  // -------------------------------------------------------------------- downlinks

  /** How the first seal of a run ends, if there is one. */
  function FirstSeal(events: seq<Event>): Option<bool> {
    if events == [] then None
    else
      var first, e := FirstSeal(events[..|events| - 1]), events[|events| - 1];
      if first.None? && e.SealOut? then Some(e.complete) else first
  }

  /** How many datagrams the first batch sent from `s` on gets out, if one is sent. */
  ghost function FirstTransmit(s: Server, more: seq<Event>): Option<nat> {
    if more == [] then None
    else
      var before, e := more[..|more| - 1], more[|more| - 1];
      var first := FirstTransmit(s, before);
      if first.None? && Transmits(Exec(s, before), e) then Some(e.count) else first
  }

  /** The packet held at `s`, if its seal completes. */
  ghost function HeldPart(s: Server, first: Option<bool>, key: PublicKey): seq<Forward> {
    if HeldDown(s, key) && first == Some(true) then [Downlink(s.tun.ticket, s.tun.destination)] else []
  }

  function Prefix(fs: seq<Forward>, n: nat): seq<Forward> {
    if n < |fs| then fs[..n] else fs
  }

  /** No batch has been sent since `s`: its batch, the packet it held, and nothing more of `key`. */
  ghost predicate Waiting(s: Server, first: Option<bool>, u: Server, key: PublicKey) {
    var p := s.batch + HeldPart(s, first, key);
    && p <= u.batch && NoneOf(u.batch[|p|..], key, false)
    && (HeldDown(u, key) <==> HeldDown(s, key) && first.None?)
    && (HeldDown(u, key) ==> u.tun == s.tun && u.batch == s.batch)
    && Forwards(u.log, key, false) == Forwards(s.log, key, false)
  }

  /** The first batch since `s` is gone, with its first `n` datagrams sent. */
  ghost predicate Gone(s: Server, first: Option<bool>, n: nat, u: Server, key: PublicKey) {
    && NoneOf(u.batch, key, false) && !HeldDown(u, key) && (HeldDown(s, key) ==> first.Some?)
    && Forwards(u.log, key, false) ==
         Forwards(s.log, key, false) + Forwards(Prefix(s.batch + HeldPart(s, first, key), n), key, false)
  }

  lemma PrefixForwards(batch: seq<Forward>, p: seq<Forward>, n: nat, key: PublicKey)
    requires p <= batch && NoneOf(batch[|p|..], key, false) && n <= |batch|
    ensures Forwards(batch[..n], key, false) == Forwards(Prefix(p, n), key, false)
  {
    if n < |p| {
      assert batch[..n] == p[..n];
    } else {
      assert batch[..n] == p + batch[|p|..n];
      ForwardsConcat(p, batch[|p|..n], key, false);
      NoneForwarded(batch[|p|..n], key, false);
    }
  }

  lemma TransmitEndsWaiting(s: Server, first: Option<bool>, u: Server, e: Event, key: PublicKey)
    requires Waiting(s, first, u, key) && Transmits(u, e)
    ensures Gone(s, first, e.count, Step(u, e), key)
  {
    ForwardsConcat(u.log, u.batch[..e.count], key, false);
    PrefixForwards(u.batch, s.batch + HeldPart(s, first, key), e.count, key);
  }

  lemma SealKeepsWaiting(s: Server, first: Option<bool>, u: Server, complete: bool, key: PublicKey)
    requires Waiting(s, first, u, key)
    ensures Waiting(s, if first.None? then Some(complete) else first, Step(u, SealOut(complete)), key)
  {
    var t := Step(u, SealOut(complete));
    if HeldDown(u, key) {
      assert first.None?;
      assert HeldPart(s, Some(complete), key) == if complete then [Downlink(s.tun.ticket, s.tun.destination)] else [];
      assert t.batch == s.batch + HeldPart(s, Some(complete), key);
    } else {
      var p := s.batch + HeldPart(s, first, key);
      assert HeldPart(s, if first.None? then Some(complete) else first, key) == HeldPart(s, first, key);
      assert NoneOf(t.batch[|p|..], key, false);
    }
  }

  /** A step that sends no batch sends nothing for `key`. */
  lemma StepSends(u: Server, e: Event, key: PublicKey)
    requires !Transmits(u, e)
    ensures Forwards(Step(u, e).log, key, false) == Forwards(u.log, key, false)
    ensures !e.SealOut? ==> Step(u, e).batch == u.batch
  {
    if e.Unseal? && Step(u, e).log != u.log {
      var f := Uplink(u.udp.ticket, u.udp.ticket.session.address, u.udp.incoming);
      ForwardsConcat(u.log, [f], key, false);
      OneForward(f, key, false);
    }
  }

  lemma OtherKeepsWaiting(s: Server, first: Option<bool>, u: Server, e: Event, key: PublicKey)
    requires Waiting(s, first, u, key) && !e.SealOut? && !Transmits(u, e) && key !in u.devices.active
    ensures Waiting(s, first, Step(u, e), key)
  {
    RevokedIsNotCleared(u, e, key);
    StepSends(u, e, key);
  }

  lemma NothingIsSent(u: Server, e: Event, key: PublicKey)
    requires NoneOf(u.batch, key, false)
    ensures Forwards(Step(u, e).log, key, false) == Forwards(u.log, key, false)
  {
    if Transmits(u, e) {
      ForwardsConcat(u.log, u.batch[..e.count], key, false);
      NoneForwarded(u.batch[..e.count], key, false);
    } else {
      StepSends(u, e, key);
    }
  }

  lemma NothingIsSealed(u: Server, e: Event, key: PublicKey)
    requires NoneOf(u.batch, key, false) && !HeldDown(u, key)
    ensures NoneOf(Step(u, e).batch, key, false)
  {
  }

  lemma GoneStays(s: Server, first: Option<bool>, n: nat, u: Server, e: Event, key: PublicKey)
    requires Gone(s, first, n, u, key) && key !in u.devices.active
    ensures Gone(s, if first.None? && e.SealOut? then Some(e.complete) else first, n, Step(u, e), key)
  {
    RevokedIsNotCleared(u, e, key);
    NothingIsSent(u, e, key);
    NothingIsSealed(u, e, key);
  }

  lemma {:induction false} LateDownlinks(s: Server, more: seq<Event>, key: PublicKey)
    requires DevicesInv(s.devices, s.time) && key in s.devices.revokedAt
    ensures var t := Exec(s, more);
            && DevicesInv(t.devices, t.time) && key in t.devices.revokedAt
            && match FirstTransmit(s, more)
               case None => Waiting(s, FirstSeal(more), t, key)
               case Some(n) => Gone(s, FirstSeal(more), n, t, key)
  {
    if more != [] {
      var before, e := more[..|more| - 1], more[|more| - 1];
      LateDownlinks(s, before, key);
      var u, first := Exec(s, before), FirstSeal(before);
      StepKeepsDevices(u, e);
      RevokedStays(u, e, key);
      if FirstTransmit(s, before).Some? {
        GoneStays(s, first, FirstTransmit(s, before).value, u, e, key);
      } else if Transmits(u, e) {
        TransmitEndsWaiting(s, first, u, e, key);
      } else if e.SealOut? {
        SealKeepsWaiting(s, first, u, e.complete, key);
      } else {
        OtherKeepsWaiting(s, first, u, e, key);
      }
    }
  }

  /** What the TUN worker still sends for a revoked device. */
  ghost function LateSent(s: Server, more: seq<Event>, key: PublicKey): seq<Forward> {
    match FirstTransmit(s, more)
    case None => []
    case Some(n) => Forwards(Prefix(s.batch + HeldPart(s, FirstSeal(more), key), n), key, false)
  }

  /** What the UDP loop still writes for it. */
  ghost function LateWritten(s: Server, more: seq<Event>, key: PublicKey): seq<Forward> {
    if HeldUp(s, key) && FirstUnseal(more, s.udp.ticket.session.address) == Some(true)
    then [Uplink(s.udp.ticket, s.udp.ticket.session.address, s.udp.incoming)] else []
  }

  /**
   * What a device still gets forwarded once its revocation has returned, over every way the
   * run goes on. Written is the packet that the UDP loop had already checked, if it completes
   * it. Sent are the device's datagrams among those that the first batch to leave gets out of
   * what was sealed by then: the batch as it stood, and the packet held then, if its seal
   * completes. That is one packet and one batch at most, and nothing else ever follows.
   */
  lemma RevokedForwardsOnlyWhatWasHeld(leases: Leases, events: seq<Event>, more: seq<Event>, key: PublicKey)
    requires Injective(leases) && key in Run(leases, events).devices.revokedAt
    ensures var s := Run(leases, events);
            var t := Exec(s, more);
            && Forwards(t.log, key, true) == Forwards(s.log, key, true) + LateWritten(s, more, key)
            && Forwards(t.log, key, false) == Forwards(s.log, key, false) + LateSent(s, more, key)
            && |LateWritten(s, more, key)| <= 1 && |LateSent(s, more, key)| <= UDP_BATCH_SIZE
  {
    RunKeepsInv(leases, events);
    var s := Run(leases, events);
    LateUplinks(s, more, key);
    LateDownlinks(s, more, key);
    if FirstTransmit(s, more).Some? {
      ForwardsAreFewer(Prefix(s.batch + HeldPart(s, FirstSeal(more), key), FirstTransmit(s, more).value), key, false);
    }
  }
}
