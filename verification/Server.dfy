/**
 * The server as three threads over shared state: administration, the UDP loop and the TUN
 * worker. A step is one critical section, one atomic access or one system call, so a
 * revocation can fall between the check that clears a packet and the moment it is forwarded.
 */
module Server {
  import opened Bytes
  import opened Router
  import opened Subnet
  import opened Sessions

  type Leases = map<PublicKey, Address>

  /**
   * The registry as other threads see it. `granted` remembers every lease ever made and
   * `revokedAt` when each revocation returned; `active` are the raised flags.
   */
  datatype Devices = Devices(leases: Leases, granted: Leases, active: set<PublicKey>,
                             revoking: Option<PublicKey>, revokedAt: map<PublicKey, nat>)

  /** The last handshake of a device; its response belongs to `session`. */
  datatype Cached = Cached(request: seq<byte>, session: Session)

  /**
   * Sessions and handshakes. `unmasked` are the devices whose latest session was installed
   * although its response could not be masked, `answered` the responses that were sent.
   */
  datatype Table = Table(index: Index, cache: map<PublicKey, Cached>, unmasked: set<PublicKey>,
                         answered: seq<Session>, serial: nat)

  /** A passed authorization check: for which session, when, and who held which address then. */
  datatype Ticket = Ticket(session: Session, time: nat, leases: Leases)

  datatype Greeting = Greeting(key: PublicKey, address: Address, id: u64, request: seq<byte>, wire: WireMode)

  /** The UDP loop looks a session up, then reads its flag, then unseals and writes. */
  datatype UdpPhase =
    | Idle
    | Authorized(greeting: Greeting)
    | Found(session: Session, incoming: WireMode)
    | Cleared(ticket: Ticket, incoming: WireMode)

  /** So does the TUN worker, which seals into a batch and sends it as a whole. */
  datatype TunPhase = Resting | Selected(session: Session, destination: Address) | Ready(ticket: Ticket, destination: Address)

  /** `incoming` is the wire format under which an uplink frame was recognised. */
  datatype Forward = Uplink(ticket: Ticket, source: Address, incoming: WireMode) | Downlink(ticket: Ticket, destination: Address)

  const UDP_BATCH_SIZE: nat := 32

  /** `batch` are the sealed datagrams not sent yet, `log` what was written to the TUN device or sent. */
  datatype Server = Server(devices: Devices, table: Table, udp: UdpPhase, tun: TunPhase, batch: seq<Forward>,
                           log: seq<Forward>, time: nat)

  datatype Admin = Provision(key: PublicKey, address: Address) | RevokeRecord(key: PublicKey) | RevokeFlag

  datatype Event =
    | Administer(admin: Admin)
    | Hello(key: PublicKey, id: u64, request: seq<byte>, wire: WireMode, masked: bool)
    | Install(masked: bool)
    | Abandon
    | Lookup(id: u64, wire: WireMode)
    | Clear
    | Unseal(source: Option<Address>, written: bool)
    | Route(destination: Address)
    | Admit
    | SealOut(complete: bool)
    | Transmit(count: nat)

  ghost predicate Injective(m: Leases) {
    forall k, l :: k in m && l in m && m[k] == m[l] ==> k == l
  }

  ghost function Boot(leases: Leases): Server {
    Server(Devices(leases, leases, leases.Keys, None, map[]), Table(Index(map[], map[]), map[], {}, [], 0),
           Idle, Resting, [], [], 0)
  }

  // ---------------------------------------------------------------------- steps

  /**
   * Registry operations hold the registry lock; a revocation clears its flag as a second
   * step under the same lock. A provisioned key is new and its address free.
   */
  ghost function OnAdmin(d: Devices, time: nat, a: Admin): Devices {
    match a
    case Provision(key, address) =>
      if d.revoking.Some? || key in d.granted || (exists k :: k in d.leases && d.leases[k] == address) then d
      else d.(leases := d.leases[key := address], granted := d.granted[key := address], active := d.active + {key})
    case RevokeRecord(key) =>
      if d.revoking.Some? || key !in d.leases || d.leases.Keys == {key} then d
      else d.(leases := d.leases - {key}, revoking := Some(key))
    case RevokeFlag =>
      if d.revoking.None? then d
      else d.(active := d.active - {d.revoking.value}, revoking := None, revokedAt := d.revokedAt[d.revoking.value := time])
  }

  /** A response in the plain format needs no masking; in the others it succeeds if `masked`. */
  predicate Masks(wire: WireMode, masked: bool) {
    wire.Legacy? || masked
  }

  ghost function OnInstall(t: Table, g: Greeting, masked: bool): Table {
    var session := Session(t.serial, g.key, g.address, g.wire);
    var u := t.(serial := t.serial + 1);
    if g.id in t.index.byId && t.index.byId[g.id].address != g.address then u
    else if Masks(g.wire, masked) then
      u.(index := Replace(t.index, g.id, session), cache := t.cache[g.key := Cached(g.request, session)],
         unmasked := t.unmasked - {g.key}, answered := t.answered + [session])
    else u.(index := Replace(t.index, g.id, session), unmasked := t.unmasked + {g.key})
  }

  /** An exact repeat of the cached request is answered again; anything else starts a session. */
  ghost function OnHello(s: Server, key: PublicKey, id: u64, request: seq<byte>, wire: WireMode, masked: bool): Server {
    if !s.udp.Idle? || s.devices.revoking.Some? || !wire.AllowsClient(key) || key !in s.devices.leases then s
    else if key in s.table.cache && s.table.cache[key].request == request then
      if Masks(wire, masked) then s.(table := s.table.(answered := s.table.answered + [s.table.cache[key].session]))
      else s
    else s.(udp := Authorized(Greeting(key, s.devices.leases[key], id, request, wire)))
  }

  ghost function Check(s: Server, session: Session): Ticket {
    Ticket(session, s.time, s.devices.leases)
  }

  /** The worker is through with its packets and the socket takes the first `count` datagrams of the batch. */
  ghost predicate Transmits(s: Server, e: Event) {
    e.Transmit? && s.tun.Resting? && e.count <= |s.batch|
  }

  ghost function Act(s: Server, e: Event): Server {
    match e
    case Administer(a) => s.(devices := OnAdmin(s.devices, s.time, a))
    case Hello(key, id, request, wire, masked) => OnHello(s, key, id, request, wire, masked)
    case Install(masked) =>
      if !s.udp.Authorized? then s else s.(table := OnInstall(s.table, s.udp.greeting, masked), udp := Idle)
    case Abandon => if s.udp.Authorized? then s.(udp := Idle) else s
    case Lookup(id, wire) =>
      if !s.udp.Idle? || id !in s.table.index.byId then s else s.(udp := Found(s.table.index.byId[id], wire))
    case Clear =>
      if !s.udp.Found? then s
      else if s.udp.session.key !in s.devices.active || !s.udp.session.wire.Matches(s.udp.incoming) then s.(udp := Idle)
      else s.(udp := Cleared(Check(s, s.udp.session), s.udp.incoming))
    case Unseal(source, written) =>
      if !s.udp.Cleared? then s
      else if source != Some(s.udp.ticket.session.address) || !written then s.(udp := Idle)
      else s.(udp := Idle, log := s.log + [Uplink(s.udp.ticket, source.value, s.udp.incoming)])
    case Route(destination) =>
      if !s.tun.Resting? || |s.batch| >= UDP_BATCH_SIZE || destination !in s.table.index.byAddress then s
      else s.(tun := Selected(s.table.index.byAddress[destination], destination))
    case Admit =>
      if !s.tun.Selected? then s
      else if s.tun.session.key !in s.devices.active then s.(tun := Resting)
      else s.(tun := Ready(Check(s, s.tun.session), s.tun.destination))
    case SealOut(complete) =>
      if !s.tun.Ready? then s
      else if !complete then s.(tun := Resting)
      else s.(tun := Resting, batch := s.batch + [Downlink(s.tun.ticket, s.tun.destination)])
    case Transmit(count) =>
      if !Transmits(s, e) then s else s.(log := s.log + s.batch[..count], batch := [])
  }

  ghost function Step(s: Server, e: Event): Server {
    Act(s, e).(time := s.time + 1)
  }

  ghost function Exec(s: Server, events: seq<Event>): Server {
    if events == [] then s else Step(Exec(s, events[..|events| - 1]), events[|events| - 1])
  }

  ghost function Run(leases: Leases, events: seq<Event>): Server {
    Exec(Boot(leases), events)
  }

  ghost function At(leases: Leases, events: seq<Event>, k: nat): Server
    requires k <= |events|
  {
    Run(leases, events[..k])
  }

  lemma AtNext(leases: Leases, events: seq<Event>, k: nat)
    requires k < |events|
    ensures At(leases, events, k + 1) == Step(At(leases, events, k), events[k])
  {
    assert events[..k + 1][..k] == events[..k];
  }

  lemma {:induction false} Clock(leases: Leases, events: seq<Event>)
    ensures Run(leases, events).time == |events|
  {
    if events != [] { Clock(leases, events[..|events| - 1]); }
  }

  // ------------------------------------------------------------------ invariant

  ghost predicate DevicesInv(d: Devices, time: nat) {
    && Injective(d.leases)
    && (forall k :: k in d.leases ==> k in d.granted && d.granted[k] == d.leases[k])
    && (forall k :: k in d.active <==> k in d.leases || d.revoking == Some(k))
    && (forall k :: k in d.active ==> k in d.granted)
    && (forall k :: k in d.revokedAt ==> k !in d.active && k in d.granted && d.revokedAt[k] < time)
    && (d.revoking.Some? ==>
          && d.revoking.value !in d.leases
          && forall k :: k in d.leases ==> d.leases[k] != d.granted[d.revoking.value])
  }

  /** A session belongs to the key that was granted its address. */
  ghost predicate Owned(granted: Leases, serial: nat, session: Session) {
    && session.key in granted && granted[session.key] == session.address
    && session.serial < serial && session.wire.AllowsClient(session.key)
  }

  ghost predicate IndexInv(t: Table, granted: Leases) {
    && Bijective(t.index)
    && forall a :: a in t.index.byAddress ==> Owned(granted, t.serial, t.index.byAddress[a])
  }

  /** The cached response belongs to the session installed at the device's address. */
  ghost predicate Consistent(t: Table, key: PublicKey, address: Address)
    requires key in t.cache
  {
    address in t.index.byAddress && t.index.byAddress[address] == t.cache[key].session
  }

  ghost predicate CacheInv(t: Table, d: Devices) {
    forall k :: k in t.cache ==>
      && k in d.granted && t.cache[k].session.key == k && t.cache[k].session.serial < t.serial
      && (k in d.leases ==> (Consistent(t, k, d.leases[k]) <==> k !in t.unmasked))
  }

  /** Nobody with a cached handshake can hold the address of a greeting in progress. */
  ghost predicate GreetingInv(g: Greeting, t: Table, d: Devices) {
    && g.key in d.granted && d.granted[g.key] == g.address && g.wire.AllowsClient(g.key)
    && forall k :: k in t.cache && k in d.leases && k != g.key ==> d.leases[k] != g.address
  }

  /** The check behind a ticket came before any revocation of its key returned. */
  ghost predicate TicketInv(d: Devices, serial: nat, time: nat, t: Ticket) {
    && Owned(d.granted, serial, t.session) && t.time < time
    && (t.session.key in d.revokedAt ==> t.time < d.revokedAt[t.session.key])
    && (forall k :: k in t.leases && t.leases[k] == t.session.address ==> k == t.session.key)
  }

  ghost predicate ForwardInv(d: Devices, serial: nat, time: nat, f: Forward) {
    && TicketInv(d, serial, time, f.ticket)
    && (if f.Uplink? then f.source else f.destination) == f.ticket.session.address
    && (f.Uplink? ==> f.incoming.AllowsClient(f.ticket.session.key))
  }

  ghost predicate UdpInv(s: Server) {
    match s.udp
    case Found(session, _) => Owned(s.devices.granted, s.table.serial, session)
    case Cleared(ticket, incoming) =>
      TicketInv(s.devices, s.table.serial, s.time, ticket) && incoming.AllowsClient(ticket.session.key)
    case _ => true
  }

  ghost predicate TunInv(s: Server) {
    match s.tun
    case Resting => true
    case Selected(session, destination) => Owned(s.devices.granted, s.table.serial, session) && session.address == destination
    case Ready(ticket, destination) => ForwardInv(s.devices, s.table.serial, s.time, Downlink(ticket, destination))
  }

  ghost predicate BatchInv(s: Server) {
    && |s.batch| + (if s.tun.Resting? then 0 else 1) <= UDP_BATCH_SIZE
    && forall i :: 0 <= i < |s.batch| ==> s.batch[i].Downlink? && ForwardInv(s.devices, s.table.serial, s.time, s.batch[i])
  }

  ghost predicate TrafficInv(s: Server) {
    && UdpInv(s) && TunInv(s) && BatchInv(s)
    && (forall i :: 0 <= i < |s.log| ==> ForwardInv(s.devices, s.table.serial, s.time, s.log[i]))
  }

  ghost predicate Inv(s: Server) {
    && DevicesInv(s.devices, s.time) && IndexInv(s.table, s.devices.granted) && CacheInv(s.table, s.devices)
    && (s.udp.Authorized? ==> GreetingInv(s.udp.greeting, s.table, s.devices))
    && TrafficInv(s)
  }

  // ---------------------------------------------------------------- preservation

  /** Administration only adds grants, and a revocation it finishes is dated now. */
  ghost predicate Grows(d: Devices, e: Devices, time: nat) {
    && (forall k :: k in d.granted ==> k in e.granted && e.granted[k] == d.granted[k])
    && (forall k :: k in e.revokedAt ==> e.revokedAt[k] >= time || (k in d.revokedAt && e.revokedAt[k] == d.revokedAt[k]))
  }

  lemma AdminKeepsDevices(d: Devices, time: nat, a: Admin)
    requires DevicesInv(d, time)
    ensures DevicesInv(OnAdmin(d, time, a), time + 1) && Grows(d, OnAdmin(d, time, a), time)
  {
  }

  lemma AdminKeepsCache(t: Table, d: Devices, time: nat, a: Admin)
    requires DevicesInv(d, time) && CacheInv(t, d)
    ensures CacheInv(t, OnAdmin(d, time, a))
  {
  }

  lemma AdminKeepsGreeting(g: Greeting, t: Table, d: Devices, time: nat, a: Admin)
    requires DevicesInv(d, time) && CacheInv(t, d) && GreetingInv(g, t, d)
    ensures GreetingInv(g, t, OnAdmin(d, time, a))
  {
  }

  lemma FreshSession(t: Table, granted: Leases, session: Session)
    requires IndexInv(t, granted) && session.serial == t.serial
    ensures forall i :: i in t.index.byId ==> t.index.byId[i] != session
  {
    forall i | i in t.index.byId ensures t.index.byId[i] != session {
      assert Owned(granted, t.serial, t.index.byAddress[t.index.byId[i].address]);
    }
  }

  lemma InstallKeepsIndex(t: Table, d: Devices, g: Greeting, masked: bool)
    requires IndexInv(t, d.granted) && GreetingInv(g, t, d)
    ensures IndexInv(OnInstall(t, g, masked), d.granted)
  {
    var session := Session(t.serial, g.key, g.address, g.wire);
    FreshSession(t, d.granted, session);
    ReplaceKeepsBijection(t.index, g.id, session);
  }

  lemma InstallKeepsCache(t: Table, d: Devices, time: nat, g: Greeting, masked: bool)
    requires DevicesInv(d, time) && CacheInv(t, d) && GreetingInv(g, t, d)
    ensures CacheInv(OnInstall(t, g, masked), d)
  {
  }

  lemma TicketStays(d: Devices, e: Devices, serial: nat, later: nat, time: nat, t: Ticket)
    requires TicketInv(d, serial, time, t) && Grows(d, e, time) && serial <= later
    ensures TicketInv(e, later, time + 1, t)
  {
  }

  lemma ForwardsStay(fs: seq<Forward>, d: Devices, e: Devices, serial: nat, later: nat, time: nat)
    requires Grows(d, e, time) && serial <= later && forall i :: 0 <= i < |fs| ==> ForwardInv(d, serial, time, fs[i])
    ensures forall i :: 0 <= i < |fs| ==> ForwardInv(e, later, time + 1, fs[i])
  {
    forall i | 0 <= i < |fs| ensures ForwardInv(e, later, time + 1, fs[i]) {
      TicketStays(d, e, serial, later, time, fs[i].ticket);
    }
  }

  /** An active session's key is the only one that can hold its address. */
  lemma CheckIsSound(s: Server, session: Session)
    requires DevicesInv(s.devices, s.time) && Owned(s.devices.granted, s.table.serial, session)
    requires session.key in s.devices.active
    ensures TicketInv(s.devices, s.table.serial, s.time + 1, Check(s, session))
  {
  }

  lemma StepGrows(s: Server, e: Event)
    requires DevicesInv(s.devices, s.time)
    ensures Grows(s.devices, Step(s, e).devices, s.time) && s.table.serial <= Step(s, e).table.serial
  {
    if e.Administer? { AdminKeepsDevices(s.devices, s.time, e.admin); }
  }

  /** The registry and the table of `t` come a step after those of `s`. */
  ghost predicate Later(s: Server, t: Server) {
    Grows(s.devices, t.devices, s.time) && s.table.serial <= t.table.serial && t.time == s.time + 1
  }

  lemma UdpStays(s: Server, t: Server)
    requires UdpInv(s) && Later(s, t) && t.udp == s.udp
    ensures UdpInv(t)
  {
    if s.udp.Cleared? { TicketStays(s.devices, t.devices, s.table.serial, t.table.serial, s.time, s.udp.ticket); }
  }

  lemma TunStays(s: Server, t: Server)
    requires TunInv(s) && Later(s, t) && t.tun == s.tun
    ensures TunInv(t)
  {
    if s.tun.Ready? { TicketStays(s.devices, t.devices, s.table.serial, t.table.serial, s.time, s.tun.ticket); }
  }

  lemma BatchStays(s: Server, t: Server)
    requires BatchInv(s) && Later(s, t) && t.tun == s.tun && t.batch == s.batch
    ensures BatchInv(t)
  {
    ForwardsStay(s.batch, s.devices, t.devices, s.table.serial, t.table.serial, s.time);
  }

  /** What held of a phase, the batch or the log before a step holds of it afterwards. */
  lemma TrafficStays(s: Server, e: Event)
    requires Inv(s)
    ensures var t := Step(s, e);
            && UdpInv(t.(udp := s.udp)) && TunInv(t.(tun := s.tun)) && BatchInv(t.(tun := s.tun, batch := s.batch))
            && (forall i :: 0 <= i < |s.log| ==> ForwardInv(t.devices, t.table.serial, t.time, s.log[i]))
  {
    var t := Step(s, e);
    StepGrows(s, e);
    UdpStays(s, t.(udp := s.udp));
    TunStays(s, t.(tun := s.tun));
    BatchStays(s, t.(tun := s.tun, batch := s.batch));
    ForwardsStay(s.log, s.devices, t.devices, s.table.serial, t.table.serial, s.time);
  }

  lemma AdministerKeepsInv(s: Server, a: Admin)
    requires Inv(s)
    ensures Inv(Step(s, Administer(a)))
  {
    TrafficStays(s, Administer(a));
    AdminKeepsDevices(s.devices, s.time, a);
    AdminKeepsCache(s.table, s.devices, s.time, a);
    if s.udp.Authorized? { AdminKeepsGreeting(s.udp.greeting, s.table, s.devices, s.time, a); }
  }

  lemma InstallKeepsInv(s: Server, masked: bool)
    requires Inv(s) && s.udp.Authorized?
    ensures Inv(Step(s, Install(masked)))
  {
    TrafficStays(s, Install(masked));
    InstallKeepsIndex(s.table, s.devices, s.udp.greeting, masked);
    InstallKeepsCache(s.table, s.devices, s.time, s.udp.greeting, masked);
  }

  /** A step that leaves the registry and the table alone only has traffic to account for. */
  lemma QuietKeepsInv(s: Server, t: Server)
    requires Inv(s) && t.devices == s.devices && t.table == s.table && t.time == s.time + 1
    requires (t.udp.Authorized? ==> t.udp == s.udp) && TrafficInv(t)
    ensures Inv(t)
  {
  }

  lemma LookupIsSound(s: Server, id: u64)
    requires Inv(s) && id in s.table.index.byId
    ensures Owned(s.devices.granted, s.table.serial, s.table.index.byId[id])
  {
    var x := s.table.index;
    assert Owned(s.devices.granted, s.table.serial, x.byAddress[x.byId[id].address]);
  }

  lemma LookupKeepsInv(s: Server, id: u64, wire: WireMode)
    requires Inv(s)
    ensures Inv(Step(s, Lookup(id, wire)))
  {
    TrafficStays(s, Lookup(id, wire));
    if id in s.table.index.byId { LookupIsSound(s, id); }
    QuietKeepsInv(s, Step(s, Lookup(id, wire)));
  }

  lemma ClearKeepsInv(s: Server)
    requires Inv(s)
    ensures Inv(Step(s, Clear))
  {
    TrafficStays(s, Clear);
    if s.udp.Found? && s.udp.session.key in s.devices.active { CheckIsSound(s, s.udp.session); }
    QuietKeepsInv(s, Step(s, Clear));
  }

  lemma UnsealKeepsInv(s: Server, source: Option<Address>, written: bool)
    requires Inv(s)
    ensures Inv(Step(s, Unseal(source, written)))
  {
    TrafficStays(s, Unseal(source, written));
    QuietKeepsInv(s, Step(s, Unseal(source, written)));
  }

  lemma RouteKeepsInv(s: Server, destination: Address)
    requires Inv(s)
    ensures Inv(Step(s, Route(destination)))
  {
    TrafficStays(s, Route(destination));
    QuietKeepsInv(s, Step(s, Route(destination)));
  }

  lemma AdmitKeepsInv(s: Server)
    requires Inv(s)
    ensures Inv(Step(s, Admit))
  {
    TrafficStays(s, Admit);
    if s.tun.Selected? && s.tun.session.key in s.devices.active { CheckIsSound(s, s.tun.session); }
    QuietKeepsInv(s, Step(s, Admit));
  }

  lemma SealOutKeepsInv(s: Server, complete: bool)
    requires Inv(s)
    ensures Inv(Step(s, SealOut(complete)))
  {
    TrafficStays(s, SealOut(complete));
    QuietKeepsInv(s, Step(s, SealOut(complete)));
  }

  lemma TransmitKeepsInv(s: Server, count: nat)
    requires Inv(s)
    ensures Inv(Step(s, Transmit(count)))
  {
    TrafficStays(s, Transmit(count));
    QuietKeepsInv(s, Step(s, Transmit(count)));
  }

  lemma HelloKeepsInv(s: Server, e: Event)
    requires Inv(s) && (e.Hello? || e.Abandon?)
    ensures Inv(Step(s, e))
  {
    TrafficStays(s, e);
  }

  lemma StepKeepsInv(s: Server, e: Event)
    requires Inv(s)
    ensures Inv(Step(s, e))
  {
    match e
    case Administer(a) => AdministerKeepsInv(s, a);
    case Install(masked) =>
      if s.udp.Authorized? { InstallKeepsInv(s, masked); } else { TrafficStays(s, e); }
    case Hello(_, _, _, _, _) => HelloKeepsInv(s, e);
    case Abandon => HelloKeepsInv(s, e);
    case Lookup(id, wire) => LookupKeepsInv(s, id, wire);
    case Clear => ClearKeepsInv(s);
    case Unseal(source, written) => UnsealKeepsInv(s, source, written);
    case Route(destination) => RouteKeepsInv(s, destination);
    case Admit => AdmitKeepsInv(s);
    case SealOut(complete) => SealOutKeepsInv(s, complete);
    case Transmit(count) => TransmitKeepsInv(s, count);
  }

  lemma {:induction false} RunKeepsInv(leases: Leases, events: seq<Event>)
    requires Injective(leases)
    ensures Inv(Run(leases, events))
  {
    if events != [] {
      RunKeepsInv(leases, events[..|events| - 1]);
      StepKeepsInv(Run(leases, events[..|events| - 1]), events[|events| - 1]);
    }
  }

  // ------------------------------------------------------------------- theorems

  /**
   * In every run, whatever is written or sent carries the address granted to its session's key,
   * on the side where that address belongs, and came in under that device's wire keys if
   * it was masked; nobody else held the address when the packet
   * was checked; and the check came before any revocation of that key returned.
   */
  lemma ForwardingIsSafe(leases: Leases, events: seq<Event>, i: nat)
    requires Injective(leases) && i < |Run(leases, events).log|
    ensures var s := Run(leases, events);
            var f := s.log[i];
            var key := f.ticket.session.key;
            && key in s.devices.granted
            && (if f.Uplink? then f.source else f.destination) == s.devices.granted[key]
            && (f.Uplink? ==> f.incoming.AllowsClient(key))
            && (forall k :: k in f.ticket.leases && f.ticket.leases[k] == s.devices.granted[key] ==> k == key)
            && (key in s.devices.revokedAt ==> f.ticket.time < s.devices.revokedAt[key])
  {
    RunKeepsInv(leases, events);
    var s := Run(leases, events);
    assert ForwardInv(s.devices, s.table.serial, s.time, s.log[i]);
  }

  // ------------------------------------------------------------- undisturbed paths

  /** An uplink frame handled without interruption is written exactly if session, flag, format, source and device agree. */
  lemma UplinkExactly(s: Server, id: u64, wire: WireMode, source: Option<Address>, written: bool)
    requires s.udp.Idle?
    ensures var t := Step(Step(Step(s, Lookup(id, wire)), Clear), Unseal(source, written));
            && t.udp == Idle && t.tun == s.tun && t.batch == s.batch && t.devices == s.devices && t.table == s.table
            && t.log == s.log +
                 if id in s.table.index.byId && s.table.index.byId[id].key in s.devices.active &&
                    s.table.index.byId[id].wire == wire && source == Some(s.table.index.byId[id].address) && written
                 then [Uplink(Ticket(s.table.index.byId[id], s.time + 1, s.devices.leases), source.value, wire)]
                 else []
  {
    if id in s.table.index.byId { MatchesExactly(s.table.index.byId[id].wire, wire); }
  }

  /** A TUN packet handled without interruption is sealed exactly if a session has its destination and the flag is up. */
  lemma DownlinkExactly(s: Server, destination: Address, complete: bool)
    requires s.tun.Resting?
    ensures var t := Step(Step(Step(s, Route(destination)), Admit), SealOut(complete));
            && t.tun == Resting && t.udp == s.udp && t.log == s.log && t.devices == s.devices && t.table == s.table
            && t.batch == s.batch +
                 if |s.batch| < 32 && destination in s.table.index.byAddress &&
                    s.table.index.byAddress[destination].key in s.devices.active && complete
                 then [Downlink(Ticket(s.table.index.byAddress[destination], s.time + 1, s.devices.leases), destination)]
                 else []
  {
  }

  /** Sending takes the first datagrams of the batch in order and forgets the rest. */
  lemma TransmitExactly(s: Server, count: nat)
    requires s.tun.Resting? && count <= |s.batch|
    ensures var t := Step(s, Transmit(count));
            t.batch == [] && t.log == s.log + s.batch[..count] && t.udp == s.udp && t.tun == Resting
  {
  }

  /**
   * A handshake handled without interruption opens a session for its key's leased address, under
   * its id and format, exactly if the key is leased and allowed, the request is not the cached
   * one, and the id does not belong to another address.
   */
  lemma HandshakeExactly(s: Server, key: PublicKey, id: u64, request: seq<byte>, wire: WireMode, masked: bool)
    requires s.udp.Idle? && s.devices.revoking.None?
    ensures var t := Step(Step(s, Hello(key, id, request, wire, masked)), Install(masked));
            var index := s.table.index;
            var opens := && key in s.devices.leases && wire.AllowsClient(key)
                         && !(key in s.table.cache && s.table.cache[key].request == request)
                         && !(id in index.byId && index.byId[id].address != s.devices.leases[key]);
            && t.udp == Idle && t.devices == s.devices && t.log == s.log && t.batch == s.batch && t.tun == s.tun
            && (!opens ==> t.table.index == index && t.table.cache == s.table.cache)
            && (opens ==>
                  var session := Session(s.table.serial, key, s.devices.leases[key], wire);
                  && id in t.table.index.byId && t.table.index.byId[id] == session
                  && t.table.index.byAddress == index.byAddress[session.address := session]
                  && t.table.cache == if wire.Legacy? || masked then s.table.cache[key := Cached(request, session)] else s.table.cache)
  {
  }

  /** A new device gets its address and a raised flag exactly if its key is new and the address free. */
  lemma ProvisionExactly(d: Devices, time: nat, key: PublicKey, address: Address)
    requires d.revoking.None?
    ensures var e := OnAdmin(d, time, Provision(key, address));
            if key in d.granted || address in d.leases.Values then e == d
            else e.leases == d.leases[key := address] && e.active == d.active + {key} && key in e.granted && e.granted[key] == address
  {
  }

  /** A revocation takes record and flag of its own key, exactly if that is leased and not the last. */
  lemma RevokeExactly(d: Devices, time: nat, key: PublicKey)
    requires d.revoking.None?
    ensures var e := OnAdmin(OnAdmin(d, time, RevokeRecord(key)), time + 1, RevokeFlag);
            if key !in d.leases || d.leases.Keys == {key} then e == d
            else && e.leases == d.leases - {key} && e.active == d.active - {key} && e.granted == d.granted
                 && e.revoking == None && key in e.revokedAt && e.revokedAt[key] == time + 1
  {
  }

  // ----------------------------------------------------------- sessions and cache

  /** Both session indexes name the same sessions, one id and one address each, in every run. */
  lemma IndexesStayBijective(leases: Leases, events: seq<Event>)
    requires Injective(leases)
    ensures Bijective(Run(leases, events).table.index)
  {
    RunKeepsInv(leases, events);
  }

  /**
   * A repeated handshake changes neither index, and is answered with the cached response if
   * that can be masked. The response belongs to the installed session if and only if the
   * response of the latest one could be masked.
   */
  lemma RepeatIsHarmless(leases: Leases, events: seq<Event>, key: PublicKey, id: u64, wire: WireMode, masked: bool)
    requires Injective(leases)
    requires var s := Run(leases, events);
             s.udp.Idle? && s.devices.revoking.None? && wire.AllowsClient(key) && key in s.devices.leases && key in s.table.cache
    ensures var s := Run(leases, events);
            var t := Step(s, Hello(key, id, s.table.cache[key].request, wire, masked));
            && t.table.index == s.table.index && t.table.cache == s.table.cache && t.udp == Idle
            && t.table.answered == s.table.answered + (if Masks(wire, masked) then [s.table.cache[key].session] else [])
            && (Consistent(s.table, key, s.devices.leases[key]) <==> key !in s.table.unmasked)
  {
    RunKeepsInv(leases, events);
  }

  ghost function TwoDevices(a: PublicKey, b: PublicKey): Leases { map[a := 7, b := 8] }

  /** Two devices, the first with a masked session. */
  ghost function OneSession(a: PublicKey, b: PublicKey, request: seq<byte>): Server {
    var session := Session(0, a, 7, SpeedyWire(a));
    Boot(TwoDevices(a, b)).(time := 2, table := Table(Index(map[0 := session], map[7 := session]),
                                                      map[a := Cached(request, session)], {}, [session], 1))
  }

  /** One handshake reaches that state. */
  lemma SessionOpens(a: PublicKey, b: PublicKey, request: seq<byte>)
    requires a != b
    ensures var greeted := Step(Boot(TwoDevices(a, b)), Hello(a, 0, request, SpeedyWire(a), true));
            Step(greeted, Install(true)) == OneSession(a, b, request)
  {
    var greeted := Step(Boot(TwoDevices(a, b)), Hello(a, 0, request, SpeedyWire(a), true));
    var session := Session(0, a, 7, SpeedyWire(a));
    assert greeted.udp == Authorized(Greeting(a, 7, 0, request, SpeedyWire(a)));
    var t := OnInstall(greeted.table, greeted.udp.greeting, true);
    assert t.index == Index(map[0 := session], map[7 := session]);
    assert t == OneSession(a, b, request).table;
  }

  /** A second session whose response cannot be masked; a late repeat of the first request is answered for the first. */
  lemma StaleResponse(a: PublicKey, b: PublicKey, first: seq<byte>, second: seq<byte>)
    requires a != b && first != second
    ensures var wire := SpeedyWire(a);
            var replaced := Step(Step(OneSession(a, b, first), Hello(a, 0, second, wire, true)), Install(false));
            var s := Step(replaced, Hello(a, 0, first, wire, true));
            && 7 in s.table.index.byAddress && s.table.index.byAddress[7] == Session(1, a, 7, wire)
            && s.table.answered == [Session(0, a, 7, wire), Session(0, a, 7, wire)]
  {
    var wire := SpeedyWire(a);
    var greeted := Step(OneSession(a, b, first), Hello(a, 0, second, wire, true));
    assert greeted.udp == Authorized(Greeting(a, 7, 0, second, wire));
    var t := OnInstall(greeted.table, greeted.udp.greeting, false);
    assert t.index.byAddress[7] == Session(1, a, 7, wire) && t.cache == OneSession(a, b, first).table.cache;
  }

  /** No install of the run leaves its response unmasked. */
  ghost predicate AllMasked(leases: Leases, events: seq<Event>) {
    forall k :: 0 <= k < |events| ==>
      var s := At(leases, events, k);
      events[k].Install? && s.udp.Authorized? ==> Masks(s.udp.greeting.wire, events[k].masked)
  }

  lemma {:induction false} NoneUnmasked(leases: Leases, events: seq<Event>, n: nat)
    requires n <= |events| && AllMasked(leases, events)
    ensures At(leases, events, n).table.unmasked == {}
  {
    if n > 0 {
      NoneUnmasked(leases, events, n - 1);
      AtNext(leases, events, n - 1);
    }
  }

  /** In a run whose responses can all be masked, no device is ever left with a stale response. */
  lemma MaskedRunsStayConsistent(leases: Leases, events: seq<Event>)
    requires Injective(leases) && AllMasked(leases, events)
    ensures var s := Run(leases, events);
            && s.table.unmasked == {}
            && forall k :: k in s.table.cache && k in s.devices.leases ==> Consistent(s.table, k, s.devices.leases[k])
  {
    RunKeepsInv(leases, events);
    NoneUnmasked(leases, events, |events|);
    assert events[..|events|] == events;
  }
}
