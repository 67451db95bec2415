/**
 * Routing tags: which device, protocol and profile an incoming frame belongs to.
 *
 * Keys and tags come from uninterpreted functions, so any two claims may collide. The
 * tables are right when a tag routes to its claim if exactly one claim produces it, and
 * is ambiguous if two or more do.
 */
module Router {
  import opened Bytes

  type Key = seq<byte>
  type Tag = seq<byte>

  datatype Profile = Quiet | Balanced | Paranoid

  function EpochSeconds(p: Profile): (s: nat)
    ensures s > 0
  {
    match p
    case Quiet => 30
    case Balanced => 5
    case Paranoid => 1
  }

  const SPEEDY_EPOCH_SECONDS: nat := 10

  function EpochBefore(e: nat): nat { if e == 0 then 0 else e - 1 }
  function EpochAfter(e: nat): nat { if e >= U64_LIMIT - 1 then U64_LIMIT - 1 else e + 1 }

  /** Accepted epochs in the order in which each protocol lists them. */
  function MorphEpochs(e: nat): (s: seq<nat>) { [EpochBefore(e), e, EpochAfter(e)] }
  function SpeedyEpochs(e: nat): (s: seq<nat>) { [e, EpochBefore(e), EpochAfter(e)] }

  /** Both protocols accept the current epoch and its neighbours, and no other. */
  lemma EpochWindow(e: nat, current: nat)
    requires e < U64_LIMIT && current < U64_LIMIT
    ensures e in MorphEpochs(current) <==> current <= e + 1 && e <= current + 1
    ensures e in SpeedyEpochs(current) <==> current <= e + 1 && e <= current + 1
  {
    var epochs := MorphEpochs(current);
    assert e in epochs <==> e == epochs[0] || e == epochs[1] || e == epochs[2];
    var speedy := SpeedyEpochs(current);
    assert e in speedy <==> e == speedy[0] || e == speedy[1] || e == speedy[2];
  }

  /** Key derivation and client-to-server tags as one server computes them. */
  datatype Keyring = Keyring(
    morphKey: PublicKey -> Option<Key>,
    speedyKey: PublicKey -> Option<Key>,
    morphTag: (Key, Profile, nat) -> Tag,
    speedyTag: (Key, nat) -> Tag)

  // -------------------------------------------------------------- specification

  /** One way to claim a tag: a device, a protocol with its profile, and an epoch slot. */
  datatype Claim =
    | Morph(device: PublicKey, profile: Profile, slot: nat)
    | Speedy(device: PublicKey, slot: nat)

  datatype MorphRoute = MorphRoute(publicKey: PublicKey, key: Key, profile: Profile)
  datatype SpeedyRoute = SpeedyRoute(publicKey: PublicKey, key: Key)
  datatype Tables = Tables(routes: map<Tag, MorphRoute>, speedy: map<Tag, SpeedyRoute>, ambiguous: set<Tag>)

  function KeyOr(k: Option<Key>): Key { if k.Some? then k.value else [] }

  /** All claims of a device set: nine Morph and three Speedy slots a device. */
  ghost function AllClaims(k: Keyring, devices: set<PublicKey>): iset<Claim> {
    iset c: Claim | c.device in devices && k.morphKey(c.device).Some? && c.slot < 3
  }

  ghost function TagOf(k: Keyring, clock: nat, c: Claim): Tag {
    if c.slot >= 3 then []
    else match c
      case Morph(device, profile, slot) =>
        k.morphTag(KeyOr(k.morphKey(device)), profile, MorphEpochs(clock / EpochSeconds(profile))[slot])
      case Speedy(device, slot) =>
        k.speedyTag(KeyOr(k.speedyKey(device)), SpeedyEpochs(clock / SPEEDY_EPOCH_SECONDS)[slot])
  }

  function MorphRouteOf(k: Keyring, c: Claim): MorphRoute
    requires c.Morph?
  {
    MorphRoute(c.device, KeyOr(k.morphKey(c.device)), c.profile)
  }

  function SpeedyRouteOf(k: Keyring, c: Claim): SpeedyRoute {
    SpeedyRoute(c.device, KeyOr(k.speedyKey(c.device)))
  }

  /** The claims that produce `tag`. */
  ghost function Claimants(k: Keyring, clock: nat, made: iset<Claim>, tag: Tag): iset<Claim> {
    iset c: Claim | c in made && TagOf(k, clock, c) == tag
  }

  /** The tables place `tag` as its claimants demand. */
  ghost predicate RightAt(k: Keyring, clock: nat, made: iset<Claim>, t: Tables, tag: Tag) {
    var who := Claimants(k, clock, made, tag);
    && (tag in t.routes ==> exists c: Claim :: c.Morph? && who == iset{c} && t.routes[tag] == MorphRouteOf(k, c))
    && (tag in t.speedy ==> exists c: Claim :: c.Speedy? && who == iset{c} && t.speedy[tag] == SpeedyRouteOf(k, c))
    && (tag in t.ambiguous ==> exists c, d :: c in who && d in who && c != d)
    && (forall c :: c in who ==> tag in t.routes || tag in t.speedy || tag in t.ambiguous)
  }

  ghost predicate Right(k: Keyring, clock: nat, made: iset<Claim>, t: Tables) {
    forall tag :: RightAt(k, clock, made, t, tag)
  }

  /**
   * Routed if and only if exactly one claim produces the tag, ambiguous if and only if
   * two or more do, and never in two tables at once.
   */
  lemma RoutedIffSoleClaim(k: Keyring, clock: nat, made: iset<Claim>, t: Tables, tag: Tag)
    requires Right(k, clock, made, t)
    ensures tag in t.routes || tag in t.speedy <==> exists c: Claim :: Claimants(k, clock, made, tag) == iset{c}
    ensures tag in t.ambiguous <==>
            exists c, d :: c in made && d in made && c != d && TagOf(k, clock, c) == tag && TagOf(k, clock, d) == tag
    ensures !(tag in t.routes && tag in t.speedy)
    ensures !(tag in t.routes && tag in t.ambiguous) && !(tag in t.speedy && tag in t.ambiguous)
  {
    assert RightAt(k, clock, made, t, tag);
    if c :| Claimants(k, clock, made, tag) == iset{c} {
      assert c in Claimants(k, clock, made, tag);
    }
    if c, d :| c in made && d in made && c != d && TagOf(k, clock, c) == tag && TagOf(k, clock, d) == tag {
      assert c in Claimants(k, clock, made, tag) && d in Claimants(k, clock, made, tag);
    }
  }

  lemma SamePlace(k: Keyring, clock: nat, made: iset<Claim>, t: Tables, u: Tables, tag: Tag)
    requires RightAt(k, clock, made, t, tag) && RightAt(k, clock, made, u, tag)
    ensures tag in t.routes ==> tag in u.routes && t.routes[tag] == u.routes[tag]
    ensures tag in t.speedy ==> tag in u.speedy && t.speedy[tag] == u.speedy[tag]
    ensures tag in t.ambiguous ==> tag in u.ambiguous
  {
    var who := Claimants(k, clock, made, tag);
    if tag in t.routes || tag in t.speedy {
      var c :| who == iset{c};
      assert c in who;
    }
  }

  /** The claims determine the tables: neither visiting order nor caches can show. */
  lemma RightIsUnique(k: Keyring, clock: nat, made: iset<Claim>, t: Tables, u: Tables)
    requires Right(k, clock, made, t) && Right(k, clock, made, u)
    ensures t == u
  {
    forall tag
      ensures tag in t.routes ==> tag in u.routes && t.routes[tag] == u.routes[tag]
      ensures tag in u.routes ==> tag in t.routes
      ensures tag in t.speedy ==> tag in u.speedy && t.speedy[tag] == u.speedy[tag]
      ensures tag in u.speedy ==> tag in t.speedy
      ensures tag in t.ambiguous <==> tag in u.ambiguous
    {
      SamePlace(k, clock, made, t, u, tag);
      SamePlace(k, clock, made, u, t, tag);
    }
    assert t.routes == u.routes && t.speedy == u.speedy && t.ambiguous == u.ambiguous;
  }

  // ------------------------------------------------------------- own tag contested

  function Period(c: Claim): (s: nat)
    ensures s > 0
  {
    if c.Morph? then EpochSeconds(c.profile) else SPEEDY_EPOCH_SECONDS
  }

  function EpochAt(clock: nat, c: Claim): nat
    requires c.slot < 3
  {
    if c.Morph? then MorphEpochs(clock / Period(c))[c.slot] else SpeedyEpochs(clock / Period(c))[c.slot]
  }

  /** Both claims stand for one device, format and epoch, and so for one tag. */
  predicate SameOrigin(clock: nat, c: Claim, d: Claim)
    requires c.slot < 3 && d.slot < 3
  {
    && c.device == d.device && c.Morph? == d.Morph? && (c.Morph? ==> c.profile == d.profile)
    && EpochAt(clock, c) == EpochAt(clock, d)
  }

  /** The first epoch is its own predecessor and the last its own successor; no other slots coincide. */
  lemma SlotsCoincide(clock: nat, c: Claim, d: Claim)
    requires c.slot < 3 && d.slot < 3 && clock < U64_LIMIT
    requires SameOrigin(clock, c, d) && c != d
    ensures clock / Period(c) == 0 || clock / Period(c) == U64_LIMIT - 1
  {
  }

  /** The claim of the other slot that names the current epoch, in a first or last epoch. */
  function Twin(c: Claim, epoch: nat): Claim {
    match c
    case Morph(device, profile, slot) => Morph(device, profile, if slot != 1 then 1 else if epoch == 0 then 0 else 2)
    case Speedy(device, slot) => Speedy(device, if slot != 0 then 0 else if epoch == 0 then 1 else 2)
  }

  lemma TwinContests(k: Keyring, clock: nat, devices: set<PublicKey>, c: Claim)
    requires clock < U64_LIMIT && c in AllClaims(k, devices) && EpochAt(clock, c) == clock / Period(c)
    requires clock / Period(c) == 0 || clock / Period(c) == U64_LIMIT - 1
    ensures var d := Twin(c, clock / Period(c));
            d != c && d in AllClaims(k, devices) && TagOf(k, clock, d) == TagOf(k, clock, c)
  {
  }

  /**
   * A device's current tag is routed if and only if no claim of another device, format or
   * epoch collides with it and the epoch is neither the first nor the last that 64 bits count.
   */
  lemma OwnTagIsRouted(k: Keyring, clock: nat, devices: set<PublicKey>, t: Tables, c: Claim)
    requires Right(k, clock, AllClaims(k, devices), t) && clock < U64_LIMIT
    requires c in AllClaims(k, devices) && EpochAt(clock, c) == clock / Period(c)
    ensures var tag := TagOf(k, clock, c);
            tag in t.routes || tag in t.speedy <==>
            && clock >= Period(c) && clock / Period(c) < U64_LIMIT - 1
            && forall d :: d in AllClaims(k, devices) && TagOf(k, clock, d) == tag ==> SameOrigin(clock, c, d)
  {
    var all, tag, epoch := AllClaims(k, devices), TagOf(k, clock, c), clock / Period(c);
    RoutedIffSoleClaim(k, clock, all, t, tag);
    assert c in Claimants(k, clock, all, tag);
    assert RightAt(k, clock, all, t, tag);
    if epoch == 0 || epoch == U64_LIMIT - 1 {
      TwinContests(k, clock, devices, c);
    } else {
      forall d | d in all && TagOf(k, clock, d) == tag && SameOrigin(clock, c, d) ensures d == c {
        if d != c { SlotsCoincide(clock, c, d); }
      }
    }
  }

  /** While its first epoch lasts, a device contests its own tag, in either format: 0 - 1 saturates to 0. */
  lemma FirstEpochIsAmbiguous(k: Keyring, clock: nat, devices: set<PublicKey>, t: Tables, c: Claim)
    requires Right(k, clock, AllClaims(k, devices), t)
    requires c in AllClaims(k, devices) && clock < Period(c) && clock < U64_LIMIT && EpochAt(clock, c) == 0
    ensures TagOf(k, clock, c) in t.ambiguous
  {
    OwnTagIsRouted(k, clock, devices, t, c);
    assert c in Claimants(k, clock, AllClaims(k, devices), TagOf(k, clock, c));
    assert RightAt(k, clock, AllClaims(k, devices), t, TagOf(k, clock, c));
  }

  // ------------------------------------------------------------ adding one claim

  function AddMorph(t: Tables, tag: Tag, route: MorphRoute): Tables {
    if tag in t.ambiguous then t
    else if tag in t.speedy then t.(speedy := t.speedy - {tag}, ambiguous := t.ambiguous + {tag})
    else if tag in t.routes then t.(routes := t.routes - {tag}, ambiguous := t.ambiguous + {tag})
    else t.(routes := t.routes[tag := route])
  }

  function AddSpeedy(t: Tables, tag: Tag, route: SpeedyRoute): Tables {
    if tag in t.ambiguous then t
    else if tag in t.routes then t.(routes := t.routes - {tag}, ambiguous := t.ambiguous + {tag})
    else if tag in t.speedy then t.(speedy := t.speedy - {tag}, ambiguous := t.ambiguous + {tag})
    else t.(speedy := t.speedy[tag := route])
  }

  lemma AddKeepsRight(k: Keyring, clock: nat, made: iset<Claim>, t: Tables, c: Claim)
    requires Right(k, clock, made, t) && c !in made
    ensures var tag := TagOf(k, clock, c);
            Right(k, clock, made + iset{c},
                  if c.Morph? then AddMorph(t, tag, MorphRouteOf(k, c)) else AddSpeedy(t, tag, SpeedyRouteOf(k, c)))
  {
    var tag := TagOf(k, clock, c);
    var u := if c.Morph? then AddMorph(t, tag, MorphRouteOf(k, c)) else AddSpeedy(t, tag, SpeedyRouteOf(k, c));
    forall other ensures RightAt(k, clock, made + iset{c}, u, other) {
      assert RightAt(k, clock, made, t, other);
      var was, now := Claimants(k, clock, made, other), Claimants(k, clock, made + iset{c}, other);
      if other != tag {
        assert was == now;
      } else {
        assert now == was + iset{c};
        assert was == iset{} ==> now == iset{c};
      }
    }
  }

  // ------------------------------------------------------------- implementation

  const PROFILES: seq<Profile> := [Quiet, Balanced, Paranoid]

  /** Morph claims of one device made before position `p`, `e` of the profile and epoch loops. */
  ghost function MorphBefore(device: PublicKey, p: nat, e: nat): iset<Claim>
    requires p <= 3
  {
    iset c: Claim | c.Morph? && c.device == device && c.slot < 3 &&
                    (c.profile in PROFILES[..p] || (p < 3 && c.profile == PROFILES[p] && c.slot < e))
  }

  ghost function SpeedyBefore(device: PublicKey, e: nat): iset<Claim> {
    iset c: Claim | c.Speedy? && c.device == device && c.slot < e
  }

  /** A device's nine Morph and three Speedy claims are all of its claims. */
  lemma DeviceDone(k: Keyring, done: set<PublicKey>, device: PublicKey)
    requires device !in done && k.morphKey(device).Some?
    ensures AllClaims(k, done) + MorphBefore(device, 3, 0) + SpeedyBefore(device, 3) == AllClaims(k, done + {device})
  {
    assert PROFILES[..3] == [Quiet, Balanced, Paranoid];
    forall c: Claim | c in AllClaims(k, done + {device})
      ensures c in AllClaims(k, done) + MorphBefore(device, 3, 0) + SpeedyBefore(device, 3)
    {
      if c.Morph? && c.device == device {
        match c.profile
        case Quiet => assert PROFILES[..3][0] == c.profile;
        case Balanced => assert PROFILES[..3][1] == c.profile;
        case Paranoid => assert PROFILES[..3][2] == c.profile;
      }
    }
  }

  class MorphRouter {
    const keyring: Keyring
    var epoch: Option<nat>
    var keys: map<PublicKey, Key>
    var speedyCodecs: map<PublicKey, Key>
    var tables: Tables

    /** Cached keys are the derived ones. */
    ghost predicate Valid()
      reads this
    {
      && (forall d :: d in keys ==> keyring.morphKey(d) == Some(keys[d]))
      && (forall d :: d in speedyCodecs ==> keyring.speedyKey(d) == Some(speedyCodecs[d]))
    }

    constructor (keyring: Keyring)
      ensures Valid() && this.keyring == keyring && tables == Tables(map[], map[], {}) && epoch == None
    {
      this.keyring := keyring;
      epoch, keys, speedyCodecs, tables := None, map[], map[], Tables(map[], map[], {});
    }

    method AddMorphRoutes(device: PublicKey, key: Key, clock: nat, ghost made: iset<Claim>)
      requires Valid() && keyring.morphKey(device) == Some(key)
      requires Right(keyring, clock, made, tables) && forall c :: c in made ==> c.device != device
      modifies this`tables
      ensures Right(keyring, clock, made + MorphBefore(device, 3, 0), tables)
    {
      assert made + MorphBefore(device, 0, 0) == made;
      for p := 0 to 3
        invariant Right(keyring, clock, made + MorphBefore(device, p, 0), tables)
      {
        var profile := PROFILES[p];
        var route := MorphRoute(device, key, profile);
        var epochs := MorphEpochs(clock / EpochSeconds(profile));
        for e := 0 to 3
          invariant Right(keyring, clock, made + MorphBefore(device, p, e), tables)
        {
          ghost var c := Morph(device, profile, e);
          AddKeepsRight(keyring, clock, made + MorphBefore(device, p, e), tables, c);
          assert made + MorphBefore(device, p, e) + iset{c} == made + MorphBefore(device, p, e + 1);
          tables := AddMorph(tables, keyring.morphTag(key, profile, epochs[e]), route);
        }
        assert made + MorphBefore(device, p, 3) == made + MorphBefore(device, p + 1, 0);
      }
    }

    /** The device's Speedy key, derived at most once while the device stays registered. */
    method SpeedyCodec(device: PublicKey) returns (codec: Option<Key>)
      requires Valid()
      modifies this`speedyCodecs
      ensures Valid() && speedyCodecs.Keys <= old(speedyCodecs.Keys) + {device}
      ensures codec == keyring.speedyKey(device)
    {
      if device !in speedyCodecs {
        match keyring.speedyKey(device)
        case None => return None;
        case Some(derived) => speedyCodecs := speedyCodecs[device := derived];
      }
      codec := Some(speedyCodecs[device]);
    }

    method AddSpeedyRoutes(device: PublicKey, codec: Key, clock: nat, ghost made: iset<Claim>)
      requires keyring.speedyKey(device) == Some(codec)
      requires Right(keyring, clock, made, tables) && forall c :: c in made && c.Speedy? ==> c.device != device
      modifies this`tables
      ensures Right(keyring, clock, made + SpeedyBefore(device, 3), tables)
    {
      var epochs := SpeedyEpochs(clock / SPEEDY_EPOCH_SECONDS);
      assert made + SpeedyBefore(device, 0) == made;
      for e := 0 to 3
        invariant Right(keyring, clock, made + SpeedyBefore(device, e), tables)
      {
        ghost var c := Speedy(device, e);
        AddKeepsRight(keyring, clock, made + SpeedyBefore(device, e), tables, c);
        assert made + SpeedyBefore(device, e) + iset{c} == made + SpeedyBefore(device, e + 1);
        tables := AddSpeedy(tables, keyring.speedyTag(codec, epochs[e]), SpeedyRoute(device, codec));
      }
    }

    /** One round of the refresh loop; a device without a Morph key claims nothing. */
    method AddDevice(device: PublicKey, clock: nat, ghost done: set<PublicKey>) returns (ok: bool)
      requires Valid() && device !in done && Right(keyring, clock, AllClaims(keyring, done), tables)
      modifies this`keys, this`speedyCodecs, this`tables
      ensures Valid() && keys.Keys <= old(keys.Keys) + {device} && speedyCodecs.Keys <= old(speedyCodecs.Keys) + {device}
      ensures ok <==> (keyring.morphKey(device).Some? ==> keyring.speedyKey(device).Some?)
      ensures ok ==> Right(keyring, clock, AllClaims(keyring, done + {device}), tables)
    {
      ghost var made := AllClaims(keyring, done);
      if device !in keys {
        match keyring.morphKey(device)
        case None =>
          assert AllClaims(keyring, done + {device}) == made;
          return true;
        case Some(derived) => keys := keys[device := derived];
      }
      AddMorphRoutes(device, keys[device], clock, made);
      var codec := SpeedyCodec(device);
      if codec.None? {
        return false;
      }
      AddSpeedyRoutes(device, codec.value, clock, made + MorphBefore(device, 3, 0));
      DeviceDone(keyring, done, device);
      ok := true;
    }

    /** Devices are visited in no particular order. */
    method Refresh(now: nat, clock: nat, devices: set<PublicKey>) returns (ok: bool)
      requires Valid()
      modifies this
      ensures Valid() && keys.Keys <= devices && speedyCodecs.Keys <= devices
      ensures ok <==> forall d :: d in devices && keyring.morphKey(d).Some? ==> keyring.speedyKey(d).Some?
      ensures ok ==> epoch == Some(now) && Right(keyring, clock, AllClaims(keyring, devices), tables)
      ensures !ok ==> epoch == old(epoch)
    {
      keys := map d | d in keys && d in devices :: keys[d];
      speedyCodecs := map d | d in speedyCodecs && d in devices :: speedyCodecs[d];
      tables := Tables(map[], map[], {});
      var rest := devices;
      ghost var done: set<PublicKey> := {};
      assert AllClaims(keyring, done) == iset{};
      while rest != {}
        invariant done + rest == devices && done !! rest
        invariant Valid() && keys.Keys <= devices && speedyCodecs.Keys <= devices && epoch == old(epoch)
        invariant forall d :: d in done && keyring.morphKey(d).Some? ==> keyring.speedyKey(d).Some?
        invariant Right(keyring, clock, AllClaims(keyring, done), tables)
      {
        var device :| device in rest;
        var added := AddDevice(device, clock, done);
        if !added {
          return false;
        }
        done, rest := done + {device}, rest - {device};
      }
      assert done == devices;
      epoch := Some(now);
      ok := true;
    }
  }
}
