/** The device registry: records, leases and revocable authorizations. */
module Registry {
  import opened Bytes
  import opened Subnet

  datatype Platform = Android | Linux
  datatype Record = Record(name: seq<byte>, platform: Platform, publicKey: string, address: Address)

  datatype Problem =
    | NoDevices | BadPrefix | BadName | BadKey | DuplicateKey | OutsideSubnet | DuplicateAddress
    | PoolExhausted | LastDevice | NotPersisted

  /** Text form of public keys. */
  datatype KeyText = KeyText(encode: PublicKey -> string, decode: string -> Option<PublicKey>)

  /** Keys and their texts correspond one to one. */
  ghost predicate Faithful(t: KeyText) {
    && (forall k :: t.decode(t.encode(k)) == Some(k))
    && (forall s :: t.decode(s).Some? ==> t.encode(t.decode(s).value) == s)
  }

  const MAX_DEVICE_NAME_LEN: nat := 80

  /** One to 80 bytes of UTF-8 without C0, DEL or C1 control characters. */
  predicate ValidName(name: seq<byte>) {
    && 1 <= |name| <= MAX_DEVICE_NAME_LEN
    && (forall i :: 0 <= i < |name| ==> 32 <= name[i] && name[i] != 127)
    && (forall i :: 0 <= i < |name| - 1 ==> !(name[i] == 0xC2 && 0x80 <= name[i + 1] < 0xA0))
  }

  ghost predicate ValidRecord(t: KeyText, d: Record, tunnel: Address, mask: Address) {
    && ValidName(d.name) && t.decode(d.publicKey).Some?
    && d.address != tunnel && NetworkOf(d.address, mask) == NetworkOf(tunnel, mask)
  }

  ghost predicate Distinct(t: KeyText, devices: seq<Record>) {
    forall i, j :: 0 <= i < j < |devices| ==>
      t.decode(devices[i].publicKey) != t.decode(devices[j].publicKey) && devices[i].address != devices[j].address
  }

  ghost predicate ValidDevices(t: KeyText, devices: seq<Record>, tunnel: Address, prefixLen: nat) {
    && devices != [] && PrefixMask(prefixLen).Some?
    && (forall i :: 0 <= i < |devices| ==> ValidRecord(t, devices[i], tunnel, PrefixMask(prefixLen).value))
    && Distinct(t, devices)
  }

  ghost function KeySet(t: KeyText, devices: seq<Record>): set<Option<PublicKey>> {
    set i | 0 <= i < |devices| :: t.decode(devices[i].publicKey)
  }

  ghost function AddressSet(devices: seq<Record>): set<Address> {
    set i | 0 <= i < |devices| :: devices[i].address
  }

  lemma DistinctNext(t: KeyText, devices: seq<Record>, n: nat)
    requires n < |devices| && Distinct(t, devices[..n])
    ensures var d := devices[n];
            && (Distinct(t, devices[..n + 1]) <==>
                t.decode(d.publicKey) !in KeySet(t, devices[..n]) && d.address !in AddressSet(devices[..n]))
            && KeySet(t, devices[..n + 1]) == KeySet(t, devices[..n]) + {t.decode(d.publicKey)}
            && AddressSet(devices[..n + 1]) == AddressSet(devices[..n]) + {d.address}
            && (Distinct(t, devices) ==> Distinct(t, devices[..n + 1]))
  {
    var before, after := devices[..n], devices[..n + 1];
    assert after == before + [devices[n]];
    forall k | k in KeySet(t, before) ensures k in KeySet(t, after) {
      var i :| 0 <= i < n && t.decode(before[i].publicKey) == k;
      assert t.decode(after[i].publicKey) == k;
    }
    forall a | a in AddressSet(before) ensures a in AddressSet(after) {
      var i :| 0 <= i < n && before[i].address == a;
      assert after[i].address == a;
    }
    assert after[n] == devices[n];
    if Distinct(t, after) {
      forall i | 0 <= i < n ensures t.decode(before[i].publicKey) != t.decode(after[n].publicKey) && before[i].address != after[n].address {
        assert before[i] == after[i];
      }
    }
  }

  lemma NameExactly(name: seq<byte>)
    ensures ValidName(name) <==>
            && 0 < |name| <= 80 && (forall j :: 0 <= j < |name| ==> name[j] > 31 && name[j] != 127)
            && (forall j :: 0 < j < |name| && name[j - 1] == 194 ==> name[j] > 159 || name[j] < 128)
  {
    forall i | 0 <= i < |name| - 1
      ensures !(name[i] == 0xC2 && 0x80 <= name[i + 1] < 0xA0) <==> (name[i + 1 - 1] == 194 ==> name[i + 1] > 159 || name[i + 1] < 128) {}
    forall j | 0 < j < |name|
      ensures (name[j - 1] == 194 ==> name[j] > 159 || name[j] < 128) <==> !(name[j - 1] == 0xC2 && 0x80 <= name[j - 1 + 1] < 0xA0) {}
  }

  /** What makes a list of records valid, with names as bytes and the subnet as a block of addresses. */
  lemma ValidExactly(t: KeyText, devices: seq<Record>, tunnel: Address, prefixLen: nat)
    ensures ValidDevices(t, devices, tunnel, prefixLen) <==>
            && devices != [] && 1 <= prefixLen <= 30
            && (forall i :: 0 <= i < |devices| ==>
                  var name, size := devices[i].name, Pow2(32 - prefixLen);
                  && 0 < |name| <= 80 && t.decode(devices[i].publicKey).Some?
                  && (forall j :: 0 <= j < |name| ==> name[j] > 31 && name[j] != 127)
                  && (forall j :: 0 < j < |name| && name[j - 1] == 194 ==> name[j] > 159 || name[j] < 128)
                  && devices[i].address != tunnel && devices[i].address / size == tunnel / size)
            && (forall i, j :: 0 <= i < |devices| && 0 <= j < |devices| && i != j ==>
                  t.decode(devices[i].publicKey) != t.decode(devices[j].publicKey) && devices[i].address != devices[j].address)
  {
    if 1 <= prefixLen <= 30 {
      forall i | 0 <= i < |devices|
        ensures NetworkOf(devices[i].address, PrefixMask(prefixLen).value) == NetworkOf(tunnel, PrefixMask(prefixLen).value) <==>
                devices[i].address / Pow2(32 - prefixLen) == tunnel / Pow2(32 - prefixLen)
        ensures ValidName(devices[i].name) <==>
                var name := devices[i].name;
                && 0 < |name| <= 80 && (forall j :: 0 <= j < |name| ==> name[j] > 31 && name[j] != 127)
                && (forall j :: 0 < j < |name| && name[j - 1] == 194 ==> name[j] > 159 || name[j] < 128)
      {
        SameNetwork(devices[i].address, tunnel, prefixLen);
        NameExactly(devices[i].name);
      }
    }
  }

  method ValidateDevices(t: KeyText, devices: seq<Record>, tunnel: Address, prefixLen: nat) returns (problem: Option<Problem>)
    ensures problem.None? <==> ValidDevices(t, devices, tunnel, prefixLen)
  {
    if devices == [] {
      return Some(NoDevices);
    }
    var mask := PrefixMask(prefixLen);
    if mask.None? {
      return Some(BadPrefix);
    }
    var network := NetworkOf(tunnel, mask.value);
    var keys: set<Option<PublicKey>>, addresses: set<Address> := {}, {};
    for n := 0 to |devices|
      invariant forall i :: 0 <= i < n ==> ValidRecord(t, devices[i], tunnel, mask.value)
      invariant Distinct(t, devices[..n])
      invariant keys == KeySet(t, devices[..n]) && addresses == AddressSet(devices[..n])
    {
      var device := devices[n];
      DistinctNext(t, devices, n);
      if !ValidName(device.name) {
        return Some(BadName);
      }
      var key := t.decode(device.publicKey);
      if key.None? {
        return Some(BadKey);
      }
      if key in keys {
        return Some(DuplicateKey);
      }
      keys := keys + {key};
      if device.address == tunnel || NetworkOf(device.address, mask.value) != network {
        return Some(OutsideSubnet);
      }
      if device.address in addresses {
        return Some(DuplicateAddress);
      }
      addresses := addresses + {device.address};
    }
    assert devices[..|devices|] == devices;
    problem := None;
  }

  ghost predicate Used(devices: seq<Record>, a: Address) {
    exists i :: 0 <= i < |devices| && devices[i].address == a
  }

  /** Every address after the network and below `limit`, other than the tunnel's, is used. */
  ghost predicate NoneFreeBelow(devices: seq<Record>, tunnel: Address, network: int, limit: int) {
    forall b: Address :: network < b < limit && b != tunnel ==> Used(devices, b)
  }

  /**
   * The lowest free address of the subnet's first 65534 host addresses, or nothing if each of
   * them is used.
   */
  method NextAddress(devices: seq<Record>, tunnel: Address, prefixLen: nat) returns (r: Result<Address, Problem>)
    ensures r == Err(BadPrefix) <==> prefixLen == 0 || prefixLen > 30
    ensures 1 <= prefixLen <= 30 ==>
              var size := Pow2(32 - prefixLen);
              var network := tunnel - tunnel % size;
              var end := network + if size <= 65535 then size - 1 else 65535;
              match r
              case Ok(a) =>
                && network < a < end && a != tunnel && !Used(devices, a)
                && forall b: Address :: network < b < a && b != tunnel ==> Used(devices, b)
              case Err(e) =>
                e == PoolExhausted && forall b: Address :: network < b < end && b != tunnel ==> Used(devices, b)
  {
    if PrefixMask(prefixLen).None? {
      return Err(BadPrefix);
    }
    PoolExactly(tunnel, prefixLen);
    var used := set i | 0 <= i < |devices| :: devices[i].address;
    var candidate, end := PoolStart(tunnel, prefixLen), PoolEnd(tunnel, prefixLen);
    ghost var network := candidate - 1;
    while candidate < end
      invariant network < candidate && NoneFreeBelow(devices, tunnel, network, candidate)
    {
      PoolInSubnet(tunnel, prefixLen, candidate);
      if candidate != tunnel && candidate !in used {
        return Ok(candidate);
      }
      candidate := candidate + 1;
    }
    r := Err(PoolExhausted);
  }

  // ------------------------------------------------------------------- registry

  /** The flag shared by a lease and every session opened under it. */
  class Authorization {
    var active: bool

    constructor ()
      ensures active
    {
      active := true;
    }
  }

  datatype Lease = Lease(name: seq<byte>, address: Address, publicKey: PublicKey, authorization: Authorization)

  function Without(devices: seq<Record>, text: string): (rest: seq<Record>)
    ensures |rest| <= |devices|
    ensures forall d :: d in rest <==> d in devices && d.publicKey != text
  {
    if devices == [] then []
    else if devices[0].publicKey == text then Without(devices[1..], text)
    else [devices[0]] + Without(devices[1..], text)
  }

  lemma {:induction false} WithoutKeepsDistinct(t: KeyText, devices: seq<Record>, text: string)
    requires Distinct(t, devices)
    ensures Distinct(t, Without(devices, text))
  {
    if devices != [] {
      WithoutKeepsDistinct(t, devices[1..], text);
      var first, rest := devices[0], Without(devices[1..], text);
      forall j | 0 <= j < |rest| ensures t.decode(first.publicKey) != t.decode(rest[j].publicKey) && first.address != rest[j].address {
        assert rest[j] in devices[1..];
      }
    }
  }

  /** The other records keep their order. */
  lemma {:induction false} WithoutLast(devices: seq<Record>, d: Record, text: string)
    ensures Without([], text) == []
    ensures Without(devices + [d], text) == Without(devices, text) + if d.publicKey == text then [] else [d]
  {
    if devices == [] {
      assert [d][1..] == [] && devices + [d] == [d];
    } else {
      assert (devices + [d])[1..] == devices[1..] + [d];
      WithoutLast(devices[1..], d, text);
    }
  }

  lemma {:induction false} WithoutShrinks(devices: seq<Record>, text: string)
    ensures (exists d :: d in devices && d.publicKey == text) <==> |Without(devices, text)| < |devices|
  {
    if devices != [] {
      WithoutShrinks(devices[1..], text);
      assert forall d :: d in devices <==> d == devices[0] || d in devices[1..];
    }
  }

  /** Leases mirror the records, one for each. */
  ghost predicate Mirrors(t: KeyText, devices: seq<Record>, leases: map<PublicKey, Lease>) {
    && (forall d :: d in devices ==>
          var key := t.decode(d.publicKey);
          && key.Some? && key.value in leases
          && leases[key.value].address == d.address && leases[key.value].name == d.name
          && leases[key.value].publicKey == key.value)
    && (forall k :: k in leases ==> exists d :: d in devices && t.decode(d.publicKey) == Some(k))
  }

  lemma AddRecord(t: KeyText, devices: seq<Record>, tunnel: Address, prefixLen: nat, record: Record)
    requires ValidDevices(t, devices, tunnel, prefixLen)
    requires ValidRecord(t, record, tunnel, PrefixMask(prefixLen).value) && !Used(devices, record.address)
    requires forall d :: d in devices ==> t.decode(d.publicKey) != t.decode(record.publicKey)
    ensures ValidDevices(t, devices + [record], tunnel, prefixLen)
  {
    var next := devices + [record];
    forall i, j | 0 <= i < j < |next|
      ensures t.decode(next[i].publicKey) != t.decode(next[j].publicKey) && next[i].address != next[j].address
    {
      assert next[i] == devices[i] && devices[i] in devices;
    }
  }

  lemma AddMirrors(t: KeyText, devices: seq<Record>, leases: map<PublicKey, Lease>, record: Record, lease: Lease)
    requires Mirrors(t, devices, leases) && t.decode(record.publicKey) == Some(lease.publicKey)
    requires lease.publicKey !in leases && lease.address == record.address && lease.name == record.name
    ensures Mirrors(t, devices + [record], leases[lease.publicKey := lease])
  {
    var next := devices + [record];
    assert record in next;
    forall k | k in leases[lease.publicKey := lease]
      ensures exists d :: d in next && t.decode(d.publicKey) == Some(k)
    {
      if k in leases && k != lease.publicKey {
        var d :| d in devices && t.decode(d.publicKey) == Some(k);
        assert d in next;
      }
    }
  }

  lemma RemoveRecord(t: KeyText, devices: seq<Record>, tunnel: Address, prefixLen: nat, text: string)
    requires ValidDevices(t, devices, tunnel, prefixLen) && Without(devices, text) != []
    ensures ValidDevices(t, Without(devices, text), tunnel, prefixLen)
  {
    WithoutKeepsDistinct(t, devices, text);
    var rest := Without(devices, text);
    forall i | 0 <= i < |rest| ensures ValidRecord(t, rest[i], tunnel, PrefixMask(prefixLen).value) {
      assert rest[i] in devices;
    }
  }

  lemma RemoveMirrors(t: KeyText, devices: seq<Record>, leases: map<PublicKey, Lease>, text: string)
    requires Faithful(t) && Mirrors(t, devices, leases) && t.decode(text).Some?
    ensures Mirrors(t, Without(devices, text), leases - {t.decode(text).value})
  {
    var rest, left := Without(devices, text), leases - {t.decode(text).value};
    forall d | d in rest ensures t.decode(d.publicKey) != t.decode(text) {
      assert d in devices;
    }
    forall k | k in left ensures exists d :: d in rest && t.decode(d.publicKey) == Some(k) {
      var d :| d in devices && t.decode(d.publicKey) == Some(k);
      assert d in rest;
    }
  }

  /** A key is leased exactly when some record carries its text. */
  lemma KeyOfRecord(t: KeyText, devices: seq<Record>, leases: map<PublicKey, Lease>, text: string)
    requires Faithful(t) && Mirrors(t, devices, leases) && t.decode(text).Some?
    ensures t.decode(text).value in leases <==> exists d :: d in devices && d.publicKey == text
  {
    if t.decode(text).value in leases {
      var d :| d in devices && t.decode(d.publicKey) == t.decode(text);
      assert d.publicKey == text;
    }
  }

  lemma UnleasedKey(t: KeyText, devices: seq<Record>, leases: map<PublicKey, Lease>, key: PublicKey)
    requires Mirrors(t, devices, leases) && key !in leases
    ensures forall d :: d in devices ==> t.decode(d.publicKey) != Some(key)
  {
  }

  lemma LastKey(t: KeyText, devices: seq<Record>, leases: map<PublicKey, Lease>, text: string)
    requires Faithful(t) && Mirrors(t, devices, leases) && t.decode(text).Some?
    requires devices != [] && Without(devices, text) == []
    ensures leases.Keys == {t.decode(text).value}
  {
    assert devices[0] in devices;
    assert forall d :: d in devices ==> d.publicKey == text;
  }

  predicate Current(leases: map<PublicKey, Lease>, l: Lease) {
    l.publicKey in leases && leases[l.publicKey] == l
  }

  /** Of all leases ever handed out, exactly the current ones are active, and no two share a flag. */
  ghost predicate Flagged(leases: map<PublicKey, Lease>, handed: set<Lease>, flags: set<Authorization>)
    reads flags
  {
    && (forall k :: k in leases ==> leases[k] in handed && leases[k].publicKey == k)
    && (forall l :: l in handed ==> l.authorization in flags && (l.authorization.active <==> Current(leases, l)))
    && (forall l, m :: l in handed && m in handed && l.authorization == m.authorization ==> l == m)
  }

  lemma AddFlag(leases: map<PublicKey, Lease>, handed: set<Lease>, flags: set<Authorization>, lease: Lease)
    requires Flagged(leases, handed, flags) && lease.publicKey !in leases
    requires lease.authorization !in flags && lease.authorization.active
    ensures Flagged(leases[lease.publicKey := lease], handed + {lease}, flags + {lease.authorization})
  {
  }

  lemma NotLeasedYet(t: KeyText, devices: seq<Record>, n: nat, leases: map<PublicKey, Lease>)
    requires n < |devices| && Distinct(t, devices) && Mirrors(t, devices[..n], leases)
    ensures forall k :: t.decode(devices[n].publicKey) == Some(k) ==> k !in leases
  {
  }

  method BuildLeases(t: KeyText, devices: seq<Record>)
    returns (leases: map<PublicKey, Lease>, ghost handed: set<Lease>, ghost flags: set<Authorization>)
    requires forall i :: 0 <= i < |devices| ==> t.decode(devices[i].publicKey).Some?
    requires Distinct(t, devices)
    ensures Mirrors(t, devices, leases) && Flagged(leases, handed, flags)
    ensures fresh(flags) && forall l :: l in handed ==> Current(leases, l)
  {
    leases, handed, flags := map[], {}, {};
    for n := 0 to |devices|
      invariant Mirrors(t, devices[..n], leases) && Flagged(leases, handed, flags)
      invariant fresh(flags) && forall l :: l in handed ==> Current(leases, l)
    {
      var key := t.decode(devices[n].publicKey).value;
      var authorization := new Authorization();
      var lease := Lease(devices[n].name, devices[n].address, key, authorization);
      NotLeasedYet(t, devices, n, leases);
      AddMirrors(t, devices[..n], leases, devices[n], lease);
      AddFlag(leases, handed, flags, lease);
      leases, handed, flags := leases[key := lease], handed + {lease}, flags + {authorization};
      assert devices[..n + 1] == devices[..n] + [devices[n]];
    }
    assert devices[..|devices|] == devices;
  }

  class DeviceRegistry {
    const text: KeyText
    const tunnel: Address
    const prefixLen: nat
    var devices: seq<Record>
    var leases: map<PublicKey, Lease>
    /** Every lease ever handed out. */
    ghost var handed: set<Lease>
    ghost var flags: set<Authorization>

    ghost predicate Valid()
      reads this, flags
    {
      && Faithful(text)
      && ValidDevices(text, devices, tunnel, prefixLen)
      && Mirrors(text, devices, leases)
      && Flagged(leases, handed, flags)
    }

    /** Of all leases ever handed out, exactly the current ones are active; the leases match the records. */
    lemma ActiveIffCurrent()
      requires Valid()
      ensures forall l :: l in handed ==> (l.authorization.active <==> l.publicKey in leases && leases[l.publicKey] == l)
      ensures forall k :: k in leases ==> leases[k] in handed && exists d :: d in devices && text.decode(d.publicKey) == Some(k)
      ensures forall d :: d in devices ==>
                && text.decode(d.publicKey).Some? && text.decode(d.publicKey).value in leases
                && leases[text.decode(d.publicKey).value].address == d.address
                && leases[text.decode(d.publicKey).value].name == d.name
    {
    }

    /** Opens on records that passed validation. */
    constructor (text: KeyText, devices: seq<Record>, tunnel: Address, prefixLen: nat)
      requires Faithful(text) && ValidDevices(text, devices, tunnel, prefixLen)
      ensures Valid() && this.devices == devices && this.text == text
      ensures this.tunnel == tunnel && this.prefixLen == prefixLen
      ensures fresh(flags)
    {
      this.text, this.tunnel, this.prefixLen, this.devices := text, tunnel, prefixLen, devices;
      leases, handed, flags := map[], {}, {};
      new;
      leases, handed, flags := BuildLeases(text, devices);
    }

    method Authorize(key: PublicKey) returns (lease: Option<Lease>)
      requires Valid()
      ensures lease.Some? <==> key in leases
      ensures lease.Some? ==> lease.value == leases[key] && lease.value in handed && lease.value.authorization.active
    {
      lease := if key in leases then Some(leases[key]) else None;
    }

    /** Commits a record that the store already holds. */
    method Register(record: Record, key: PublicKey)
      requires Valid() && key !in leases && text.decode(record.publicKey) == Some(key)
      requires ValidRecord(text, record, tunnel, PrefixMask(prefixLen).value) && !Used(devices, record.address)
      modifies this
      ensures Valid() && fresh(flags - old(flags)) && devices == old(devices) + [record]
      ensures key in leases && leases == old(leases)[key := leases[key]] && handed == old(handed) + {leases[key]}
      ensures leases[key] == Lease(record.name, record.address, key, leases[key].authorization) && fresh(leases[key].authorization)
    {
      var authorization := new Authorization();
      var lease := Lease(record.name, record.address, key, authorization);
      UnleasedKey(text, devices, leases, key);
      AddRecord(text, devices, tunnel, prefixLen, record);
      AddMirrors(text, devices, leases, record, lease);
      AddFlag(leases, handed, flags, lease);
      devices := devices + [record];
      leases := leases[key := lease];
      handed, flags := handed + {lease}, flags + {authorization};
    }

    /** `key` is the freshly generated key, `persisted` whether the store could be written. */
    method Provision(name: seq<byte>, platform: Platform, key: PublicKey, persisted: bool) returns (r: Result<Record, Problem>)
      requires Valid() && key !in leases
      modifies this
      ensures Valid() && fresh(flags - old(flags))
      ensures r.Err? ==> devices == old(devices) && leases == old(leases) && handed == old(handed)
      ensures r.Ok? ==>
                && ValidName(name) && persisted
                && devices == old(devices) + [r.value]
                && r.value == Record(name, platform, text.encode(key), r.value.address)
                && r.value.address != tunnel && !Used(old(devices), r.value.address)
                && key in leases && leases == old(leases)[key := leases[key]] && handed == old(handed) + {leases[key]}
                && leases[key] == Lease(name, r.value.address, key, leases[key].authorization)
                && fresh(leases[key].authorization)
      ensures r.Err? ==>
                || !ValidName(name) || !persisted
                || (var size := Pow2(32 - prefixLen);
                    var network := tunnel - tunnel % size;
                    var end := network + if size <= 65535 then size - 1 else 65535;
                    forall b: Address :: network < b < end && b != tunnel ==> Used(devices, b))
      ensures r.Ok? ==>
                var size := Pow2(32 - prefixLen);
                var network := tunnel - tunnel % size;
                && network < r.value.address < network + (if size <= 65535 then size - 1 else 65535)
                && forall b: Address :: network < b < r.value.address && b != tunnel ==> Used(old(devices), b)
    {
      if !ValidName(name) {
        return Err(BadName);
      }
      var address := NextAddress(devices, tunnel, prefixLen);
      if address.Err? {
        return Err(address.error);
      }
      PoolExactly(tunnel, prefixLen);
      PoolInSubnet(tunnel, prefixLen, address.value);
      var record := Record(name, platform, text.encode(key), address.value);
      if !persisted {
        return Err(NotPersisted);
      }
      Register(record, key);
      r := Ok(record);
    }

    /** Commits a removal that the store already reflects, and lowers the flag. */
    method Unregister(next: seq<Record>, key: PublicKey)
      requires Valid() && ValidDevices(text, next, tunnel, prefixLen) && Mirrors(text, next, leases - {key}) && key in leases
      modifies this, flags
      ensures Valid() && handed == old(handed) && flags == old(flags)
      ensures devices == next && leases == old(leases) - {key}
    {
      devices := next;
      var lease := leases[key];
      leases := leases - {key};
      lease.authorization.active := false;
      forall l | l in handed ensures l.authorization.active <==> Current(leases, l) {
        assert l.authorization == lease.authorization <==> l == lease;
      }
    }

    method Revoke(publicKey: string, persisted: bool) returns (r: Result<bool, Problem>)
      requires Valid()
      modifies this, flags
      ensures Valid() && handed == old(handed)
      ensures r == Ok(true) ==>
                && persisted && text.decode(publicKey).Some?
                && devices == Without(old(devices), publicKey) && devices != []
                && text.decode(publicKey).value in old(leases)
                && leases == old(leases) - {text.decode(publicKey).value}
      ensures r != Ok(true) ==> devices == old(devices) && leases == old(leases)
      ensures r == Ok(false) <==> text.decode(publicKey).Some? && text.decode(publicKey).value !in old(leases)
      ensures r.Err? ==>
                || text.decode(publicKey).None? || !persisted
                || (r.error == LastDevice && old(leases).Keys == {text.decode(publicKey).value})
    {
      var decoded := text.decode(publicKey);
      if decoded.None? {
        return Err(BadKey);
      }
      var next := Without(devices, publicKey);
      WithoutShrinks(devices, publicKey);
      KeyOfRecord(text, devices, leases, publicKey);
      if |next| == |devices| {
        return Ok(false);
      }
      if next == [] {
        LastKey(text, devices, leases, publicKey);
        return Err(LastDevice);
      }
      if !persisted {
        return Err(NotPersisted);
      }
      RemoveRecord(text, devices, tunnel, prefixLen, publicKey);
      RemoveMirrors(text, devices, leases, publicKey);
      Unregister(next, decoded.value);
      r := Ok(true);
    }
  }

  datatype Seed = Seed(name: seq<byte>, publicKey: PublicKey, address: Address)

  function SeedRecords(t: KeyText, seeds: seq<Seed>): (devices: seq<Record>)
    ensures |devices| == |seeds|
    ensures forall i :: 0 <= i < |seeds| ==>
              && devices[i].name == seeds[i].name && devices[i].platform == Linux && devices[i].address == seeds[i].address
              && devices[i].publicKey == t.encode(seeds[i].publicKey)
  {
    seq(|seeds|, i requires 0 <= i < |seeds| => Record(seeds[i].name, Linux, t.encode(seeds[i].publicKey), seeds[i].address))
  }

  /** Opens the stored registry, or seeds a new one if there is none and it can be written. */
  method Open(t: KeyText, stored: Option<seq<Record>>, seeds: seq<Seed>, tunnel: Address, prefixLen: nat, persisted: bool)
    returns (registry: DeviceRegistry?)
    requires Faithful(t)
    ensures var devices := if stored.Some? then stored.value else SeedRecords(t, seeds);
            && (registry != null <==> ValidDevices(t, devices, tunnel, prefixLen) && (stored.Some? || persisted))
            && (registry != null ==>
                  && fresh(registry) && fresh(registry.flags) && registry.Valid() && registry.devices == devices
                  && registry.text == t && registry.tunnel == tunnel && registry.prefixLen == prefixLen)
  {
    var devices := if stored.Some? then stored.value else SeedRecords(t, seeds);
    var problem := ValidateDevices(t, devices, tunnel, prefixLen);
    if problem.Some? || (stored.None? && !persisted) {
      return null;
    }
    registry := new DeviceRegistry(t, devices, tunnel, prefixLen);
  }
}
