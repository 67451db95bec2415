/** Live sessions, indexed by session id for the UDP loop and by tunnel address for the TUN worker. */
module Sessions {
  import opened Bytes
  import opened Router
  import opened Subnet

  /** How a client's frames are dressed on the wire. */
  datatype WireMode =
    | Legacy
    | SpeedyWire(clientPublicKey: PublicKey)
    | MorphWire(clientPublicKey: PublicKey, profile: Profile)
  {
    predicate AllowsClient(key: PublicKey) {
      Legacy? || clientPublicKey == key
    }

    predicate Matches(incoming: WireMode) {
      match (this, incoming)
      case (Legacy, Legacy) => true
      case (SpeedyWire(expected), SpeedyWire(actual)) => expected == actual
      case (MorphWire(expected, p), MorphWire(actual, q)) => expected == actual && p == q
      case _ => false
    }
  }

  /** A session's frames must come in its own format, under its own client's keys and profile. */
  lemma MatchesExactly(w: WireMode, incoming: WireMode)
    ensures w.Matches(incoming) <==> w == incoming
  {
  }

  /** A masked format is for the client it names; the plain one is for all. */
  lemma AllowsExactly(w: WireMode, key: PublicKey)
    ensures w.AllowsClient(key) <==> w == Legacy || w == SpeedyWire(key) || exists p :: w == MorphWire(key, p)
  {
  }

  /** `serial` is the identity of the allocation: two sessions are the same only if it is the same. */
  datatype Session = Session(serial: nat, key: PublicKey, address: Address, wire: WireMode)

  datatype Index = Index(byId: map<u64, Session>, byAddress: map<Address, Session>)

  /** Every session is found under its own address and under exactly one id. */
  ghost predicate Bijective(x: Index) {
    && (forall a :: a in x.byAddress ==> x.byAddress[a].address == a)
    && (forall i :: i in x.byId ==> x.byId[i].address in x.byAddress && x.byAddress[x.byId[i].address] == x.byId[i])
    && (forall a :: a in x.byAddress ==> exists i :: i in x.byId && x.byId[i] == x.byAddress[a])
    && (forall i, j :: i in x.byId && j in x.byId && x.byId[i] == x.byId[j] ==> i == j)
  }

  /** The ids of every session but `gone`. */
  function Retained(byId: map<u64, Session>, gone: Session): (kept: map<u64, Session>)
    ensures forall i :: i in kept <==> i in byId && byId[i] != gone
    ensures forall i :: i in kept ==> kept[i] == byId[i]
  {
    map i | i in byId && byId[i] != gone :: byId[i]
  }

  function Replace(x: Index, id: u64, s: Session): Index {
    if id in x.byId && x.byId[id].address != s.address then x
    else
      var kept := if s.address in x.byAddress
                  then Retained(x.byId, x.byAddress[s.address])
                  else x.byId;
      Index(kept[id := s], x.byAddress[s.address := s])
  }

  /** An accepted insert drops the previous session of its own address and no other; a rejected one drops none. */
  lemma ReplaceIsLocal(x: Index, id: u64, s: Session, i: u64)
    requires Bijective(x) && forall j :: j in x.byId ==> x.byId[j] != s
    ensures var y := Replace(x, id, s);
            if id in x.byId && x.byId[id].address != s.address then y == x
            else
              && id in y.byId && y.byId[id] == s && s.address in y.byAddress && y.byAddress[s.address] == s
              && (i != id && i in y.byId <==> i in x.byId && x.byId[i].address != s.address)
              && (i != id && i in y.byId ==> y.byId[i] == x.byId[i])
              && (forall a :: a != s.address ==> (a in y.byAddress <==> a in x.byAddress))
              && (forall a :: a != s.address && a in x.byAddress ==> y.byAddress[a] == x.byAddress[a])
  {
  }

  /** What an accepted insert leaves under id `i`. */
  ghost predicate Listed(x: Index, id: u64, s: Session, i: u64) {
    var y := Replace(x, id, s);
    && (i == id ==> i in y.byId && y.byId[i] == s)
    && (i != id ==> (i in y.byId <==> i in x.byId && x.byId[i].address != s.address))
    && (i != id && i in y.byId ==> y.byId[i] == x.byId[i])
  }

  lemma EveryAddressHasAnId(x: Index, id: u64, s: Session, a: Address)
    requires Bijective(x) && (forall i :: i in x.byId ==> x.byId[i] != s) && !(id in x.byId && x.byId[id].address != s.address)
    requires a in Replace(x, id, s).byAddress && forall i: u64 :: Listed(x, id, s, i)
    ensures exists i :: i in Replace(x, id, s).byId && Replace(x, id, s).byId[i] == Replace(x, id, s).byAddress[a]
  {
    var y := Replace(x, id, s);
    if a == s.address {
      assert Listed(x, id, s, id) && y.byId[id] == y.byAddress[a];
    } else {
      var i :| i in x.byId && x.byId[i] == x.byAddress[a];
      assert Listed(x, id, s, i) && y.byId[i] == y.byAddress[a];
    }
  }

  lemma ReplaceKeepsBijection(x: Index, id: u64, s: Session)
    requires Bijective(x) && forall i :: i in x.byId ==> x.byId[i] != s
    ensures Bijective(Replace(x, id, s))
  {
    if !(id in x.byId && x.byId[id].address != s.address) {
      forall i: u64 ensures Listed(x, id, s, i) { ReplaceIsLocal(x, id, s, i); }
      var y := Replace(x, id, s);
      forall a | a in y.byAddress ensures exists i :: i in y.byId && y.byId[i] == y.byAddress[a] {
        EveryAddressHasAnId(x, id, s, a);
      }
      forall i, j | i in y.byId && j in y.byId && y.byId[i] == y.byId[j] ensures i == j {
        assert Listed(x, id, s, i) && Listed(x, id, s, j);
      }
      forall i | i in y.byId ensures y.byId[i].address in y.byAddress && y.byAddress[y.byId[i].address] == y.byId[i] {
        assert Listed(x, id, s, i);
      }
    }
  }

  class SessionTable {
    var byId: map<u64, Session>
    var byAddress: map<Address, Session>

    ghost function Contents(): Index
      reads this
    {
      Index(byId, byAddress)
    }

    constructor ()
      ensures Contents() == Index(map[], map[]) && Bijective(Contents())
    {
      byId, byAddress := map[], map[];
    }

    method ReplaceClient(id: u64, session: Session) returns (installed: bool)
      requires Bijective(Contents()) && forall i :: i in byId ==> byId[i] != session
      modifies this
      ensures Contents() == Replace(old(Contents()), id, session) && Bijective(Contents())
      ensures !installed <==> id in old(byId) && old(byId)[id].address != session.address
      ensures !installed ==> byId == old(byId) && byAddress == old(byAddress)
      ensures installed ==>
                && byAddress == old(byAddress)[session.address := session] && id in byId && byId[id] == session
                && forall i :: i != id ==>
                     && (i in byId <==> i in old(byId) && old(byId)[i].address != session.address)
                     && (i in byId ==> byId[i] == old(byId)[i])
    {
      var address := session.address;
      if id in byId && byId[id].address != address {
        return false;
      }
      if address in byAddress {
        var previous := byAddress[address];
        byId := Retained(byId, previous);
      }
      byAddress := byAddress[address := session];
      byId := byId[id := session];
      ReplaceKeepsBijection(old(Contents()), id, session);
      installed := true;
    }
  }
}
