/** The kill switch blocks every IPv4 address but the server's, as 32 CIDR prefixes. */
module Cidr {
  import opened Bytes
  import opened Subnet

  datatype Prefix = Prefix(network: nat, length: nat)

  function Size(p: Prefix): (n: nat)
    ensures n > 0
  {
    if p.length > 32 then 1 else Pow2(32 - p.length)
  }

  predicate Contains(p: Prefix, a: Address) {
    p.network <= a < p.network + Size(p)
  }

  /** Network digits only, inside the address space. */
  predicate WellFormed(p: Prefix) {
    1 <= p.length <= 32 && p.network % Size(p) == 0 && p.network + Size(p) <= U32_LIMIT
  }

  /** One prefix of each length in order, each well formed. */
  ghost predicate Ladder(ps: seq<Prefix>) {
    forall i :: 0 <= i < |ps| ==> ps[i].length == i + 1 && WellFormed(ps[i])
  }

  /** How many prefixes contain an address. */
  ghost function Hits(ps: seq<Prefix>, a: Address): nat {
    if ps == [] then 0 else Hits(ps[..|ps| - 1], a) + if Contains(ps[|ps| - 1], a) then 1 else 0
  }

  ghost function Covered(ps: seq<Prefix>): nat {
    if ps == [] then 0 else Covered(ps[..|ps| - 1]) + Size(ps[|ps| - 1])
  }

  /** Setting the digit of weight `2^k` below which a number is zero. */
  lemma {:induction false} OrDigit(a: nat, k: nat, width: nat)
    requires k < width && a < Pow2(width) && a % Pow2(k + 1) == 0
    ensures Or(a, Pow2(k), width) == a + Pow2(k)
  {
    HalveModulus(a, Pow2(k));
    if k == 0 {
      OrZero(a / 2, width - 1);
    } else {
      OrDigit(a / 2, k - 1, width - 1);
    }
  }

  /** The block of `2^(k+1)` addresses around `a` splits at the digit of weight `2^k`. */
  lemma {:induction false} BlockSplits(a: nat, k: nat)
    ensures a % Pow2(k + 1) == a % Pow2(k) + if Digit(a, k) then Pow2(k) else 0
  {
    HalveModulus(a, Pow2(k));
    if k > 0 {
      HalveModulus(a, Pow2(k - 1));
      BlockSplits(a / 2, k - 1);
    }
  }

  /** Both halves of an aligned block are aligned. */
  lemma Halves(base: nat, half: nat)
    requires half > 0 && base % (2 * half) == 0
    ensures base % half == 0 && (base + half) % half == 0
  {
    var t := base / (2 * half);
    assert base == 2 * half * t;
    assert base == half * (2 * t);
    RemainderUnique(base, half, 2 * t, 0);
    assert base + half == half * (2 * t + 1);
    RemainderUnique(base + half, half, 2 * t + 1, 0);
  }

  /** What has been emitted contains each address outside the server's block once. */
  ghost predicate CoversOutside(ps: seq<Prefix>, base: nat, size: nat) {
    forall a: Address :: Hits(ps, a) == if base <= a < base + size then 0 else 1
  }

  lemma EmitSibling(ps: seq<Prefix>, base: nat, sibling: Prefix, server: nat)
    requires CoversOutside(ps, base, 2 * Size(sibling))
    requires || (sibling.network == base && server == base + Size(sibling))
             || (sibling.network == base + Size(sibling) && server == base)
    ensures CoversOutside(ps + [sibling], server, Size(sibling))
    ensures Covered(ps + [sibling]) == Covered(ps) + Size(sibling)
  {
    var qs := ps + [sibling];
    assert qs[..|qs| - 1] == ps;
  }

  /** All lengths above `32 - k` are still to come; the server's block has `2^k` addresses. */
  ghost predicate Progress(ps: seq<Prefix>, server: Address, base: nat, k: nat) {
    && k <= 32 && |ps| == 32 - k && Ladder(ps)
    && base == server - server % Pow2(k) && base + Pow2(k) <= U32_LIMIT
    && CoversOutside(ps, base, Pow2(k)) && Covered(ps) == U32_LIMIT - Pow2(k)
  }

  lemma Emit(ps: seq<Prefix>, server: Address, base: nat, next: nat, p: Prefix, k: nat)
    requires k < 32 && Progress(ps, server, base, k + 1) && next == server - server % Pow2(k)
    requires p.length == 32 - k && p.network % Pow2(k) == 0
    requires (p.network == base && next == base + Pow2(k)) || (p.network == base + Pow2(k) && next == base)
    ensures Progress(ps + [p], server, next, k)
  {
    EmitSibling(ps, base, p, next);
    var qs := ps + [p];
    assert WellFormed(p);
    forall i | 0 <= i < |qs| ensures qs[i].length == i + 1 && WellFormed(qs[i]) {
      if i < |ps| { assert qs[i] == ps[i]; }
    }
  }

  /** How the loop's bit operations move within the server's block. */
  lemma ServerBlock(server: Address, base: nat, k: nat)
    requires k < 32 && base == server - server % Pow2(k + 1)
    ensures Or(base, Pow2(k), 32) == base + Pow2(k)
    ensures base % Pow2(k) == 0 && (base + Pow2(k)) % Pow2(k) == 0
    ensures server - server % Pow2(k) == if And(server, Pow2(k), 32) == 0 then base else base + Pow2(k)
  {
    BinaryWidths();
    BlockSplits(server, k);
    AndPower(server, k, 32);
    BlockBase(server, Pow2(k + 1));
    Halves(base, Pow2(k));
    OrDigit(base, k, 32);
  }

  lemma NextLength(ps: seq<Prefix>, server: Address, base: nat, k: nat)
    requires k < 32 && Progress(ps, server, base, k + 1)
    ensures var upper := Or(base, Pow2(k), 32);
            if And(server, Pow2(k), 32) == 0 then Progress(ps + [Prefix(upper, 32 - k)], server, base, k)
            else Progress(ps + [Prefix(base, 32 - k)], server, upper, k)
  {
    ServerBlock(server, base, k);
    if And(server, Pow2(k), 32) == 0 {
      Emit(ps, server, base, base, Prefix(base + Pow2(k), 32 - k), k);
    } else {
      Emit(ps, server, base, base + Pow2(k), Prefix(base, 32 - k), k);
    }
  }

  /** Every address but the server's, once each. */
  method BlockedPrefixes(server: Address) returns (prefixes: seq<Prefix>)
    ensures |prefixes| == 32 && Ladder(prefixes)
    ensures forall a: Address :: Hits(prefixes, a) == if a == server then 0 else 1
    ensures Covered(prefixes) == U32_LIMIT - 1
  {
    BinaryWidths();
    var serverNetwork := 0;
    prefixes := [];
    for length := 1 to 33
      invariant Progress(prefixes, server, serverNetwork, 33 - length)
    {
      var bit := Pow2(32 - length);
      var sibling;
      NextLength(prefixes, server, serverNetwork, 32 - length);
      if And(server, bit, 32) == 0 {
        sibling := Or(serverNetwork, bit, 32);
      } else {
        sibling := serverNetwork;
        serverNetwork := Or(serverNetwork, bit, 32);
      }
      prefixes := prefixes + [Prefix(sibling, length)];
    }
  }
}
