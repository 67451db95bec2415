/** IPv4 subnets: the tunnel's address pool. */
module Subnet {
  import opened Bytes

  type Address = x: int | 0 <= x < U32_LIMIT

  /** `u32::MAX << (32 - prefixLen)`, for /1 to /30. */
  function PrefixMask(prefixLen: nat): (m: Option<Address>)
    ensures m.None? <==> prefixLen == 0 || prefixLen > 30
    ensures m.Some? ==> m.value == U32_LIMIT - Pow2(32 - prefixLen)
  {
    if prefixLen == 0 || prefixLen > 30 then None
    else
      BinaryWidths();
      Pow2Increases(32 - prefixLen, 32);
      Some(U32_LIMIT - Pow2(32 - prefixLen))
  }

  lemma {:induction false} AndOnes(a: nat, width: nat)
    requires a < Pow2(width)
    ensures And(a, Pow2(width) - 1, width) == a
  {
    if width > 0 {
      assert (Pow2(width) - 1) / 2 == Pow2(width - 1) - 1;
      AndOnes(a / 2, width - 1);
    }
  }

  lemma RemainderUnique(a: nat, m: nat, q: nat, r: nat)
    requires m > 0 && r < m && a == m * q + r
    ensures a % m == r
  {
    var p := a / m - q;
    assert m * p == r - a % m;
    assert 0 - m < m * p < m;
  }

  lemma HalveModulus(a: nat, m: nat)
    requires m > 0
    ensures a % (2 * m) == 2 * (a / 2 % m) + a % 2
  {
    var q, r := a / 2 / m, a / 2 % m;
    assert a == 2 * (m * q + r) + a % 2;
    assert a == (2 * m) * q + (2 * r + a % 2);
    RemainderUnique(a, 2 * m, q, 2 * r + a % 2);
  }

  /** Masking off the low `h` digits. */
  lemma {:induction false} AndHighDigits(a: nat, mask: nat, h: nat, width: nat)
    requires h <= width && a < Pow2(width) && mask + Pow2(h) == Pow2(width)
    ensures And(a, mask, width) == a - a % Pow2(h)
  {
    if h == 0 {
      AndOnes(a, width);
    } else {
      assert mask == 2 * (Pow2(width - 1) - Pow2(h - 1));
      AndHighDigits(a / 2, mask / 2, h - 1, width - 1);
      HalveModulus(a, Pow2(h - 1));
    }
  }

  function NetworkOf(a: Address, mask: Address): Address {
    BinaryWidths();
    And(a, mask, 32)
  }

  /** Host part size and network base of a /1 to /30 prefix. */
  lemma NetworkIsBase(a: Address, prefixLen: nat)
    requires PrefixMask(prefixLen).Some?
    ensures NetworkOf(a, PrefixMask(prefixLen).value) == a - a % Pow2(32 - prefixLen)
  {
    BinaryWidths();
    AndHighDigits(a, PrefixMask(prefixLen).value, 32 - prefixLen, 32);
  }

  /** First and one-past-last candidate of the allocation scan. */
  function PoolStart(tunnel: Address, prefixLen: nat): nat
    requires PrefixMask(prefixLen).Some?
  {
    NetworkOf(tunnel, PrefixMask(prefixLen).value) + 1
  }

  function PoolEnd(tunnel: Address, prefixLen: nat): nat
    requires PrefixMask(prefixLen).Some?
  {
    var mask := PrefixMask(prefixLen).value;
    var network := NetworkOf(tunnel, mask);
    var broadcast := Or(network, U32_LIMIT - 1 - mask, 32);
    var last := if network + 65535 >= U32_LIMIT then U32_LIMIT - 1 else network + 65535;
    if broadcast < last then broadcast else last
  }

  lemma {:induction false} OrZero(a: nat, width: nat)
    requires a < Pow2(width)
    ensures Or(a, 0, width) == a
  {
    if width > 0 { OrZero(a / 2, width - 1); }
  }

  /** Filling in the low `h` digits of a multiple of `2^h`. */
  lemma {:induction false} OrLowDigits(a: nat, h: nat, width: nat)
    requires h <= width && a < Pow2(width) && a % Pow2(h) == 0
    ensures Or(a, Pow2(h) - 1, width) == a + Pow2(h) - 1
  {
    if h == 0 {
      OrZero(a, width);
    } else {
      HalveModulus(a, Pow2(h - 1));
      OrLowDigits(a / 2, h - 1, width - 1);
      assert (Pow2(h) - 1) / 2 == Pow2(h - 1) - 1;
    }
  }

  lemma BlockBase(a: nat, size: nat)
    requires size > 0
    ensures a - a % size == size * (a / size) && (a - a % size) % size == 0
  {
    RemainderUnique(a - a % size, size, a / size, 0);
  }

  lemma SameBlock(a: nat, b: nat, size: nat)
    requires size > 0 && a - a % size <= b < a - a % size + size
    ensures b - b % size == a - a % size
  {
    RemainderUnique(b, size, a / size, b - (a - a % size));
  }

  lemma BlockFits(a: nat, size: nat, blocks: nat)
    requires size > 0 && a < size * blocks
    ensures a - a % size + size <= size * blocks
  {
    assert a == size * (a / size) + a % size;
    assert a / size < blocks;
    assert size * (a / size + 1) <= size * blocks;
  }

  lemma BroadcastIsLast(tunnel: Address, prefixLen: nat)
    requires PrefixMask(prefixLen).Some?
    ensures var mask, size := PrefixMask(prefixLen).value, Pow2(32 - prefixLen);
            && Or(NetworkOf(tunnel, mask), U32_LIMIT - 1 - mask, 32) == tunnel - tunnel % size + size - 1
            && tunnel - tunnel % size + size <= U32_LIMIT
  {
    BinaryWidths();
    var h := 32 - prefixLen;
    NetworkIsBase(tunnel, prefixLen);
    BlockBase(tunnel, Pow2(h));
    OrLowDigits(tunnel - tunnel % Pow2(h), h, 32);
    Pow2Sum(h, prefixLen);
    BlockFits(tunnel, Pow2(h), Pow2(prefixLen));
  }

  /** The scan runs from the network to the broadcast address, both excluded, or for 65534 addresses. */
  lemma PoolExactly(tunnel: Address, prefixLen: nat)
    requires PrefixMask(prefixLen).Some?
    ensures var size := Pow2(32 - prefixLen); var network := tunnel - tunnel % size;
            && PoolStart(tunnel, prefixLen) == network + 1
            && PoolEnd(tunnel, prefixLen) == network + (if size <= 65535 then size - 1 else 65535)
            && network + size <= U32_LIMIT
  {
    NetworkIsBase(tunnel, prefixLen);
    BroadcastIsLast(tunnel, prefixLen);
  }

  /** Every candidate of the scan is an address of the subnet. */
  lemma PoolInSubnet(tunnel: Address, prefixLen: nat, a: nat)
    requires PrefixMask(prefixLen).Some?
    requires PoolStart(tunnel, prefixLen) <= a < PoolEnd(tunnel, prefixLen)
    ensures a < U32_LIMIT && NetworkOf(a, PrefixMask(prefixLen).value) == NetworkOf(tunnel, PrefixMask(prefixLen).value)
  {
    PoolExactly(tunnel, prefixLen);
    SameBlock(tunnel, a, Pow2(32 - prefixLen));
    NetworkIsBase(tunnel, prefixLen);
    NetworkIsBase(a, prefixLen);
  }

  lemma SameProduct(m: nat, x: nat, y: nat)
    requires m > 0
    ensures m * x == m * y <==> x == y
  {
  }

  lemma SameBase(a: nat, b: nat, size: nat)
    requires size > 0
    ensures a - a % size == b - b % size <==> a / size == b / size
  {
    BlockBase(a, size);
    BlockBase(b, size);
    SameProduct(size, a / size, b / size);
  }

  /** Two addresses are in one subnet exactly if they are in the same block of its size. */
  lemma SameNetwork(a: Address, b: Address, prefixLen: nat)
    requires PrefixMask(prefixLen).Some?
    ensures var mask, size := PrefixMask(prefixLen).value, Pow2(32 - prefixLen);
            NetworkOf(a, mask) == NetworkOf(b, mask) <==> a / size == b / size
  {
    NetworkIsBase(a, prefixLen);
    NetworkIsBase(b, prefixLen);
    SameBase(a, b, Pow2(32 - prefixLen));
  }
}
