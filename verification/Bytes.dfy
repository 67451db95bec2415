/** Fixed-width integers, bytes and big-endian numbers as they travel on the wire. */
module Bytes {
  type byte = x: int | 0 <= x < 256
  const U16_LIMIT: nat := 0x1_0000
  const U32_LIMIT: nat := 0x1_0000_0000
  const U64_LIMIT: nat := 0x1_0000_0000_0000_0000
  type u64 = x: int | 0 <= x < U64_LIMIT

  const KEY_LEN: nat := 32

  type PublicKey = k: seq<byte> | |k| == KEY_LEN witness seq(KEY_LEN, _ => 0)

  datatype Option<+T> = None | Some(value: T)
  datatype Result<+T, +E> = Ok(value: T) | Err(error: E)

  function Pow2(k: nat): (p: nat)
    ensures p > 0
  {
    if k == 0 then 1 else 2 * Pow2(k - 1)
  }

  function Pow256(k: nat): (p: nat)
    ensures p > 0
  {
    if k == 0 then 1 else 256 * Pow256(k - 1)
  }

  lemma {:induction false} Pow2Sum(i: nat, j: nat)
    ensures Pow2(i + j) == Pow2(i) * Pow2(j)
  {
    if j > 0 { Pow2Sum(i, j - 1); }
  }

  lemma {:induction false} Pow2Increases(i: nat, j: nat)
    requires i < j
    ensures Pow2(i) < Pow2(j)
  {
    if i + 1 < j { Pow2Increases(i, j - 1); }
  }

  lemma Widths()
    ensures Pow256(2) == U16_LIMIT && Pow256(4) == U32_LIMIT && Pow256(8) == U64_LIMIT
  {
  }

  lemma Squared(k: nat, p: nat)
    requires Pow2(k) == p
    ensures Pow2(k + k) == p * p
  {
    Pow2Sum(k, k);
  }

  lemma BinaryWidths()
    ensures Pow2(8) == 256 && Pow2(16) == U16_LIMIT && Pow2(32) == U32_LIMIT && Pow2(64) == U64_LIMIT
  {
    assert Pow2(8) == 256;
    Squared(8, 256);
    Squared(16, U16_LIMIT);
    Squared(32, U32_LIMIT);
  }

  lemma QuotientUnique(n: nat, m: nat, q: nat, r: nat)
    requires m > 0 && r < m && n == m * q + r
    ensures n / m == q && n % m == r
  {
    var p := n / m - q;
    assert m * p == r - n % m;
    assert 0 - m < m * p < m;
  }

  lemma DivideSum(n: nat, a: nat, x: nat, r: nat)
    requires a > 0 && n == a * x + r
    ensures n / a == x + r / a
  {
    assert a * (x + r / a) == a * x + a * (r / a);
    QuotientUnique(n, a, x + r / a, r % a);
  }

  lemma BelowProduct(r: nat, a: nat, b: nat)
    requires a > 0 && r < a * b
    ensures r / a < b
  {
  }

  lemma Regroup(a: nat, b: nat, c: nat)
    ensures a * b * c == a * (b * c)
  {
  }

  lemma DivideTwice(n: nat, a: nat, b: nat, ab: nat)
    requires a > 0 && b > 0 && ab == a * b
    ensures ab > 0 && n / a / b == n / ab
  {
    var q, r := n / ab, n % ab;
    assert n == ab * q + r;
    Regroup(a, b, q);
    DivideSum(n, a, b * q, r);
    BelowProduct(r, a, b);
    QuotientUnique(n / a, b, q, r / a);
  }

  // --------------------------------------------------------------- big endian

  /** The `k`-byte big-endian form of `n`, dropping higher digits. */
  function ToBe(n: nat, k: nat): (s: seq<byte>)
    ensures |s| == k
  {
    if k == 0 then [] else ToBe(n / 256, k - 1) + [n % 256]
  }

  function FromBe(s: seq<byte>): (n: nat)
    ensures n < Pow256(|s|)
  {
    if s == [] then 0 else FromBe(s[..|s| - 1]) * 256 + s[|s| - 1]
  }

  lemma {:induction false} FromToBe(n: nat, k: nat)
    requires n < Pow256(k)
    ensures FromBe(ToBe(n, k)) == n
  {
    if k > 0 {
      FromToBe(n / 256, k - 1);
      assert ToBe(n, k)[..k - 1] == ToBe(n / 256, k - 1);
    }
  }

  lemma {:induction false} ToFromBe(s: seq<byte>)
    ensures ToBe(FromBe(s), |s|) == s
  {
    if s != [] {
      ToFromBe(s[..|s| - 1]);
    }
  }

  /** The first byte is the most significant one. */
  lemma {:induction false} ToBeAt(n: nat, k: nat, i: nat)
    requires i < k
    ensures ToBe(n, k)[i] == n / Pow256(k - 1 - i) % 256
  {
    if i < k - 1 {
      ToBeAt(n / 256, k - 1, i);
      DivideTwice(n, 256, Pow256(k - 2 - i), Pow256(k - 1 - i));
    }
  }

  lemma FromTwo(s: seq<byte>)
    requires |s| == 2
    ensures FromBe(s) == 256 * (s[0] as int) + s[1]
  {
    assert s[..1][..0] == [];
  }

  lemma FromFour(s: seq<byte>)
    requires |s| == 4
    ensures FromBe(s) == 256 * (256 * (256 * (s[0] as int) + s[1]) + s[2]) + s[3]
  {
    FromTwo(s[..2]);
    assert s[..3][..2] == s[..2];
  }

  // ------------------------------------------------------------- binary digits

  /** The binary digit of weight `2^k`. */
  predicate Digit(a: nat, k: nat) {
    if k == 0 then a % 2 == 1 else Digit(a / 2, k - 1)
  }

  /** Bitwise `&`, `|` and `^` of the low `width` digits. */
  function And(a: nat, b: nat, width: nat): (c: nat)
    ensures c < Pow2(width)
  {
    if width == 0 then 0
    else 2 * And(a / 2, b / 2, width - 1) + if a % 2 == 1 && b % 2 == 1 then 1 else 0
  }

  function Or(a: nat, b: nat, width: nat): (c: nat)
    ensures c < Pow2(width)
  {
    if width == 0 then 0
    else 2 * Or(a / 2, b / 2, width - 1) + if a % 2 == 1 || b % 2 == 1 then 1 else 0
  }

  function XorBits(a: nat, b: nat, width: nat): (c: nat)
    ensures c < Pow2(width)
  {
    if width == 0 then 0
    else 2 * XorBits(a / 2, b / 2, width - 1) + if a % 2 == b % 2 then 0 else 1
  }

  lemma {:induction false} DigitWeight(a: nat, k: nat)
    ensures Digit(a, k) <==> a / Pow2(k) % 2 == 1
  {
    if k > 0 {
      DigitWeight(a / 2, k - 1);
      DivideTwice(a, 2, Pow2(k - 1), Pow2(k));
    }
  }

  lemma {:induction false} ZeroDigits(k: nat)
    ensures !Digit(0, k)
  {
    if k > 0 { ZeroDigits(k - 1); }
  }

  lemma {:induction false} PowerDigits(i: nat, k: nat)
    ensures Digit(Pow2(i), k) <==> i == k
  {
    if i == 0 {
      if k > 0 { ZeroDigits(k - 1); }
    } else if k > 0 {
      PowerDigits(i - 1, k - 1);
    }
  }

  lemma {:induction false} OrDigits(a: nat, b: nat, width: nat, k: nat)
    requires k < width
    ensures Digit(Or(a, b, width), k) <==> Digit(a, k) || Digit(b, k)
  {
    assert Or(a, b, width) / 2 == Or(a / 2, b / 2, width - 1);
    if k > 0 { OrDigits(a / 2, b / 2, width - 1, k - 1); }
  }

  lemma {:induction false} AndDigits(a: nat, b: nat, width: nat, k: nat)
    requires k < width
    ensures Digit(And(a, b, width), k) <==> Digit(a, k) && Digit(b, k)
  {
    assert And(a, b, width) / 2 == And(a / 2, b / 2, width - 1);
    if k > 0 { AndDigits(a / 2, b / 2, width - 1, k - 1); }
  }

  lemma {:induction false} XorDigits(a: nat, b: nat, width: nat, k: nat)
    requires k < width
    ensures Digit(XorBits(a, b, width), k) <==> Digit(a, k) != Digit(b, k)
  {
    assert XorBits(a, b, width) / 2 == XorBits(a / 2, b / 2, width - 1);
    if k > 0 { XorDigits(a / 2, b / 2, width - 1, k - 1); }
  }

  lemma {:induction false} AndZero(a: nat, width: nat)
    ensures And(a, 0, width) == 0
  {
    if width > 0 { AndZero(a / 2, width - 1); }
  }

  /** Masking with one power of two tests one digit. */
  lemma {:induction false} AndPower(a: nat, k: nat, width: nat)
    requires k < width
    ensures And(a, Pow2(k), width) != 0 <==> Digit(a, k)
  {
    if k == 0 {
      AndZero(a / 2, width - 1);
    } else {
      AndPower(a / 2, k - 1, width - 1);
    }
  }

  lemma {:induction false} XorBitsInvolutive(a: nat, b: nat, width: nat)
    requires a < Pow2(width)
    ensures XorBits(XorBits(a, b, width), b, width) == a
  {
    if width > 0 {
      XorBitsInvolutive(a / 2, b / 2, width - 1);
      assert XorBits(a, b, width) / 2 == XorBits(a / 2, b / 2, width - 1);
    }
  }

  function Xor(a: byte, b: byte): (c: byte)
    ensures XorBits(c, b, 8) == a
  {
    XorBitsInvolutive(a, b, 8);
    XorBits(a, b, 8)
  }

  /** A byte of the exclusive or has exactly the digits in which its arguments differ. */
  lemma XorByte(a: byte, b: byte, k: nat)
    requires k < 8
    ensures Xor(a, b) / Pow2(k) % 2 == 1 <==> a / Pow2(k) % 2 != b / Pow2(k) % 2
  {
    XorDigits(a, b, 8, k);
    DigitWeight(a, k);
    DigitWeight(b, k);
    DigitWeight(Xor(a, b), k);
  }
}
