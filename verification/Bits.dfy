/** Machine words as numbers: bytes, little-endian sequences, and the bit operations used for packing. */
module Bits {
  type Byte = x: int | 0 <= x < 256

  function Pow2(n: nat): (r: nat)
    ensures r > 0
  {
    if n == 0 then 1 else 2 * Pow2(n - 1)
  }

  // ----- Bit operations -----

  function Or(a: nat, b: nat): nat
    decreases a + b
  {
    if a == 0 && b == 0 then 0
    else 2 * Or(a / 2, b / 2) + if a % 2 == 1 || b % 2 == 1 then 1 else 0
  }

  function And(a: nat, b: nat): nat
    decreases a
  {
    if a == 0 then 0 else 2 * And(a / 2, b / 2) + if a % 2 == 1 && b % 2 == 1 then 1 else 0
  }

  function Shr(a: nat, n: nat): nat
    decreases n
  {
    if n == 0 then a else Shr(a / 2, n - 1)
  }

  /** Left shift in a word of `width` bits: what leaves the word is lost. */
  function Shl(a: nat, n: nat, width: nat): nat
    decreases n
  {
    if n == 0 then a % Pow2(width) else Shl(2 * a, n - 1, width)
  }

  /** Bits that do not overlap: or is plus. */
  lemma {:induction false} OrApart(a: nat, b: nat, k: nat)
    requires a < Pow2(k)
    ensures Or(a, b * Pow2(k)) == a + b * Pow2(k)
    decreases k
  {
    if k == 0 {
      OrZero(b);
      assert b * Pow2(0) == b;
    } else {
      var c := b * Pow2(k - 1);
      assert b * Pow2(k) == 2 * c by {
        assert b * (2 * Pow2(k - 1)) == 2 * (b * Pow2(k - 1));
      }
      OrApart(a / 2, b, k - 1);
    }
  }

  lemma {:induction false} OrZero(b: nat)
    ensures Or(0, b) == b
    decreases b
  {
    if b > 0 {
      OrZero(b / 2);
    }
  }

  /** Masking with `k` ones keeps the low `k` bits. */
  lemma {:induction false} AndMask(a: nat, k: nat)
    ensures And(a, Pow2(k) - 1) == a % Pow2(k)
    decreases k
  {
    if k == 0 {
      AndZero(a);
    } else if a == 0 {
      DivModUnique(0, Pow2(k), 0, 0);
    } else {
      var half := Pow2(k - 1);
      calc {
        And(a, Pow2(k) - 1);
        { assert Pow2(k) == 2 * half; }
        And(a, 2 * half - 1);
        { AndOdd(a, half); }
        2 * And(a / 2, half - 1) + a % 2;
        { AndMask(a / 2, k - 1); }
        2 * ((a / 2) % half) + a % 2;
        { HalfMod(a, half); }
        a % (2 * half);
      }
    }
  }

  lemma {:induction false} AndOdd(a: nat, half: nat)
    requires a > 0 && half > 0
    ensures And(a, 2 * half - 1) == 2 * And(a / 2, half - 1) + a % 2
  {
    assert (2 * half - 1) / 2 == half - 1 && (2 * half - 1) % 2 == 1;
  }

  lemma {:induction false} AndZero(a: nat)
    ensures And(a, 0) == 0
    decreases a
  {
    if a > 0 {
      AndZero(a / 2);
    }
  }

  lemma HalfMod(a: nat, m: nat)
    requires m > 0
    ensures a % (2 * m) == 2 * ((a / 2) % m) + a % 2
  {
    var h := a / 2;
    var q, r := h / m, h % m;
    assert h == q * m + r;
    assert a == q * (2 * m) + (2 * r + a % 2);
    DivModUnique(a, 2 * m, q, 2 * r + a % 2);
  }

  lemma MulAtLeast(d: int, m: int)
    requires d >= 1 && m > 0
    ensures d * m >= m
  {
    assert d * m == m + (d - 1) * m;
    assert (d - 1) * m >= 0;
  }

  lemma DivModUnique(x: int, m: int, q: int, r: int)
    requires m > 0 && 0 <= r < m && x == q * m + r
    ensures x / m == q && x % m == r
  {
    var d := q - x / m;
    assert x == (x / m) * m + x % m;
    assert d * m == q * m - (x / m) * m;
    if d >= 1 {
      MulAtLeast(d, m);
    } else if d <= -1 {
      MulAtLeast(-d, m);
    }
  }

  // ----- Little-endian bytes -----

  /** The `n` low bytes of `x`, the lowest first. */
  function LeBytes(n: nat, x: nat): (s: seq<Byte>)
    ensures |s| == n
  {
    if n == 0 then [] else [x % 256] + LeBytes(n - 1, x / 256)
  }

  function FromLe(s: seq<Byte>): nat {
    if s == [] then 0 else s[0] + 256 * FromLe(s[1..])
  }

  /** One more than the greatest number in `n` bytes. */
  function Limit(n: nat): (r: nat)
    ensures r > 0
  {
    if n == 0 then 1 else 256 * Limit(n - 1)
  }

  lemma Limits()
    ensures Limit(0) == 1 && Limit(1) == 0x100 && Limit(2) == 0x1_0000 && Limit(3) == 0x100_0000 && Limit(4) == 0x1_0000_0000
    ensures Limit(8) == 0x1_0000_0000_0000_0000
  {
    assert Limit(3) == 0x100_0000;
    assert Limit(6) == 0x1_0000_0000_0000;
  }

  lemma {:induction false} FromLeBound(s: seq<Byte>)
    ensures FromLe(s) < Limit(|s|)
  {
    if s != [] {
      FromLeBound(s[1..]);
    }
  }

  lemma {:induction false} FromLeBytes(n: nat, x: nat)
    requires x < Limit(n)
    ensures FromLe(LeBytes(n, x)) == x
  {
    if n > 0 {
      FromLeBytes(n - 1, x / 256);
      assert LeBytes(n, x)[1..] == LeBytes(n - 1, x / 256);
    }
  }

  lemma {:induction false} LeBytesFrom(s: seq<Byte>)
    ensures LeBytes(|s|, FromLe(s)) == s
  {
    if s != [] {
      LeBytesFrom(s[1..]);
      assert s == [s[0]] + s[1..];
      assert (s[0] + 256 * FromLe(s[1..])) / 256 == FromLe(s[1..]);
    }
  }

  // ----- Two's complement -----

  function ToSigned(n: nat, u: nat): int
    requires u < Limit(n)
  {
    if 2 * u < Limit(n) then u else u - Limit(n)
  }

  function ToUnsigned(n: nat, i: int): (u: nat)
    ensures u < Limit(n)
  {
    i % Limit(n)
  }

  predicate SignedFits(n: nat, i: int) {
    0 - Limit(n) <= 2 * i < Limit(n)
  }

  lemma SignedRoundTrip(n: nat, i: int)
    requires n > 0 && SignedFits(n, i)
    ensures ToSigned(n, ToUnsigned(n, i)) == i
  {
    var m := Limit(n);
    assert m % 2 == 0;
    if i >= 0 {
      DivModUnique(i, m, 0, i);
    } else {
      DivModUnique(i, m, -1, i + m);
    }
  }

  lemma UnsignedRoundTrip(n: nat, u: nat)
    requires n > 0 && u < Limit(n)
    ensures SignedFits(n, ToSigned(n, u)) && ToUnsigned(n, ToSigned(n, u)) == u
  {
    var m := Limit(n);
    if 2 * u < m {
      DivModUnique(u, m, 0, u);
    } else {
      DivModUnique(u - m, m, -1, u);
    }
  }
}
