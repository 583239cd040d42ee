/** Operands packed into one word: three registers in 16 bits, and the two bounds-checked address modes in 32. */
module Packing {
  import opened Bits

  // ----- The packings, as the bit operations that define them -----

  function PackBinary(dst: nat, src1: nat, src2: nat): nat {
    Or(Or(dst, Shl(src1, 5, 16)), Shl(src2, 10, 16))
  }

  function UnpackBinary(bits: nat): (nat, nat, nat) {
    (And(bits, 0x1f), And(Shr(bits, 5), 0x1f), And(Shr(bits, 10), 0x1f))
  }

  /** The same with a six-bit immediate in place of the third register. */
  function UnpackBinaryU6(bits: nat): (nat, nat, nat) {
    (And(bits, 0x1f), And(Shr(bits, 5), 0x1f), And(Shr(bits, 10), 0x3f))
  }

  /** `U6::new`: shifting out and back loses nothing. */
  predicate IsU6(val: Byte) {
    Shr(Shl(val, 2, 8), 2) == val
  }

  function PackG32(base: nat, bound: nat, wasm: nat, offset: nat): nat {
    Or(Or(Or(offset, Shl(wasm, 16, 32)), Shl(bound, 21, 32)), Shl(base, 26, 32))
  }

  function UnpackG32(bits: nat): (nat, nat, nat, nat) {
    (And(Shr(bits, 26), 0x1f), And(Shr(bits, 21), 0x1f), And(Shr(bits, 16), 0x1f), bits % 0x1_0000)
  }

  function PackG32Bne(base: nat, boundAddr: nat, boundOffset: nat, wasm: nat, offset: nat): nat {
    Or(Or(Or(Or(offset, Shl(boundOffset, 8, 32)), Shl(wasm, 16, 32)), Shl(boundAddr, 21, 32)), Shl(base, 26, 32))
  }

  function UnpackG32Bne(bits: nat): (nat, nat, nat, nat, nat) {
    (And(Shr(bits, 26), 0x1f), And(Shr(bits, 21), 0x1f), Shr(bits, 8) % 0x100, And(Shr(bits, 16), 0x1f), bits % 0x100)
  }

  // ----- Their arithmetic -----

  lemma Powers()
    ensures Pow2(5) == 0x20 && Pow2(6) == 0x40 && Pow2(8) == 0x100 && Pow2(10) == 0x400
    ensures Pow2(16) == 0x1_0000 && Pow2(21) == 0x20_0000 && Pow2(26) == 0x400_0000 && Pow2(32) == 0x1_0000_0000
  {
    assert Pow2(5) == 32;
    assert Pow2(10) == 1024;
    assert Pow2(15) == 32768;
    assert Pow2(20) == 0x10_0000;
    assert Pow2(25) == 0x200_0000;
    assert Pow2(30) == 0x4000_0000;
  }

  lemma {:induction false} ShlIs(a: nat, n: nat, width: nat)
    requires a * Pow2(n) < Pow2(width)
    ensures Shl(a, n, width) == a * Pow2(n)
    decreases n
  {
    if n == 0 {
      DivModUnique(a, Pow2(width), 0, a);
    } else {
      assert (2 * a) * Pow2(n - 1) == a * Pow2(n);
      ShlIs(2 * a, n - 1, width);
    }
  }

  lemma ShrIs(a: nat)
    ensures Shr(a, 5) == a / 0x20 && Shr(a, 8) == a / 0x100 && Shr(a, 10) == a / 0x400
  {
    var b := a / 32;
    assert Shr(a, 5) == b;
    assert Shr(a, 8) == Shr(b, 3) == b / 8;
    assert Shr(a, 10) == Shr(b, 5) == b / 32;
  }

  lemma DivDiv(a: nat, m: nat, n: nat)
    requires m > 0 && n > 0
    ensures m * n > 0 && a / m / n == a / (m * n)
  {
    var q, r := a / m, a % m;
    var q2, r2 := q / n, q % n;
    var low := r2 * m + r;
    assert a == q * m + r && q == q2 * n + r2;
    Regroup(q2, n, r2, m);
    Below(r2, n, m, r);
    DivModUnique(a, m * n, q2, low);
  }

  lemma Regroup(x: int, n: int, y: int, m: int)
    ensures (x * n + y) * m == x * (m * n) + y * m
  {
    assert (x * n + y) * m == (x * n) * m + y * m;
    assert (x * n) * m == x * (n * m);
  }

  lemma Below(y: nat, n: nat, m: nat, r: nat)
    requires y < n && r < m
    ensures m * n > 0 && y * m + r < m * n
  {
    assert (n - y) * m >= m by {
      MulAtLeast(n - y, m);
    }
    assert m * n == y * m + (n - y) * m;
  }

  lemma ShrIsFar(a: nat)
    ensures Shr(a, 16) == a / 0x1_0000 && Shr(a, 21) == a / 0x20_0000 && Shr(a, 26) == a / 0x400_0000
  {
    ShrOne(Shr(a, 15));
    ShrOne(Shr(a, 20));
    ShrOne(Shr(a, 25));
    hide Shr;
    ShrIs(a);
    ShrAdd(a, 10, 5);
    ShrIs(Shr(a, 10));
    DivDiv(a, 0x400, 0x20);
    ShrAdd(a, 15, 1);
    DivDiv(a, 0x8000, 2);
    ShrAdd(a, 10, 10);
    DivDiv(a, 0x400, 0x400);
    ShrAdd(a, 20, 1);
    DivDiv(a, 0x10_0000, 2);
    ShrAdd(a, 20, 5);
    ShrIs(Shr(a, 20));
    DivDiv(a, 0x10_0000, 0x20);
    ShrAdd(a, 25, 1);
    DivDiv(a, 0x200_0000, 2);
  }

  lemma ShrOne(a: nat)
    ensures Shr(a, 1) == a / 2
  {
    assert Shr(a / 2, 0) == a / 2;
  }

  lemma {:induction false} ShrAdd(a: nat, m: nat, n: nat)
    ensures Shr(a, m + n) == Shr(Shr(a, m), n)
    decreases m
  {
    if m > 0 {
      ShrAdd(a / 2, m - 1, n);
    }
  }

  lemma PackBinaryIs(dst: nat, src1: nat, src2: nat)
    requires dst < 0x20 && src1 < 0x20 && src2 < 0x40
    ensures PackBinary(dst, src1, src2) == dst + 0x20 * src1 + 0x400 * src2
  {
    Powers();
    hide Pow2, Or, Shl;
    ShlIs(src1, 5, 16);
    ShlIs(src2, 10, 16);
    OrApart(dst, src1, 5);
    OrApart(dst + 0x20 * src1, src2, 10);
  }

  lemma UnpackBinaryIs(bits: nat)
    ensures UnpackBinary(bits) == (bits % 0x20, bits / 0x20 % 0x20, bits / 0x400 % 0x20)
    ensures UnpackBinaryU6(bits) == (bits % 0x20, bits / 0x20 % 0x20, bits / 0x400 % 0x40)
  {
    Powers();
    ShrIs(bits);
    hide Pow2, And, Shr;
    AndMask(bits, 5);
    AndMask(Shr(bits, 5), 5);
    AndMask(Shr(bits, 10), 5);
    AndMask(Shr(bits, 10), 6);
  }

  lemma PackG32Is(base: nat, bound: nat, wasm: nat, offset: nat)
    requires base < 0x20 && bound < 0x20 && wasm < 0x20 && offset < 0x1_0000
    ensures PackG32(base, bound, wasm, offset) == offset + 0x1_0000 * wasm + 0x20_0000 * bound + 0x400_0000 * base
  {
    Powers();
    hide Pow2, Or, Shl;
    ShlIs(wasm, 16, 32);
    ShlIs(bound, 21, 32);
    ShlIs(base, 26, 32);
    OrApart(offset, wasm, 16);
    OrApart(offset + 0x1_0000 * wasm, bound, 21);
    OrApart(offset + 0x1_0000 * wasm + 0x20_0000 * bound, base, 26);
  }

  lemma PackG32BneIs(base: nat, boundAddr: nat, boundOffset: nat, wasm: nat, offset: nat)
    requires base < 0x20 && boundAddr < 0x20 && boundOffset < 0x100 && wasm < 0x20 && offset < 0x100
    ensures PackG32Bne(base, boundAddr, boundOffset, wasm, offset) ==
            offset + 0x100 * boundOffset + 0x1_0000 * wasm + 0x20_0000 * boundAddr + 0x400_0000 * base
  {
    Powers();
    hide Pow2, Or, Shl;
    ShlIs(boundOffset, 8, 32);
    ShlIs(wasm, 16, 32);
    ShlIs(boundAddr, 21, 32);
    ShlIs(base, 26, 32);
    OrApart(offset, boundOffset, 8);
    var low := offset + 0x100 * boundOffset;
    OrApart(low, wasm, 16);
    OrApart(low + 0x1_0000 * wasm, boundAddr, 21);
    OrApart(low + 0x1_0000 * wasm + 0x20_0000 * boundAddr, base, 26);
  }

  lemma UnpackG32Is(bits: nat)
    ensures UnpackG32(bits) ==
            (bits / 0x400_0000 % 0x20, bits / 0x20_0000 % 0x20, bits / 0x1_0000 % 0x20, bits % 0x1_0000)
    ensures UnpackG32Bne(bits) ==
            (bits / 0x400_0000 % 0x20, bits / 0x20_0000 % 0x20, bits / 0x100 % 0x100, bits / 0x1_0000 % 0x20, bits % 0x100)
  {
    Powers();
    ShrIs(bits);
    ShrIsFar(bits);
    hide Pow2, And, Shr;
    AndMask(Shr(bits, 26), 5);
    AndMask(Shr(bits, 21), 5);
    AndMask(Shr(bits, 16), 5);
  }

  // ----- Round trips -----

  lemma BinaryDigits(d: nat, s1: nat, s2: nat)
    requires d < 0x20 && s1 < 0x20
    ensures var bits := d + 0x20 * s1 + 0x400 * s2;
            bits % 0x20 == d && bits / 0x20 % 0x20 == s1 && bits / 0x400 == s2
  {
    var bits := d + 0x20 * s1 + 0x400 * s2;
    DivModUnique(bits, 0x20, s1 + 0x20 * s2, d);
    DivModUnique(s1 + 0x20 * s2, 0x20, s2, s1);
    DivModUnique(bits, 0x400, s2, d + 0x20 * s1);
  }

  /** Unpacking what was packed. */
  lemma BinaryRoundTrip(dst: nat, src1: nat, src2: nat)
    requires dst < 0x20 && src1 < 0x20 && src2 < 0x40
    ensures PackBinary(dst, src1, src2) < 0x1_0000 && UnpackBinaryU6(PackBinary(dst, src1, src2)) == (dst, src1, src2)
    ensures src2 < 0x20 ==> PackBinary(dst, src1, src2) < 0x8000 && UnpackBinary(PackBinary(dst, src1, src2)) == (dst, src1, src2)
  {
    hide PackBinary, UnpackBinary, UnpackBinaryU6;
    PackBinaryIs(dst, src1, src2);
    UnpackBinaryIs(PackBinary(dst, src1, src2));
    BinaryDigits(dst, src1, src2);
  }

  /** Packing what was unpacked: three registers forget the top bit, the immediate form forgets nothing. */
  lemma BinaryWord(bits: nat)
    requires bits < 0x1_0000
    ensures var u := UnpackBinary(bits); u.0 < 0x20 && u.1 < 0x20 && u.2 < 0x20 && PackBinary(u.0, u.1, u.2) == bits % 0x8000
    ensures var u := UnpackBinaryU6(bits); u.0 < 0x20 && u.1 < 0x20 && u.2 < 0x40 && PackBinary(u.0, u.1, u.2) == bits
  {
    hide PackBinary, UnpackBinary, UnpackBinaryU6;
    var d, s1, s2 := bits % 0x20, bits / 0x20 % 0x20, bits / 0x20 / 0x20;
    assert bits == d + 0x20 * s1 + 0x400 * s2;
    BinaryDigits(d, s1, s2);
    UnpackBinaryIs(bits);
    DivModUnique(bits, 0x8000, s2 / 0x20, d + 0x20 * s1 + 0x400 * (s2 % 0x20));
    PackBinaryIs(d, s1, s2 % 0x20);
    PackBinaryIs(d, s1, s2);
  }

  /** The six-bit immediate that unpacking produces is always accepted. */
  lemma U6Range(val: Byte)
    ensures IsU6(val) <==> val < 0x40
  {
    Powers();
    assert Shl(val, 2, 8) == 4 * val % 256;
    assert Shr(4 * val % 256, 2) == (4 * val % 256) / 4;
  }

  /** The four digits of a word, from the lowest: 16 bits, then 5, 5 and 5. */
  lemma Digits(low: nat, d1: nat, d2: nat, d3: nat)
    requires low < 0x1_0000 && d1 < 0x20 && d2 < 0x20 && d3 < 0x40
    ensures var bits := low + 0x1_0000 * d1 + 0x20_0000 * d2 + 0x400_0000 * d3;
            && bits % 0x1_0000 == low && bits / 0x1_0000 % 0x20 == d1
            && bits / 0x20_0000 % 0x20 == d2 && bits / 0x400_0000 == d3
  {
    var bits := low + 0x1_0000 * d1 + 0x20_0000 * d2 + 0x400_0000 * d3;
    DivModUnique(bits, 0x1_0000, d1 + 0x20 * d2 + 0x400 * d3, low);
    DivModUnique(d1 + 0x20 * d2 + 0x400 * d3, 0x20, d2 + 0x20 * d3, d1);
    DivModUnique(bits, 0x20_0000, d2 + 0x20 * d3, low + 0x1_0000 * d1);
    DivModUnique(d2 + 0x20 * d3, 0x20, d3, d2);
    DivModUnique(bits, 0x400_0000, d3, low + 0x1_0000 * d1 + 0x20_0000 * d2);
  }

  /** Every word has such digits. */
  lemma DigitsOf(bits: nat) returns (low: nat, d1: nat, d2: nat, d3: nat)
    requires bits < 0x1_0000_0000
    ensures low < 0x1_0000 && d1 < 0x20 && d2 < 0x20 && d3 < 0x40
    ensures bits == low + 0x1_0000 * d1 + 0x20_0000 * d2 + 0x400_0000 * d3
  {
    low, d1 := bits % 0x1_0000, bits / 0x1_0000 % 0x20;
    var r := bits / 0x1_0000 / 0x20;
    d2, d3 := r % 0x20, r / 0x20;
  }

  lemma DropTop(low: nat, d1: nat, d2: nat, d3: nat)
    requires low < 0x1_0000 && d1 < 0x20 && d2 < 0x20 && d3 < 0x40
    ensures (low + 0x1_0000 * d1 + 0x20_0000 * d2 + 0x400_0000 * d3) % 0x8000_0000 ==
            low + 0x1_0000 * d1 + 0x20_0000 * d2 + 0x400_0000 * (d3 % 0x20)
  {
    var bits := low + 0x1_0000 * d1 + 0x20_0000 * d2 + 0x400_0000 * d3;
    var rest := low + 0x1_0000 * d1 + 0x20_0000 * d2 + 0x400_0000 * (d3 % 0x20);
    DivModUnique(bits, 0x8000_0000, d3 / 0x20, rest);
  }

  lemma G32RoundTrip(base: nat, bound: nat, wasm: nat, offset: nat)
    requires base < 0x20 && bound < 0x20 && wasm < 0x20 && offset < 0x1_0000
    ensures PackG32(base, bound, wasm, offset) < 0x8000_0000
    ensures UnpackG32(PackG32(base, bound, wasm, offset)) == (base, bound, wasm, offset)
  {
    hide PackG32, UnpackG32, UnpackG32Bne;
    PackG32Is(base, bound, wasm, offset);
    UnpackG32Is(PackG32(base, bound, wasm, offset));
    Digits(offset, wasm, bound, base);
  }

  lemma G32Word(bits: nat)
    requires bits < 0x1_0000_0000
    ensures var u := UnpackG32(bits);
            && u.0 < 0x20 && u.1 < 0x20 && u.2 < 0x20 && u.3 < 0x1_0000
            && PackG32(u.0, u.1, u.2, u.3) == bits % 0x8000_0000
  {
    hide PackG32, UnpackG32, UnpackG32Bne;
    var low, d1, d2, d3 := DigitsOf(bits);
    UnpackG32Is(bits);
    Digits(low, d1, d2, d3);
    DropTop(low, d1, d2, d3);
    PackG32Is(d3 % 0x20, d2, d1, low);
  }

  lemma LowHalves(a: nat, b: nat, rest: nat)
    requires a < 0x100 && b < 0x100
    ensures var bits := a + 0x100 * b + 0x1_0000 * rest; bits % 0x100 == a && bits / 0x100 % 0x100 == b
  {
    var bits := a + 0x100 * b + 0x1_0000 * rest;
    DivModUnique(bits, 0x100, b + 0x100 * rest, a);
    DivModUnique(b + 0x100 * rest, 0x100, rest, b);
  }

  lemma G32BneRoundTrip(base: nat, boundAddr: nat, boundOffset: nat, wasm: nat, offset: nat)
    requires base < 0x20 && boundAddr < 0x20 && boundOffset < 0x100 && wasm < 0x20 && offset < 0x100
    ensures PackG32Bne(base, boundAddr, boundOffset, wasm, offset) < 0x8000_0000
    ensures UnpackG32Bne(PackG32Bne(base, boundAddr, boundOffset, wasm, offset)) ==
            (base, boundAddr, boundOffset, wasm, offset)
  {
    hide PackG32Bne, UnpackG32, UnpackG32Bne;
    PackG32BneIs(base, boundAddr, boundOffset, wasm, offset);
    UnpackG32Is(PackG32Bne(base, boundAddr, boundOffset, wasm, offset));
    Digits(offset + 0x100 * boundOffset, wasm, boundAddr, base);
    LowHalves(offset, boundOffset, wasm + 0x20 * boundAddr + 0x400 * base);
  }

  lemma G32BneWord(bits: nat)
    requires bits < 0x1_0000_0000
    ensures var u := UnpackG32Bne(bits);
            && u.0 < 0x20 && u.1 < 0x20 && u.2 < 0x100 && u.3 < 0x20 && u.4 < 0x100
            && PackG32Bne(u.0, u.1, u.2, u.3, u.4) == bits % 0x8000_0000
  {
    hide PackG32Bne, UnpackG32, UnpackG32Bne;
    var low, d1, d2, d3 := DigitsOf(bits);
    UnpackG32Is(bits);
    Digits(low, d1, d2, d3);
    DropTop(low, d1, d2, d3);
    var a, b := low % 0x100, low / 0x100;
    LowHalves(a, b, d1 + 0x20 * d2 + 0x400 * d3);
    PackG32BneIs(d3 % 0x20, d2, b, d1, a);
  }
}
