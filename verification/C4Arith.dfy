/** What the operators of the machine compute, as laws: order, division, shifts, bits and residues modulo 2^32. Together
    with the range of `Arith` each group of laws leaves one possible result. */
module C4Arith {
  import opened Common
  import opened C4Syntax

  /** The result where there is one. */
  function Val(op: BinOp, x: int, y: int): int
    requires Arith(op, x, y).Some?
  {
    Arith(op, x, y).value
  }

  // ---------------------------------------------------------------- order

  lemma Order(x: int, y: int)
    ensures Val(Lt, x, y) == 1 <==> exists d: nat :: Above(x, d) == y
    ensures Val(Gt, x, y) == Val(Lt, y, x)
    ensures Val(Le, x, y) == 1 - Val(Lt, y, x) && Val(Ge, x, y) == 1 - Val(Lt, x, y)
    ensures Val(Eq, x, y) == Val(Le, x, y) * Val(Le, y, x) && Val(Ne, x, y) == Val(Lt, x, y) + Val(Lt, y, x)
  {
    if x < y { assert Above(x, y - x - 1) == y; }
  }

  function Above(x: int, d: nat): int { x + d + 1 }

  // ---------------------------------------------------------------- residues

  /** Different by a multiple of 2^32. */
  predicate Congruent(x: int, y: int) { (x - y) % 0x1_0000_0000 == 0 }

  lemma Residues(x: int, y: int)
    ensures Congruent(Val(Add, x, y), x + y) && Congruent(Val(Sub, x, y), x - y) && Congruent(Val(Mul, x, y), x * y)
  {
    WrapCongruent(x + y);
    WrapCongruent(x - y);
    WrapCongruent(x * y);
  }

  lemma WrapCongruent(x: int)
    ensures Congruent(Wrap(x), x)
  {
    var q := (x + 0x8000_0000) / 0x1_0000_0000;
    assert Wrap(x) - x == 0x1_0000_0000 * -q;
  }

  /** A 32-bit int is known by its residue. */
  lemma OneResidue(x: int, y: int)
    requires Int32(x) && Int32(y) && Congruent(x, y)
    ensures x == y
  {
  }

  lemma SameWrap(x: int, y: int)
    requires Congruent(x, y)
    ensures Wrap(x) == Wrap(y)
  {
    WrapCongruent(x);
    WrapCongruent(y);
    var k, i, j := (x - y) / 0x1_0000_0000, (Wrap(x) - x) / 0x1_0000_0000, (Wrap(y) - y) / 0x1_0000_0000;
    assert Wrap(x) - Wrap(y) == 0x1_0000_0000 * (k + i - j);
    OneResidue(Wrap(x), Wrap(y));
  }

  // ---------------------------------------------------------------- division

  function Abs(x: int): nat { if x < 0 then -x else x }

  /** Quotient and remainder of C: the remainder is smaller than the divisor and has the sign of the dividend. */
  lemma Division(x: int, y: int)
    requires Int32(x) && Int32(y) && Arith(Div, x, y).Some?
    ensures Arith(Mod, x, y).Some?
    ensures var q, r := Val(Div, x, y), Val(Mod, x, y);
      x == y * q + r && Abs(r) < Abs(y) && (x < 0 ==> r <= 0) && (x >= 0 ==> r >= 0)
  {
    hide TruncDiv, Abs;
    Remainder(x, y);
    var t := TruncDiv(x, y);
    DivVal(x, y);
    ModVal(x, y);
  }

  lemma DivVal(x: int, y: int)
    requires Arith(Div, x, y).Some?
    ensures y != 0 && Arith(Div, x, y) == Some(Wrap(TruncDiv(x, y)))
  {
    hide TruncDiv;
  }

  lemma ModVal(x: int, y: int)
    requires Arith(Div, x, y).Some?
    ensures y != 0 && Arith(Mod, x, y) == Some(Wrap(x - y * TruncDiv(x, y)))
  {
    hide TruncDiv;
  }

  lemma Remainder(x: int, y: int)
    requires Int32(x) && Int32(y) && Arith(Div, x, y).Some?
    ensures y != 0 && Int32(TruncDiv(x, y)) && Int32(x - y * TruncDiv(x, y))
    ensures var r := x - y * TruncDiv(x, y); Abs(r) < Abs(y) && (x < 0 ==> r <= 0) && (x >= 0 ==> r >= 0)
  {
    hide TruncDiv, Arith;
    Defined(x, y);
    var q, r := Euclid(Abs(x), Abs(y));
    Truncated(x, y, q, r);
    QuotientFits(x, y, q, r);
  }

  lemma Defined(x: int, y: int)
    ensures Arith(Div, x, y).Some? <==> y != 0 && !(x == -0x8000_0000 && y == -1)
  {
  }

  lemma Euclid(a: nat, b: nat) returns (q: nat, r: nat)
    requires b > 0
    ensures a == b * q + r && r < b && q == a / b
  {
    q, r := a / b, a % b;
  }

  lemma Truncated(x: int, y: int, q: int, r: int)
    requires y != 0 && Abs(x) == Abs(y) * q + r && 0 <= r < Abs(y) && q == Abs(x) / Abs(y)
    ensures TruncDiv(x, y) == if (x < 0) == (y < 0) then q else -q
    ensures x - y * TruncDiv(x, y) == if x < 0 then -r else r
  {
    assert TruncDiv(x, y) == if (x < 0) == (y < 0) then q else -q;
    assert y * -q == -(y * q) && (-y) * q == -(y * q);
  }

  lemma QuotientFits(x: int, y: int, q: int, r: int)
    requires Int32(x) && Int32(y) && y != 0 && !(x == -0x8000_0000 && y == -1)
    requires Abs(x) == Abs(y) * q + r && 0 <= r < Abs(y) && q >= 0 && q == Abs(x) / Abs(y)
    ensures Int32(TruncDiv(x, y))
  {
    Truncated(x, y, q, r);
    hide TruncDiv;
    if Abs(y) > 1 { Grows(Abs(y), 2, q); }
  }

  lemma Grows(a: nat, b: nat, q: nat)
    requires a >= b
    ensures a * q >= b * q
  {
  }

  // ---------------------------------------------------------------- shifts

  /** Shifting left by one more doubles once more. */
  lemma ShiftLeft(x: int, n: nat)
    requires Int32(x) && n < 31
    ensures Val(Shl, x, 0) == x
    ensures var v := Val(Shl, x, n); Val(Shl, x, n + 1) == Val(Add, v, v)
  {
    var w := x * Power2(n);
    assert x * Power2(n + 1) == 2 * w;
    WrapCongruent(w);
    var k := (Wrap(w) - w) / 0x1_0000_0000;
    assert Wrap(w) + Wrap(w) - 2 * w == 0x1_0000_0000 * (2 * k);
    SameWrap(Wrap(w) + Wrap(w), 2 * w);
  }

  /** Shifting right by one more halves once more, rounding down: the sign is kept. */
  lemma ShiftRight(x: int, n: nat)
    requires Int32(x) && n < 31
    ensures Val(Shr, x, 0) == x
    ensures var v, w := Val(Shr, x, n), Val(Shr, x, n + 1); 2 * w <= v <= 2 * w + 1
  {
    hide Power2;
    Doubles(n);
    var p := Power2(n);
    Between(x, p);
    Between(x, 2 * p);
    Halves(x, p);
    ShrVal(x, n);
    ShrVal(x, n + 1);
    ShrVal(x, 0);
  }

  lemma Doubles(n: nat)
    ensures Power2(n + 1) == 2 * Power2(n) && Power2(0) == 1
  {
  }

  lemma ShrVal(x: int, n: nat)
    requires n < 32
    ensures Arith(Shr, x, n) == Some(Wrap(x / Power2(n)))
  {
  }

  lemma Halves(x: int, p: int)
    requires p >= 1
    ensures 2 * (x / (2 * p)) <= x / p <= 2 * (x / (2 * p)) + 1
  {
    var w, r := x / (2 * p), x % (2 * p);
    assert x == p * (2 * w) + r;
    if r < p {
      Unique(x, p, 2 * w, r);
    } else {
      assert x == p * (2 * w + 1) + (r - p);
      Unique(x, p, 2 * w + 1, r - p);
    }
  }

  lemma Between(x: int, p: int)
    requires Int32(x) && p >= 1
    ensures Int32(x / p)
  {
    var q, r := x / p, x % p;
    assert x == p * q + r;
    if q >= 0 { Grows(p, 1, q); } else { Grows(p, 1, -q); assert p * -q == -(p * q); }
  }

  lemma Unique(x: int, p: int, q: int, r: int)
    requires p >= 1 && x == p * q + r && 0 <= r < p
    ensures x / p == q
  {
    var a := x / p;
    assert x == p * a + x % p;
    Apart(p, a, q, x % p, r);
  }

  lemma Apart(p: int, a: int, q: int, s: int, r: int)
    requires p >= 1 && p * a + s == p * q + r && 0 <= r < p && 0 <= s < p
    ensures a == q
  {
    if a > q { Grows(a - q, 1, p); } else if a < q { Grows(q - a, 1, p); }
  }

  // ---------------------------------------------------------------- bits

  /** Bit `i` of a two's complement integer. */
  predicate Bit(x: int, i: nat)
    decreases i
  { 
    if i == 0 then x % 2 == 1 else Bit(x / 2, i - 1)
  }

  /** Every bit of the result is the operation on the bits. */
  lemma Bits(op: BinOp, x: int, y: int, i: nat)
    requires Int32(x) && Int32(y) && op in {Or, Xor, And}
    ensures var b, c := Bit(x, i), Bit(y, i);
      Bit(Val(op, x, y), i) <==> if op == Or then b || c else if op == Xor then b != c else b && c
  {
    hide Bitwise, Bit;
    PowerIs31();
    BitwiseFits(op, x, y, 31);
    BitwiseBit(op, x, y, i);
  }

  lemma PowerIs31()
    ensures Power2(31) == 0x8000_0000
  {
    assert Power2(8) == 256;
    assert Power2(16) == 256 * Power2(8);
    assert Power2(24) == 256 * Power2(16);
  }

  lemma {:induction false} BitwiseBit(op: BinOp, x: int, y: int, i: nat)
    ensures Bit(Bitwise(op, x, y), i) <==> Truth(op, Bit(x, i), Bit(y, i))
    decreases i
  {
    if Magnitude(x) == 0 && Magnitude(y) == 0 {
      Constant(x, i);
      Constant(y, i);
      Constant(Bitwise(op, x, y), i);
    } else {
      var z, c := Bitwise(op, x / 2, y / 2), if Truth(op, x % 2 == 1, y % 2 == 1) then 1 else 0;
      Halved(Bitwise(op, x, y), z, c);
      if i > 0 { BitwiseBit(op, x / 2, y / 2, i - 1); }
    }
  }

  lemma Halved(x: int, z: int, c: int)
    requires x == 2 * z + c && 0 <= c <= 1
    ensures x / 2 == z && x % 2 == c
  {
  }

  lemma {:induction false} Constant(x: int, i: nat)
    requires Magnitude(x) == 0
    ensures Bit(x, i) <==> x == -1
  {
    if i > 0 { Constant(x, i - 1); }
  }

  lemma {:induction false} BitwiseFits(op: BinOp, x: int, y: int, n: nat)
    requires -Power2(n) <= x < Power2(n) && -Power2(n) <= y < Power2(n)
    ensures -Power2(n) <= Bitwise(op, x, y) < Power2(n)
    decreases n
  {
    if n > 0 && !(Magnitude(x) == 0 && Magnitude(y) == 0) { BitwiseFits(op, x / 2, y / 2, n - 1); }
  }

  /** A 32-bit int is known by its 32 bits. */
  lemma KnownByBits(x: int, y: int)
    requires Int32(x) && Int32(y) && forall i: nat | i < 32 :: Bit(x, i) <==> Bit(y, i)
    ensures x == y
  {
    PowerIs31();
    SameBits(x, y, 31);
  }

  lemma {:induction false} SameBits(x: int, y: int, n: nat)
    requires -Power2(n) <= x < Power2(n) && -Power2(n) <= y < Power2(n)
    requires forall i: nat | i <= n :: Bit(x, i) <==> Bit(y, i)
    ensures x == y
    decreases n
  {
    assert Bit(x, 0) <==> Bit(y, 0);
    if n > 0 {
      forall i: nat | i <= n - 1 ensures Bit(x / 2, i) <==> Bit(y / 2, i) { assert Bit(x, i + 1) <==> Bit(y, i + 1); }
      SameBits(x / 2, y / 2, n - 1);
    }
  }
}
