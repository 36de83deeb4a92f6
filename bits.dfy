/** The fixed-width integers of the firmware and the bit operations it applies to them.
    Every value here is non-negative, so C's `>>`, `&` and `|` are stated with Dafny's
    Euclidean `/` and `%`, which agree with C on non-negative operands. */
module Bits {

  /** `uint8_t` */
  type Byte = x: int | 0 <= x < 256

  /** `uint16_t` */
  type Word = x: int | 0 <= x < 65536

  function Pow2(n: nat): (r: nat)
    ensures r >= 1
  {
    if n == 0 then 1 else 2 * Pow2(n - 1)
  }

  /** The widths the firmware uses: a byte, the 15 address lines, a `uint16_t`. */
  lemma Pow2Widths()
    ensures Pow2(8) == 256 && Pow2(15) == 32768 && Pow2(16) == 65536
  {
    assert Pow2(8) == 256;
    assert Pow2(15) == 32768;
  }

  /** The implicit conversion of a non-negative `int` to `uint8_t`: a value that fits is kept, and
      otherwise only its low eight bits survive. */
  function ToByte(x: nat): (r: Byte)
    ensures x < 256 ==> r == x
    ensures forall i :: 0 <= i < 8 ==> Bit(r, i) == Bit(x, i)
  {
    Pow2Widths();
    LowBits(x, 8);
    x % 256
  }

  /** The implicit conversion of a non-negative `int` to `uint16_t`: a value that fits is kept, and
      otherwise only its low sixteen bits survive. */
  function ToWord(x: nat): (r: Word)
    ensures x < 65536 ==> r == x
    ensures forall i :: 0 <= i < 16 ==> Bit(r, i) == Bit(x, i)
  {
    Pow2Widths();
    LowBits(x, 16);
    x % 65536
  }

  /** `(x >> i) & 1`: bit `i` of `x`, as the number 0 or 1. */
  function Bit(x: nat, i: nat): (b: nat)
    ensures b <= 1
  {
    if i == 0 then x % 2 else Bit(x / 2, i - 1)
  }

  /** `a | b` on non-negative integers, one bit at a time from the least significant end. The result
      covers both operands and, having no carries, never exceeds their sum. */
  function Or(a: nat, b: nat): (r: nat)
    ensures a <= r && b <= r && r <= a + b
    decreases a + b
  {
    if a == 0 then b
    else if b == 0 then a
    else 2 * Or(a / 2, b / 2) + (if a % 2 == 1 || b % 2 == 1 then 1 else 0)
  }

  /** The bits `Bit(x, 0), ..., Bit(x, n - 1)` as line levels (true = 1), least significant first. */
  function BitsOf(x: nat, n: nat): (bits: seq<bool>)
    ensures |bits| == n
    ensures forall i :: 0 <= i < n ==> bits[i] == (Bit(x, i) == 1)
  {
    seq(n, i requires 0 <= i < n => Bit(x, i) == 1)
  }

  /** The number a row of line levels encodes, least significant line first. */
  function BitsValue(bits: seq<bool>): (v: nat)
    ensures v < Pow2(|bits|)
  {
    if bits == [] then 0 else (if bits[0] then 1 else 0) + 2 * BitsValue(bits[1..])
  }

  lemma BitOfZero(i: nat)
    ensures Bit(0, i) == 0
  {
  }

  /** `|` is bitwise: bit `i` of `a | b` is set exactly when it is set in `a` or in `b`. */
  lemma {:induction false} OrBit(a: nat, b: nat, i: nat)
    ensures Bit(Or(a, b), i) == 1 <==> Bit(a, i) == 1 || Bit(b, i) == 1
    decreases a + b
  {
    if a == 0 {
      BitOfZero(i);
    } else if b == 0 {
      BitOfZero(i);
    } else {
      var c := if a % 2 == 1 || b % 2 == 1 then 1 else 0;
      var v := 2 * Or(a / 2, b / 2) + c;
      assert Or(a, b) == v;
      if i > 0 {
        assert v / 2 == Or(a / 2, b / 2);
        OrBit(a / 2, b / 2, i - 1);
      }
    }
  }

  /** Or-ing a value below `2^k` into a multiple of `2^k` is addition: the two share no bit. */
  lemma {:induction false} OrIntoZeroBits(a: nat, b: nat, k: nat)
    requires b < Pow2(k)
    ensures Or(a * Pow2(k), b) == a * Pow2(k) + b
  {
    if k == 0 {
      assert b == 0;
    } else if a != 0 && b != 0 {
      var h := a * Pow2(k - 1);
      assert a * Pow2(k) == 2 * h;
      assert (2 * h) / 2 == h && (2 * h) % 2 == 0;
      OrIntoZeroBits(a, b / 2, k - 1);
      assert Or(h, b / 2) == h + b / 2;
    }
  }

  lemma {:induction false} MulAtLeast(d: nat, k: nat)
    requires k >= 1
    ensures d * k >= d
  {
    if k > 1 {
      MulAtLeast(d, k - 1);
      assert d * k == d * (k - 1) + d;
    }
  }

  /** Euclidean division is determined by any decomposition with an in-range remainder. */
  lemma ModUnique(x: int, d: nat, q: int, r: int)
    requires d > 0 && x == d * q + r && 0 <= r < d
    ensures x % d == r && x / d == q
  {
    var k := x / d - q;
    assert d * k == r - x % d;
    if k > 0 {
      MulAtLeast(d, k);
      assert false;
    }
  }

  lemma ModDouble(x: nat, m: nat)
    requires m >= 1
    ensures x % (2 * m) == x % 2 + 2 * ((x / 2) % m)
    ensures x / (2 * m) == (x / 2) / m
  {
    var q, r := (x / 2) / m, (x / 2) % m;
    assert x / 2 == m * q + r;
    assert x == (2 * m) * q + (x % 2 + 2 * r);
    ModUnique(x, 2 * m, q, x % 2 + 2 * r);
  }

  /** Reading back the levels `BitsOf(x, n)` gives the low `n` bits of `x`: everything from bit `n`
      upwards is lost. */
  lemma {:induction false} ValueOfBits(x: nat, n: nat)
    ensures BitsValue(BitsOf(x, n)) == x % Pow2(n)
  {
    if n > 0 {
      var bits := BitsOf(x, n);
      assert bits[1..] == BitsOf(x / 2, n - 1);
      ValueOfBits(x / 2, n - 1);
      ModDouble(x, Pow2(n - 1));
    }
  }

  /** `(x >> i) & 1` is the remainder modulo 2 of `x` shifted right by `i`, that is divided by `2^i`. */
  lemma {:induction false} BitShift(x: nat, i: nat)
    ensures Bit(x, i) == (x / Pow2(i)) % 2
  {
    if i > 0 {
      BitShift(x / 2, i - 1);
      ModDouble(x, Pow2(i - 1));
    }
  }

  /** Reduction modulo `2^n` keeps bits `0..n-1`. */
  lemma {:induction false} LowBits(x: nat, n: nat)
    ensures forall i :: 0 <= i < n ==> Bit(x % Pow2(n), i) == Bit(x, i)
  {
    if n > 0 {
      ModDouble(x, Pow2(n - 1));
      LowBits(x / 2, n - 1);
      forall i | 0 <= i < n
        ensures Bit(x % Pow2(n), i) == Bit(x, i)
      {
        var r := x % Pow2(n);
        assert r % 2 == x % 2 && r / 2 == (x / 2) % Pow2(n - 1);
      }
    }
  }
}
