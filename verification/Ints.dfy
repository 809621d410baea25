/** The 64-bit two's complement integers of the host language, with its operators. */
module Ints {
  const MIN_INT64 := -0x8000_0000_0000_0000
  const TWO_64 := 0x1_0000_0000_0000_0000
  const TWO_32 := 0x1_0000_0000

  type Int64 = x: int | -0x8000_0000_0000_0000 <= x < 0x8000_0000_0000_0000

  predicate InRange(x: int) {
    -0x8000_0000_0000_0000 <= x < 0x8000_0000_0000_0000
  }

  /** The representative of x modulo 2^64 in the signed range. */
  function Wrap(x: int): (r: Int64)
    ensures InRange(x) ==> r == x
    ensures (r - x) % TWO_64 == 0
  {
    var m := x % TWO_64;
    if m >= 0x8000_0000_0000_0000 then m - TWO_64 else m
  }

  /** Division that rounds toward zero. */
  function Quotient(a: int, b: int): int
    requires b != 0
  {
    var q := Abs(a) / Abs(b);
    if (a < 0) == (b < 0) then q else -q
  }

  /** The remainder that goes with Quotient: it has the sign of a. */
  function Remainder(a: int, b: int): (r: int)
    requires b != 0
  {
    a - Quotient(a, b) * b
  }

  function Abs(a: int): nat {
    if a < 0 then -a else a
  }

  function Power(base: int, exponent: nat): int {
    if exponent == 0 then 1 else base * Power(base, exponent - 1)
  }

  /** The cast of a signed 64-bit integer to 32 unsigned bits. */
  function AsU32(a: int): nat {
    a % TWO_32
  }

  function ShiftLeft(a: Int64, amount: nat): Int64 {
    Wrap(a * Power(2, amount))
  }

  /** The arithmetic (sign-extending) right shift. */
  function ShiftRight(a: Int64, amount: nat): Int64
    decreases amount
  {
    if amount == 0 then a else ShiftRight(a / 2, amount - 1)
  }

  /** The lowest n bits of a and b, and their signs, combined bit by bit. */
  function Bitwise(f: (bool, bool) -> bool, a: int, b: int, n: nat): int
    decreases n
  {
    if n == 0 then if f(a < 0, b < 0) then -1 else 0
    else 2 * Bitwise(f, a / 2, b / 2, n - 1) + if f(a % 2 == 1, b % 2 == 1) then 1 else 0
  }

  lemma {:induction false} BitwiseInRange(f: (bool, bool) -> bool, a: int, b: int, n: nat)
    ensures -Power(2, n) <= Bitwise(f, a, b, n) < Power(2, n)
    decreases n
  {
    if n > 0 {
      BitwiseInRange(f, a / 2, b / 2, n - 1);
    }
  }

  function Combine(f: (bool, bool) -> bool, a: Int64, b: Int64): Int64 {
    BitwiseInRange(f, a, b, 63);
    Power63();
    Bitwise(f, a, b, 63)
  }

  lemma Power63()
    ensures Power(2, 63) == 0x8000_0000_0000_0000
  {
    assert Power(2, 8) == 0x100;
    PowerAdds(2, 8, 8);
    PowerAdds(2, 16, 16);
    PowerAdds(2, 32, 16);
    PowerAdds(2, 48, 8);
    assert Power(2, 7) == 0x80;
    PowerAdds(2, 56, 7);
  }

  function BitAnd(a: Int64, b: Int64): Int64 {
    Combine((x: bool, y: bool) => x && y, a, b)
  }

  function BitOr(a: Int64, b: Int64): Int64 {
    Combine((x: bool, y: bool) => x || y, a, b)
  }

  function BitXor(a: Int64, b: Int64): Int64 {
    Combine((x: bool, y: bool) => x != y, a, b)
  }

  /** In two's complement the complement of a is -a - 1. */
  function BitNot(a: Int64): Int64 {
    -1 - a
  }

  // ---------------------------------------------------------------- what the operators compute

  // Division rounds toward zero: the remainder is smaller than the divisor and has the sign of the dividend.
  lemma DivisionRoundsTowardZero(a: int, b: int)
    requires b != 0
    ensures var q, r := Quotient(a, b), Remainder(a, b);
            && a == q * b + r && (if b < 0 then b < r < -b else -b < r < b)
            && (r != 0 ==> (r < 0 <==> a < 0))
  {
    var q, r := Abs(a) / Abs(b), Abs(a) % Abs(b);
    assert Abs(a) == q * Abs(b) + r;
    assert q * b == -((-q) * b) && q * -b == -(q * b);
  }

  lemma QuotientIsSmaller(a: int, b: int)
    requires b != 0
    ensures Abs(Quotient(a, b)) <= Abs(a) && (Abs(b) > 1 ==> 2 * Abs(Quotient(a, b)) <= Abs(a))
    ensures b == 1 ==> Quotient(a, b) == a
    ensures b == -1 ==> Quotient(a, b) == -a
  {
    var q, r := Abs(a) / Abs(b), Abs(a) % Abs(b);
    MultipleIsLarger(q, Abs(b), r, Abs(a));
  }

  lemma MultipleIsLarger(q: nat, d: nat, r: nat, n: nat)
    requires n == q * d + r && d > 0
    ensures q <= n && (d > 1 ==> 2 * q <= n)
  {
    assert q * d == q * (d - 1) + q;
    if d > 1 {
      assert q * d == q * (d - 2) + 2 * q;
    }
  }

  // The laws of powers leave no other function.
  lemma {:induction false} PowerAdds(x: int, m: nat, n: nat)
    ensures Power(x, 0) == 1 && Power(x, 1) == x && Power(x, m + n) == Power(x, m) * Power(x, n)
  {
    if m > 0 {
      PowerAdds(x, m - 1, n);
      assert x * (Power(x, m - 1) * Power(x, n)) == x * Power(x, m - 1) * Power(x, n);
    }
  }

  // The right shift is division by a power of two, rounded down.
  lemma {:induction false} ShiftRightRoundsDown(a: Int64, n: nat)
    ensures ShiftRight(a, n) * Power(2, n) <= a < (ShiftRight(a, n) + 1) * Power(2, n)
    decreases n
  {
    if n > 0 {
      ShiftRightRoundsDown(a / 2, n - 1);
      var r, p := ShiftRight(a / 2, n - 1), Power(2, n - 1);
      HalfRoundsDown(a, r, p);
      assert ShiftRight(a, n) == r && Power(2, n) == 2 * p;
    }
  }

  lemma HalfRoundsDown(a: int, r: int, p: int)
    requires r * p <= a / 2 < (r + 1) * p
    ensures r * (2 * p) <= a < (r + 1) * (2 * p)
  {
    Doubled(r, p);
    Doubled(r + 1, p);
  }

  lemma Doubled(r: int, p: int)
    ensures r * (2 * p) == 2 * (r * p)
  {
  }

  /** Bit k of a in two's complement. */
  predicate Bit(a: int, k: nat)
    decreases k
  {
    if k == 0 then a % 2 == 1 else Bit(a / 2, k - 1)
  }

  lemma {:induction false} BitsOfBitwise(f: (bool, bool) -> bool, a: int, b: int, n: nat, k: nat)
    requires -Power(2, n) <= a < Power(2, n) && -Power(2, n) <= b < Power(2, n)
    ensures Bit(Bitwise(f, a, b, n), k) == f(Bit(a, k), Bit(b, k))
    decreases n + k
  {
    if n == 0 {
      SignBits(a, k);
      SignBits(b, k);
      SignBits(Bitwise(f, a, b, n), k);
    } else if k > 0 {
      BitsOfBitwise(f, a / 2, b / 2, n - 1, k - 1);
      assert Bitwise(f, a, b, n) / 2 == Bitwise(f, a / 2, b / 2, n - 1);
    }
  }

  lemma {:induction false} SignBits(a: int, k: nat)
    requires a == 0 || a == -1
    ensures Bit(a, k) <==> a < 0
    decreases k
  {
    if k > 0 {
      SignBits(a, k - 1);
    }
  }

  lemma {:induction false} BitsOfComplement(a: int, k: nat)
    ensures Bit(-1 - a, k) == !Bit(a, k)
    decreases k
  {
    if k > 0 {
      BitsOfComplement(a / 2, k - 1);
      assert (-1 - a) / 2 == -1 - a / 2;
    }
  }

  // The bit operations, bit by bit, up to the sign and beyond.
  lemma BitOperationsBitByBit(a: Int64, b: Int64, k: nat)
    ensures Bit(BitAnd(a, b), k) <==> Bit(a, k) && Bit(b, k)
    ensures Bit(BitOr(a, b), k) <==> Bit(a, k) || Bit(b, k)
    ensures Bit(BitXor(a, b), k) <==> Bit(a, k) != Bit(b, k)
    ensures Bit(BitNot(a), k) <==> !Bit(a, k)
  {
    hide Bit, Combine, BitNot;
    BitsOfCombine((x: bool, y: bool) => x && y, a, b, k);
    BitsOfCombine((x: bool, y: bool) => x || y, a, b, k);
    BitsOfCombine((x: bool, y: bool) => x != y, a, b, k);
    BitsOfNot(a, k);
  }

  lemma BitsOfNot(a: Int64, k: nat)
    ensures Bit(BitNot(a), k) <==> !Bit(a, k)
  {
    hide Bit;
    BitsOfComplement(a, k);
  }

  lemma BitsOfCombine(f: (bool, bool) -> bool, a: Int64, b: Int64, k: nat)
    ensures Bit(Combine(f, a, b), k) == f(Bit(a, k), Bit(b, k))
  {
    hide Bit, Bitwise, Power;
    Power63();
    BitsOfBitwise(f, a, b, 63, k);
  }

  // A number of 64 bits is determined by its bits.
  lemma {:induction false} BitsDetermine(a: int, b: int, n: nat)
    requires -Power(2, n) <= a < Power(2, n) && -Power(2, n) <= b < Power(2, n)
    requires forall k: nat :: k <= n ==> Bit(a, k) == Bit(b, k)
    ensures a == b
    decreases n
  {
    assert Bit(a, 0) == Bit(b, 0);
    if n > 0 {
      forall k: nat | k <= n - 1
        ensures Bit(a / 2, k) == Bit(b / 2, k)
      {
        assert Bit(a, k + 1) == Bit(b, k + 1);
      }
      BitsDetermine(a / 2, b / 2, n - 1);
    }
  }

  lemma ModuloIsTheRemainder(b: int, quotient: int, rest: int)
    requires b == 64 * quotient + rest && 0 <= rest < 64
    ensures b % 64 == rest
  {
  }

  // Reducing a shift amount to 32 bits first does not change its last six bits.
  lemma ShiftAmountMask(b: int)
    ensures AsU32(b) % 64 == b % 64
  {
    var high, low := b / TWO_32, AsU32(b);
    ModuloIsTheRemainder(b, high * 0x400_0000 + low / 64, low % 64);
  }

  lemma QuotientByOne(a: int)
    ensures Quotient(a, 1) == a
  {
  }
}
