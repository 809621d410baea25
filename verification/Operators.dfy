/** What the interpreter's operators compute, said without its own tables. */
module Operators {
  import opened Ints
  import opened Mir

  /** a and b differ by a multiple of 2^64. */
  predicate Congruent(a: int, b: int) {
    (a - b) % 0x1_0000_0000_0000_0000 == 0
  }

  // Two numbers of 64 bits that differ by a multiple of 2^64 are one: congruence says what a wrapped result is.
  lemma CongruentIsEqual(a: Int64, b: Int64)
    requires Congruent(a, b)
    ensures a == b
  {
  }

  /** The operators that give an integer for two integers. */
  predicate IsArithmetic(op: BinOp) {
    !(op in {Eq, NotEq, Lt, Gt, LtEq, GtEq})
  }

  lemma ArithmeticGivesIntegers(op: BinOp, a: Int64, b: Int64)
    ensures EvalBinary(op, Integer(a), Integer(b)).Integer? <==> IsArithmetic(op)
    ensures !IsArithmetic(op) ==> EvalBinary(op, Integer(a), Integer(b)).Bool?
  {
    hide Wrap, Quotient, Remainder, Power, AsU32, ShiftLeft, ShiftRight, Combine;
  }

  /** The integer an arithmetic operator gives for two integers. */
  function Result(op: BinOp, a: Int64, b: Int64): Int64
    requires IsArithmetic(op)
  {
    ArithmeticGivesIntegers(op, a, b);
    EvalBinary(op, Integer(a), Integer(b)).i
  }

  // Sums, differences and products wrap around.
  lemma SumsWrap(a: Int64, b: Int64)
    ensures Congruent(Result(Add, a, b), a + b) && Congruent(Result(Sub, a, b), a - b)
    ensures Congruent(Result(Mul, a, b), a * b)
  {
  }

  // Division rounds toward zero, and the remainder has the sign of the dividend; by zero both give zero. The one
  // quotient that does not fit stops every build.
  lemma DivisionTruncates(m: Mode, a: Int64, b: Int64)
    ensures b == 0 ==> Result(Div, a, b) == 0 && Result(Mod, a, b) == 0
    ensures b != 0 && !(a == -0x8000_0000_0000_0000 && b == -1) ==>
              var q, r := Result(Div, a, b), Result(Mod, a, b);
              && a == q * b + r && (if b < 0 then b < r < 0 - b else 0 - b < r < b) && (r != 0 ==> (r < 0 <==> a < 0))
    ensures a == -0x8000_0000_0000_0000 && b == -1 ==>
              Faults(m, Div, Integer(a), Integer(b)) && Faults(m, Mod, Integer(a), Integer(b))
  {
    if b != 0 {
      DivisionRoundsTowardZero(a, b);
      if !(a == -0x8000_0000_0000_0000 && b == -1) {
        QuotientFits(a, b);
      }
    }
    hide Quotient, Remainder;
  }

  lemma QuotientFits(a: Int64, b: Int64)
    requires b != 0 && !(a == -0x8000_0000_0000_0000 && b == -1)
    ensures InRange(Quotient(a, b)) && InRange(Remainder(a, b))
  {
    DivisionRoundsTowardZero(a, b);
    QuotientIsSmaller(a, b);
    hide Quotient, Remainder;
  }

  // Powers wrap around, with the exponent taken modulo 2^32.
  lemma PowersWrap(a: Int64, b: Int64, n: nat)
    requires n < 0x1_0000_0000 && (b - n) % 0x1_0000_0000 == 0
    ensures Congruent(Result(Pow, a, b), Power(a, n))
  {
    ExponentIs(b, n);
    hide Power, AsU32, Quotient, Remainder, ShiftLeft, ShiftRight, Combine;
  }

  lemma ExponentIs(b: Int64, n: nat)
    requires n < 0x1_0000_0000 && (b - n) % 0x1_0000_0000 == 0
    ensures AsU32(b) == n
  {
  }

  // Shifts take the amount modulo 64. To the left they multiply and wrap, to the right they divide and round down.
  lemma ShiftsScale(a: Int64, b: Int64, n: nat)
    requires n < 64 && (b - n) % 64 == 0
    ensures Congruent(Result(Shl, a, b), a * Power(2, n))
    ensures Result(Shr, a, b) * Power(2, n) <= a < (Result(Shr, a, b) + 1) * Power(2, n)
  {
    assert b % 64 == n;
    ShiftRightRoundsDown(a, n);
    hide Power, ShiftRight;
  }

  lemma BitsCombine(a: Int64, b: Int64, k: nat)
    ensures Bit(Result(BinOp.BitAnd, a, b), k) <==> Bit(a, k) && Bit(b, k)
    ensures Bit(Result(BinOp.BitOr, a, b), k) <==> Bit(a, k) || Bit(b, k)
    ensures Bit(Result(BinOp.BitXor, a, b), k) <==> Bit(a, k) != Bit(b, k)
  {
    BitOperationsBitByBit(a, b, k);
    hide Combine, Bit;
  }

  lemma ComparisonsCompare(a: Int64, b: Int64)
    ensures Result(Cmp, a, b) in {-1, 0, 1}
    ensures (Result(Cmp, a, b) == -1 <==> a < b) && (Result(Cmp, a, b) == 1 <==> a > b)
    ensures EvalBinary(Lt, Integer(a), Integer(b)) == Bool(a < b)
    ensures EvalBinary(Gt, Integer(a), Integer(b)) == Bool(a > b)
    ensures EvalBinary(LtEq, Integer(a), Integer(b)) == Bool(a <= b)
    ensures EvalBinary(GtEq, Integer(a), Integer(b)) == Bool(a >= b)
    ensures EvalBinary(Eq, Integer(a), Integer(b)) == Bool(a == b)
    ensures EvalBinary(NotEq, Integer(a), Integer(b)) == Bool(a != b)
  {
  }

  // What is no pair of integers: strings are joined and compared, other values never equal, and anything else is nil.
  lemma OtherValues(op: BinOp, l: Value, r: Value)
    requires !(l.Integer? && r.Integer?)
    ensures l.Str? && r.Str? ==>
              EvalBinary(op, l, r) == if op == Add then Str(l.s + r.s) else if op == Eq then Bool(l.s == r.s)
                                      else if op == NotEq then Bool(l.s != r.s) else Nil
    ensures !(l.Str? && r.Str?) ==>
              && (op == Eq ==> EvalBinary(op, l, r) == Bool(false))
              && (op == NotEq ==> EvalBinary(op, l, r) == Bool(true))
              && (op !in {Eq, NotEq, And, Or} ==> EvalBinary(op, l, r) == Nil)
  {
  }

  // Only false and nil are not true.
  lemma TruthOfValues(v: Value)
    ensures v.IsTruthy() <==> !(v.Nil? || (v.Bool? && !v.b))
  {
  }

  // Negation and complement take true for 1 and everything else that is no integer for 0.
  lemma UnaryOperators(v: Value, i: Int64, k: nat)
    requires i == if v.Integer? then v.i else if v == Bool(true) then 1 else 0
    ensures EvalUnary(Not, v) == Bool(v.Nil? || v == Bool(false))
    ensures EvalUnary(Neg, v).Integer? && Congruent(EvalUnary(Neg, v).i, 0 - i)
    ensures EvalUnary(UnOp.BitNot, v).Integer? && (Bit(EvalUnary(UnOp.BitNot, v).i, k) <==> !Bit(i, k))
  {
    BitsOfComplement(i, k);
    hide Bit;
  }

  // In a build with checks a run stops where the true result does not fit, or a shift amount is none of 0 to 63; in
  // any build where the quotient does not fit.
  lemma FaultsExactly(checks: bool, op: BinOp, a: Int64, b: Int64, n: nat)
    requires n < 0x1_0000_0000 && (b - n) % 0x1_0000_0000 == 0
    ensures Faults(Mode(checks, false, false, false), op, Integer(a), Integer(b))
            <==> match op
                 case Add => checks && !(-0x8000_0000_0000_0000 <= a + b < 0x8000_0000_0000_0000)
                 case Sub => checks && !(-0x8000_0000_0000_0000 <= a - b < 0x8000_0000_0000_0000)
                 case Mul => checks && !(-0x8000_0000_0000_0000 <= a * b < 0x8000_0000_0000_0000)
                 case Pow => checks && !(-0x8000_0000_0000_0000 <= Power(a, n) < 0x8000_0000_0000_0000)
                 case Shl => checks && !(0 <= b < 64)
                 case Shr => checks && !(0 <= b < 64)
                 case Div => a == -0x8000_0000_0000_0000 && b == -1
                 case Mod => a == -0x8000_0000_0000_0000 && b == -1
                 case _ => false
  {
    ExponentIs(b, n);
    hide Power, AsU32;
  }

  lemma OtherFaults(m: Mode, op: BinOp, l: Value, r: Value, uop: UnOp, v: Value)
    ensures !(l.Integer? && r.Integer?) && !m.disciplined && !m.identities ==> !Faults(m, op, l, r)
    ensures FaultsUnary(m, uop, v) <==> m.overflowChecks && uop == Neg && v == Integer(-0x8000_0000_0000_0000)
  {
  }
}
