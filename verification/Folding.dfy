/** Compile-time evaluation of operators, and exactly when it agrees with the interpreter. */
module Folding {
  import opened Ints
  import opened Mir

  datatype Fold =
    | Unfolded
    | Folded(c: Const)
    | Panics  // the host language's own division (or negation) overflow stops the compiler

  function FoldIntegers(op: BinOp, a: Int64, b: Int64): (fold: Fold)
    ensures fold.Panics? <==> DivisionOverflows(op, a, b)
  {
    match op
    case Add => Folded(ConstInteger(Wrap(a + b)))
    case Sub => Folded(ConstInteger(Wrap(a - b)))
    case Mul => Folded(ConstInteger(Wrap(a * b)))
    case Div =>
      if b == 0 then Unfolded
      else if a == MIN_INT64 && b == -1 then Panics
      else Folded(ConstInteger(Wrap(Quotient(a, b))))
    case Mod =>
      if b == 0 then Unfolded
      else if a == MIN_INT64 && b == -1 then Panics
      else Folded(ConstInteger(Wrap(Remainder(a, b))))
    case Pow => Folded(ConstInteger(Wrap(Power(a, AsU32(b)))))
    case Eq => Folded(ConstBool(a == b))
    case NotEq => Folded(ConstBool(a != b))
    case Lt => Folded(ConstBool(a < b))
    case Gt => Folded(ConstBool(a > b))
    case LtEq => Folded(ConstBool(a <= b))
    case GtEq => Folded(ConstBool(a >= b))
    case _ => FoldBits(op, a, b)
  }

  function FoldBits(op: BinOp, a: Int64, b: Int64): (fold: Fold)
    ensures !fold.Panics?
  {
    match op
    case BitAnd => Folded(ConstInteger(Ints.BitAnd(a, b)))
    case BitOr => Folded(ConstInteger(Ints.BitOr(a, b)))
    case BitXor => Folded(ConstInteger(Ints.BitXor(a, b)))
    case Shl => Folded(ConstInteger(ShiftLeft(a, AsU32(b) % 64)))
    case Shr => Folded(ConstInteger(ShiftRight(a, AsU32(b) % 64)))
    case _ => Unfolded
  }

  // It stops the compiler exactly on the operands that would stop the machine in any build.
  function FoldBinop(op: BinOp, l: Const, r: Const): (fold: Fold)
    ensures fold.Panics? <==> l.ConstInteger? && r.ConstInteger? && DivisionOverflows(op, l.i, r.i)
  {
    match (l, r)
    case (ConstInteger(a), ConstInteger(b)) => FoldIntegers(op, a, b)
    case (ConstBool(a), ConstBool(b)) =>
      (match op
       case And => Folded(ConstBool(a && b))
       case Or => Folded(ConstBool(a || b))
       case Eq => Folded(ConstBool(a == b))
       case NotEq => Folded(ConstBool(a != b))
       case _ => Unfolded)
    case (ConstString(a), ConstString(b)) =>
      (match op
       case Add => Folded(ConstString(a + b))
       case Eq => Folded(ConstBool(a == b))
       case NotEq => Folded(ConstBool(a != b))
       case _ => Unfolded)
    case _ => Unfolded
  }

  function FoldUnop(overflowChecks: bool, op: UnOp, v: Const): Fold {
    match (op, v)
    case (Neg, ConstInteger(i)) =>
      if overflowChecks && i == MIN_INT64 then Panics else Folded(ConstInteger(Wrap(0 - i)))
    case (Not, ConstBool(b)) => Folded(ConstBool(!b))
    case (Not, ConstNil) => Folded(ConstBool(true))
    case (BitNot, ConstInteger(i)) => Folded(ConstInteger(Ints.BitNot(i)))
    case _ => Unfolded
  }

  // The folder computes what the interpreter computes, except for == and != on equal booleans.
  lemma FoldAgreesExactly(op: BinOp, l: Const, r: Const, c: Const)
    requires FoldBinop(op, l, r) == Folded(c)
    ensures EvalBinary(op, ValueOf(l), ValueOf(r)) == ValueOf(c)
            <==> !BooleanEquality(op, ValueOf(l), ValueOf(r))
  {
    if l.ConstInteger? && r.ConstInteger? {
      ShiftAmountMask(r.i);
    }
  }

  lemma FoldUnopAgrees(m: Mode, op: UnOp, v: Const)
    ensures match FoldUnop(m.overflowChecks, op, v)
            case Folded(c) => !FaultsUnary(m, op, ValueOf(v)) && EvalUnary(op, ValueOf(v)) == ValueOf(c)
            case Panics => FaultsUnary(m, op, ValueOf(v))
            case Unfolded => true
  {
  }

  // The disagreement, on one program: true == true.
  lemma BooleanEqualityDisagrees()
    ensures FoldBinop(Eq, ConstBool(true), ConstBool(true)) == Folded(ConstBool(true))
    ensures EvalBinary(Eq, Bool(true), Bool(true)) == Bool(false)
  {
  }
}
