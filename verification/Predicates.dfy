/** Typed values and the bounded predicate operators (pkg/operations/predicate.go). */
module Predicates {
  import opened Wrappers
  import opened OpsTypes

  predicate Canonical(v: Value) {
    match v.typ
    case BooleanType => v.i == 0 && v.s == ""
    case IntegerType => !v.b && v.s == ""
    case StringType => !v.b && v.i == 0
    case OtherType(_) => false
  }

  /** Typed equality: only the field selected by the type is compared. */
  predicate Equal(v: Value, o: Value) {
    && v.typ == o.typ
    && match v.typ
       case BooleanType => v.b == o.b
       case IntegerType => v.i == o.i
       case StringType => v.s == o.s
       case OtherType(_) => false
  }

  predicate Admits(slot: AssertionSlot, v: Value) {
    && v.typ == slot.typ && Canonical(v)
    && (slot.typ != StringType || slot.enum == [] || v.s in slot.enum)
  }

  const ZeroValue := Value(OtherType(""), false, 0, "")

  /** `Predicate.validate`: the operator fits the declared slot and its operand. */
  predicate Fits(p: Predicate, slot: AssertionSlot) {
    match p.op
    case IsTrue => slot.typ == BooleanType && p.operand == ZeroValue
    case IsFalse => slot.typ == BooleanType && p.operand == ZeroValue
    case Eq => p.operand.typ == slot.typ && Admits(slot, p.operand)
    case NotEq => p.operand.typ == slot.typ && Admits(slot, p.operand)
    case Gte => slot.typ == IntegerType && p.operand.typ == IntegerType && Canonical(p.operand)
    case Lte => slot.typ == IntegerType && p.operand.typ == IntegerType && Canonical(p.operand)
    case OtherOperator(_) => false
  }

  predicate Eval(p: Predicate, v: Value) {
    match p.op
    case IsTrue => v.b
    case IsFalse => !v.b
    case Eq => Equal(v, p.operand)
    case NotEq => !Equal(v, p.operand)
    case Gte => v.i >= p.operand.i
    case Lte => v.i <= p.operand.i
    case OtherOperator(_) => false
  }

  /** On canonical values typed equality is identity, so a non-canonical value
      is the only way to be equal without being the same. */
  lemma CanonicalEquality(v: Value, o: Value)
    requires Canonical(v) && Canonical(o)
    ensures Equal(v, o) <==> v == o
  {
  }
}
