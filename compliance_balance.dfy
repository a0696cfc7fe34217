/** The immutable compliance-balance value object
    (backend/src/core/domain/value-objects/ComplianceBalance.ts). */
module ComplianceBalanceValue {

  datatype ComplianceBalance = ComplianceBalance(value: real)
  {
    predicate IsSurplus() { value > 0.0 }

    predicate IsDeficit() { value < 0.0 }

    predicate IsNeutral() { value == 0.0 }

    /** A new balance holding the sum; neither operand changes (values are immutable). */
    function Add(other: ComplianceBalance): (sum: ComplianceBalance)
      ensures sum.Subtract(other) == this
    {
      ComplianceBalance(value + other.value)
    }

    /** A new balance holding the difference. */
    function Subtract(other: ComplianceBalance): (difference: ComplianceBalance)
      ensures difference.value + other.value == value
    {
      ComplianceBalance(value - other.value)
    }
  }

  /** Every balance is exactly one of surplus, deficit and neutral. */
  lemma ExactlyOneClassification(b: ComplianceBalance)
    ensures b.IsSurplus() || b.IsDeficit() || b.IsNeutral()
    ensures !(b.IsSurplus() && b.IsDeficit())
    ensures !(b.IsSurplus() && b.IsNeutral())
    ensures !(b.IsDeficit() && b.IsNeutral())
  {
  }

  /** Adding then subtracting the same balance gives back the original value. */
  lemma AddThenSubtract(a: ComplianceBalance, b: ComplianceBalance)
    ensures a.Add(b).Subtract(b).value == a.value
  {
  }

  /** Adding is commutative and has the neutral balance as identity. */
  lemma AddCommutes(a: ComplianceBalance, b: ComplianceBalance)
    ensures a.Add(b) == b.Add(a)
    ensures a.Add(ComplianceBalance(0.0)) == a
  {
  }
}
