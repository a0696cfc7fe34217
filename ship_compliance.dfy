/** A ship's compliance record for one year
    (backend/src/core/domain/entities/ShipCompliance.ts). The record is an object
    whose balance `UpdateCB` overwrites in place. */
module ShipCompliances {
  import opened Wrappers
  import ComplianceBalanceValue

  datatype ShipComplianceProps = ShipComplianceProps(
    id: Option<int>, shipId: string, year: int, cbGco2eq: real)

  /** The constructor's guards, in the order the source checks them. */
  function Validate(shipId: string, year: int): (o: Outcome<string>)
    ensures o.Pass? <==> shipId != "" && year >= 2025
    ensures shipId == "" ==> o == Fail("Ship ID is required")
    ensures shipId != "" && year < 2025 ==> o == Fail("Year must be 2025 or later")
  {
    if shipId == "" then Fail("Ship ID is required")
    else if year < 2025 then Fail("Year must be 2025 or later")
    else Pass
  }

  class ShipCompliance {
    var props: ShipComplianceProps

    /** Only records whose props passed `Validate` are built (see `New`). */
    constructor (p: ShipComplianceProps)
      requires Validate(p.shipId, p.year).Pass?
      ensures props == p
    {
      props := p;
    }

    /** `new ShipCompliance(props)`: fails with the first guard's message, else a fresh record. */
    static method New(p: ShipComplianceProps) returns (r: Result<ShipCompliance, string>)
      ensures r.Success? <==> Validate(p.shipId, p.year).Pass?
      ensures r.Failure? ==> r.error == Validate(p.shipId, p.year).error
      ensures r.Success? ==> fresh(r.value) && r.value.props == p
    {
      var v := Validate(p.shipId, p.year);
      if v.Fail? {
        return Failure(v.error);
      }
      var c := new ShipCompliance(p);
      return Success(c);
    }

    predicate HasSurplus()
      reads this
    {
      props.cbGco2eq > 0.0
    }

    predicate HasDeficit()
      reads this
    {
      props.cbGco2eq < 0.0
    }

    /** Overwrites the balance, without re-validating; nothing else changes. */
    method UpdateCB(newCB: real)
      modifies this
      ensures props == old(props).(cbGco2eq := newCB)
    {
      props := props.(cbGco2eq := newCB);
    }

    /** `toJSON`: a copy of the props. */
    function ToJSON(): (p: ShipComplianceProps)
      reads this
      ensures p == props
    {
      props
    }
  }

  /** Surplus and deficit agree with the value object's classification, and never both hold. */
  lemma SurplusDeficitClassification(c: ShipCompliance)
    ensures c.HasSurplus() <==> ComplianceBalanceValue.ComplianceBalance(c.props.cbGco2eq).IsSurplus()
    ensures c.HasDeficit() <==> ComplianceBalanceValue.ComplianceBalance(c.props.cbGco2eq).IsDeficit()
    ensures !(c.HasSurplus() && c.HasDeficit())
  {
  }
}
