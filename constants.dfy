/** The FuelEU Maritime regulatory constants the backend uses
    (backend/src/shared/constants/fueleu.constants.ts). */
module FuelEUConstants {

  /** Reference GHG intensity (gCO2e/MJ) the 2025 target is derived from. */
  const ReferenceGhgIntensity: real := 91.16

  /** 2025 target GHG intensity in gCO2e/MJ: 2% below the reference. */
  const TargetGhgIntensity2025: real := 89.3368

  /** Energy conversion factor, MJ per tonne of fuel. */
  const EnergyPerTonne: real := 41000.0

  /** First and last year of the compliance window. */
  const ComplianceYearsStart: int := 2025
  const ComplianceYearsEnd: int := 2050

  datatype VesselType = Container | BulkCarrier | Tanker | RoRo | PassengerShip
  {
    /** The string the source uses for this vessel type. */
    function Name(): string {
      match this
      case Container => "Container"
      case BulkCarrier => "BulkCarrier"
      case Tanker => "Tanker"
      case RoRo => "RoRo"
      case PassengerShip => "PassengerShip"
    }
  }

  datatype FuelType = HFO | MGO | LNG | Methanol | Ammonia | Hydrogen
  {
    /** The string the source uses for this fuel type. */
    function Name(): string {
      match this
      case HFO => "HFO"
      case MGO => "MGO"
      case LNG => "LNG"
      case Methanol => "Methanol"
      case Ammonia => "Ammonia"
      case Hydrogen => "Hydrogen"
    }
  }

  const VesselTypes: seq<VesselType> := [Container, BulkCarrier, Tanker, RoRo, PassengerShip]

  const FuelTypes: seq<FuelType> := [HFO, MGO, LNG, Methanol, Ammonia, Hydrogen]

  /** The target is exactly 98% of the reference intensity. */
  lemma TargetIsTwoPercentBelowReference()
    ensures TargetGhgIntensity2025 == 0.98 * ReferenceGhgIntensity
    ensures 0.0 < TargetGhgIntensity2025 < ReferenceGhgIntensity
  {
  }

  /** The compliance window is non-empty and starts in 2025. */
  lemma ComplianceWindowWellFormed()
    ensures ComplianceYearsStart == 2025 && ComplianceYearsEnd == 2050
    ensures ComplianceYearsStart <= ComplianceYearsEnd
  {
  }

  /** VESSEL_TYPES lists each of the five vessel types exactly once, under distinct names. */
  lemma VesselTypesAreDistinctAndComplete()
    ensures |VesselTypes| == 5
    ensures forall v: VesselType :: v in VesselTypes
    ensures forall i, j :: 0 <= i < j < |VesselTypes| ==> VesselTypes[i].Name() != VesselTypes[j].Name()
  {
    forall v: VesselType ensures v in VesselTypes {
      match v
      case Container => assert VesselTypes[0] == v;
      case BulkCarrier => assert VesselTypes[1] == v;
      case Tanker => assert VesselTypes[2] == v;
      case RoRo => assert VesselTypes[3] == v;
      case PassengerShip => assert VesselTypes[4] == v;
    }
  }

  /** FUEL_TYPES lists each of the six fuel types exactly once, under distinct names. */
  lemma FuelTypesAreDistinctAndComplete()
    ensures |FuelTypes| == 6
    ensures forall f: FuelType :: f in FuelTypes
    ensures forall i, j :: 0 <= i < j < |FuelTypes| ==> FuelTypes[i].Name() != FuelTypes[j].Name()
  {
    forall f: FuelType ensures f in FuelTypes {
      match f
      case HFO => assert FuelTypes[0] == f;
      case MGO => assert FuelTypes[1] == f;
      case LNG => assert FuelTypes[2] == f;
      case Methanol => assert FuelTypes[3] == f;
      case Ammonia => assert FuelTypes[4] == f;
      case Hydrogen => assert FuelTypes[5] == f;
    }
  }
}
