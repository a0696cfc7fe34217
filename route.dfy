/** A voyage route (backend/src/core/domain/entities/Route.ts): validated on
    construction; the baseline flag is flipped in place. */
module Routes {
  import opened Wrappers
  import opened FuelEUConstants

  datatype RouteProps = RouteProps(
    id: Option<int>,
    routeId: string,
    vesselType: VesselType,
    fuelType: FuelType,
    year: int,
    ghgIntensity: real,
    fuelConsumption: real,
    distance: real,
    totalEmissions: real,
    isBaseline: bool)

  /** The constructor's guards, in the order the source checks them. */
  function Validate(p: RouteProps): (o: Outcome<string>)
    ensures o.Pass? <==> p.routeId != "" && p.ghgIntensity > 0.0 && p.fuelConsumption > 0.0
                         && p.distance > 0.0 && p.year >= 2020
    ensures p.routeId == "" ==> o == Fail("Route ID is required")
    ensures p.routeId != "" && p.ghgIntensity <= 0.0 ==> o == Fail("GHG intensity must be positive")
    ensures p.routeId != "" && p.ghgIntensity > 0.0 && p.fuelConsumption <= 0.0 ==>
              o == Fail("Fuel consumption must be positive")
    ensures p.routeId != "" && p.ghgIntensity > 0.0 && p.fuelConsumption > 0.0 && p.distance <= 0.0 ==>
              o == Fail("Distance must be positive")
    ensures p.routeId != "" && p.ghgIntensity > 0.0 && p.fuelConsumption > 0.0 && p.distance > 0.0 && p.year < 2020 ==>
              o == Fail("Year must be 2020 or later")
  {
    if p.routeId == "" then Fail("Route ID is required")
    else if p.ghgIntensity <= 0.0 then Fail("GHG intensity must be positive")
    else if p.fuelConsumption <= 0.0 then Fail("Fuel consumption must be positive")
    else if p.distance <= 0.0 then Fail("Distance must be positive")
    else if p.year < 2020 then Fail("Year must be 2020 or later")
    else Pass
  }

  class Route {
    var props: RouteProps

    /** Only props that passed `Validate` are built (see `New`). */
    constructor (p: RouteProps)
      requires Validate(p).Pass?
      ensures props == p
    {
      props := p;
    }

    /** `new Route(props)`: fails with the first guard's message, else a fresh route. */
    static method New(p: RouteProps) returns (r: Result<Route, string>)
      ensures r.Success? <==> Validate(p).Pass?
      ensures r.Failure? ==> r.error == Validate(p).error
      ensures r.Success? ==> fresh(r.value) && r.value.props == p
    {
      var v := Validate(p);
      if v.Fail? {
        return Failure(v.error);
      }
      var route := new Route(p);
      return Success(route);
    }

    /** Marks the route as baseline; every other field is kept, and a second call changes nothing. */
    method SetAsBaseline()
      modifies this
      ensures props == old(props).(isBaseline := true)
    {
      props := props.(isBaseline := true);
    }

    /** Clears the baseline flag; every other field is kept. */
    method RemoveAsBaseline()
      modifies this
      ensures props == old(props).(isBaseline := false)
    {
      props := props.(isBaseline := false);
    }

    /** `toJSON`: a copy of the props. */
    function ToJSON(): (p: RouteProps)
      reads this
      ensures p == props
    {
      props
    }
  }
}
