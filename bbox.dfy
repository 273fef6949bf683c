/** Bounding-box checks of pymeteofr/services.py: corner ordering and domain
    checks (`set_bbox_of_interest`, `_check_coords_in_domain`) and the
    enclosing box with whole-degree sides (`_create_an_integer_bbox`).
    Coordinates are WGS84 degrees, as reals. */
module Bbox {
  import opened Outcomes

  /** A `(lon_min, lat_min, lon_max, lat_max)` tuple, the layout of `max_bbox`
      and `bbox`. */
  datatype Box = Box(lonMin: real, latMin: real, lonMax: real, latMax: real)

  /** The `_bbox_int` tuple. */
  datatype IntBox = IntBox(lonMin: int, latMin: int, lonMax: int, latMax: int)

  const OutsideDomain: Error := ValueError("Point is outside the model domain")
  const Unordered: Error := AttributeError("min coord should be smaller than max")
  const LeftOutside: Error := ValueError("Left bounding box side is outside covered area")
  const LowerOutside: Error := ValueError("Lower bounding box side is outside covered area")
  const RightOutside: Error := ValueError("Right bounding box side is outside covered area")
  const UpperOutside: Error := ValueError("Upper bounding box side is outside covered area")

  /** A point of `domain`, borders included. */
  predicate Inside(domain: Box, lon: real, lat: real)
  {
    domain.lonMin <= lon <= domain.lonMax && domain.latMin <= lat <= domain.latMax
  }

  /** `_check_coords_in_domain(lon, lat)` against `max_bbox`. */
  function CheckCoords(domain: Box, lon: real, lat: real): Outcome
  {
    if lon < domain.lonMin || lon > domain.lonMax || lat < domain.latMin || lat > domain.latMax
    then Fail(OutsideDomain)
    else Pass
  }

  /** The ordering test of `set_bbox_of_interest`. */
  function CheckOrder(lonMin: real, latMin: real, lonMax: real, latMax: real): Outcome
  {
    if lonMin >= lonMax || latMin >= latMax then Fail(Unordered) else Pass
  }

  /** `np.floor` followed by `int`. */
  function Floor(x: real): (r: int)
    ensures r as real <= x < r as real + 1.0
  {
    x.Floor
  }

  /** `np.ceil` followed by `int`. */
  function Ceil(x: real): (r: int)
    ensures r as real - 1.0 < x <= r as real
  {
    -((-x).Floor)
  }

  /** `_create_an_integer_bbox`: the sides are checked in the order left,
      lower, right, upper. */
  function IntegerBbox(domain: Box, lonMin: real, latMin: real, lonMax: real, latMax: real): Result<IntBox>
  {
    var left := Floor(lonMin);
    if (left as real) < domain.lonMin then Err(LeftOutside)
    else
      var lower := Floor(latMin);
      if (lower as real) < domain.latMin then Err(LowerOutside)
      else
        var right := Ceil(lonMax);
        if (right as real) > domain.lonMax then Err(RightOutside)
        else
          var upper := Ceil(latMax);
          if (upper as real) > domain.latMax then Err(UpperOutside)
          else Ok(IntBox(left, lower, right, upper))
  }

  /** The checks `set_bbox_of_interest` runs before `self.bbox` is assigned. */
  function BboxChecks(domain: Box, lonMin: real, latMin: real, lonMax: real, latMax: real): Outcome
  {
    if CheckOrder(lonMin, latMin, lonMax, latMax).Fail? then CheckOrder(lonMin, latMin, lonMax, latMax)
    else if CheckCoords(domain, lonMin, latMin).Fail? then CheckCoords(domain, lonMin, latMin)
    else CheckCoords(domain, lonMax, latMax)
  }

  // ---------------------------------------------------------------------------
  // Lemmas

  /** The domain check accepts exactly the points of the closed box. */
  lemma CheckCoordsInside(domain: Box, lon: real, lat: real)
    ensures CheckCoords(domain, lon, lat).Pass? <==> Inside(domain, lon, lat)
    ensures CheckCoords(domain, lon, lat).Fail? ==> CheckCoords(domain, lon, lat).error == OutsideDomain
  {
  }

  /** The checks before the assignment of `bbox` pass exactly for a strictly
      ordered box with both corners in the domain; the whole box then lies in
      the domain. */
  lemma BboxChecksPass(domain: Box, lonMin: real, latMin: real, lonMax: real, latMax: real)
    ensures BboxChecks(domain, lonMin, latMin, lonMax, latMax).Pass? <==>
      lonMin < lonMax && latMin < latMax && Inside(domain, lonMin, latMin) && Inside(domain, lonMax, latMax)
    ensures BboxChecks(domain, lonMin, latMin, lonMax, latMax).Pass? ==>
      forall lon: real, lat: real :: lonMin <= lon <= lonMax && latMin <= lat <= latMax ==> Inside(domain, lon, lat)
    ensures (lonMin >= lonMax || latMin >= latMax) ==>
      BboxChecks(domain, lonMin, latMin, lonMax, latMax) == Fail(Unordered)
  {
  }

  /** The integer box is accepted exactly when its four whole-degree sides lie
      in the domain; it then encloses the requested box and lies in the domain. */
  lemma IntegerBboxEncloses(domain: Box, lonMin: real, latMin: real, lonMax: real, latMax: real)
    ensures IntegerBbox(domain, lonMin, latMin, lonMax, latMax).Ok? <==>
      && domain.lonMin <= Floor(lonMin) as real && domain.latMin <= Floor(latMin) as real
      && Ceil(lonMax) as real <= domain.lonMax && Ceil(latMax) as real <= domain.latMax
    ensures IntegerBbox(domain, lonMin, latMin, lonMax, latMax).Ok? ==>
      var b := IntegerBbox(domain, lonMin, latMin, lonMax, latMax).value;
      && b.lonMin as real <= lonMin && b.latMin as real <= latMin
      && lonMax <= b.lonMax as real && latMax <= b.latMax as real
      && lonMin - 1.0 < b.lonMin as real && latMin - 1.0 < b.latMin as real
      && b.lonMax as real < lonMax + 1.0 && b.latMax as real < latMax + 1.0
      && domain.lonMin <= b.lonMin as real && domain.latMin <= b.latMin as real
      && b.lonMax as real <= domain.lonMax && b.latMax as real <= domain.latMax
  {
    var left, lower, right, upper := Floor(lonMin), Floor(latMin), Ceil(lonMax), Ceil(latMax);
    assert IntegerBbox(domain, lonMin, latMin, lonMax, latMax) ==
      if (left as real) < domain.lonMin then Err(LeftOutside)
      else if (lower as real) < domain.latMin then Err(LowerOutside)
      else if (right as real) > domain.lonMax then Err(RightOutside)
      else if (upper as real) > domain.latMax then Err(UpperOutside)
      else Ok(IntBox(left, lower, right, upper));
  }

  /** On a domain with whole-degree sides, every box that passes the corner
      checks also gets its integer box. */
  lemma WholeDegreeDomainAccepts(domain: Box, lonMin: real, latMin: real, lonMax: real, latMax: real)
    requires domain.lonMin == domain.lonMin.Floor as real && domain.latMin == domain.latMin.Floor as real
    requires domain.lonMax == domain.lonMax.Floor as real && domain.latMax == domain.latMax.Floor as real
    requires BboxChecks(domain, lonMin, latMin, lonMax, latMax).Pass?
    ensures IntegerBbox(domain, lonMin, latMin, lonMax, latMax).Ok?
  {
    BboxChecksPass(domain, lonMin, latMin, lonMax, latMax);
    WholeBelow(domain.lonMin, lonMin);
    WholeBelow(domain.latMin, latMin);
    WholeAbove(domain.lonMax, lonMax);
    WholeAbove(domain.latMax, latMax);
    IntegerBboxEncloses(domain, lonMin, latMin, lonMax, latMax);
  }

  /** A whole number not above `x` is not above its floor. */
  lemma WholeBelow(d: real, x: real)
    requires d == d.Floor as real && d <= x
    ensures d <= Floor(x) as real
  {
  }

  /** A whole number not below `x` is not below its ceiling. */
  lemma WholeAbove(d: real, x: real)
    requires d == d.Floor as real && x <= d
    ensures Ceil(x) as real <= d
  {
    assert (-d).Floor == -d.Floor;
    assert (-d).Floor <= (-x).Floor;
  }

  /** The integer box can reject a box whose corners are in the domain: with
      a left border at -0.5, a box starting at longitude -0.4 floors to -1. */
  lemma IntegerBboxRejectsInsideBox(lonMin: real)
    requires -0.5 <= lonMin < 0.0
    ensures var domain := Box(-0.5, 40.0, 10.0, 50.0);
      && BboxChecks(domain, lonMin, 41.0, 1.0, 42.0).Pass?
      && IntegerBbox(domain, lonMin, 41.0, 1.0, 42.0) == Err(LeftOutside)
  {
    assert Floor(lonMin) == -1;
  }
}
