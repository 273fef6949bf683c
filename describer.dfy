/** The `Describer` of pymeteofr/services.py: its constructor checks, the
    DescribeCoverage request URL, and `max_bbox` read from the envelope's two
    corners. The corner numbers are produced by `float()`, which stays a
    parameter. */
module Describe {
  import opened Outcomes
  import opened PyStrings
  import opened Bbox

  const NoBaseUrl: Error := ValueError("Please set the base url by selecting a product")
  const NoCoverageId: Error := ValueError("Please set the CoverageId by selecting a field")
  const CornerTooShort: Error := IndexError("list index out of range")

  /** The state a `Describer` keeps: `_url_base`, `_CoverageId`, `_WCS_version`. */
  datatype Describer = Describer(urlBase: string, coverageId: string, wcsVersion: string)

  /** `Describer(url_base, CoverageId, WCS_version)`: the base URL is checked first. */
  function NewDescriber(urlBase: string := "", coverageId: string := "", wcsVersion: string := "2.0.1"): (r: Result<Describer>)
    ensures r.Ok? <==> urlBase != "" && coverageId != ""
    ensures r.Ok? ==> r.value == Describer(urlBase, coverageId, wcsVersion)
    ensures urlBase == "" ==> r == Err(NoBaseUrl)
    ensures urlBase != "" && coverageId == "" ==> r == Err(NoCoverageId)
  {
    if urlBase == "" then Err(NoBaseUrl)
    else if coverageId == "" then Err(NoCoverageId)
    else Ok(Describer(urlBase, coverageId, wcsVersion))
  }

  const VersionKey: string := "SERVICE=WCS&version="
  const CoverageKey: string := "&REQUEST=DescribeCoverage&CoverageId="

  /** `_build_url`. */
  function BuildUrl(d: Describer): string
  {
    d.urlBase + VersionKey + d.wcsVersion + CoverageKey + d.coverageId
  }

  /** `float(corner.split(" ")[k])`, with the split's `IndexError`. */
  function CornerValue(corner: string, k: nat, float: string -> real): Result<real>
  {
    var parts := Split(corner, " ");
    if k < |parts| then Ok(float(parts[k])) else Err(CornerTooShort)
  }

  /** The four reads of `get_description`, in the source's order: lon and
      lat of the lower corner, then of the upper corner. */
  function MaxBboxOf(lowerCorner: string, upperCorner: string, float: string -> real): Result<Box>
  {
    var lonMin := CornerValue(lowerCorner, 0, float);
    if lonMin.Err? then Err(lonMin.error)
    else
      var latMin := CornerValue(lowerCorner, 1, float);
      if latMin.Err? then Err(latMin.error)
      else
        var lonMax := CornerValue(upperCorner, 0, float);
        if lonMax.Err? then Err(lonMax.error)
        else
          var latMax := CornerValue(upperCorner, 1, float);
          if latMax.Err? then Err(latMax.error)
          else Ok(Box(lonMin.value, latMin.value, lonMax.value, latMax.value))
  }

  // ---------------------------------------------------------------------------
  // Lemmas

  /** The request URL starts with the base URL and the WCS version key, and
      ends with the CoverageId after its key. */
  lemma BuildUrlShape(d: Describer)
    ensures var url := BuildUrl(d);
      && |d.urlBase + VersionKey| <= |url| && url[..|d.urlBase + VersionKey|] == d.urlBase + VersionKey
      && |CoverageKey + d.coverageId| <= |url|
      && url[|url| - |CoverageKey + d.coverageId|..] == CoverageKey + d.coverageId
  {
    var url := BuildUrl(d);
    assert url == (d.urlBase + VersionKey) + d.wcsVersion + (CoverageKey + d.coverageId);
  }

  /** Two coverages of the same product and version get different URLs. */
  lemma BuildUrlInjective(d: Describer, e: Describer)
    requires d.urlBase == e.urlBase && d.wcsVersion == e.wcsVersion
    requires BuildUrl(d) == BuildUrl(e)
    ensures d == e
  {
    var prefix := d.urlBase + VersionKey + d.wcsVersion + CoverageKey;
    assert BuildUrl(d) == prefix + d.coverageId;
    assert BuildUrl(e) == prefix + e.coverageId;
    assert d.coverageId == BuildUrl(d)[|prefix|..];
  }

  /** Corners written as `"<lon> <lat>"` give back the four numbers in the
      `(lon_min, lat_min, lon_max, lat_max)` order. */
  lemma MaxBboxRoundTrip(lon0: string, lat0: string, lon1: string, lat1: string, float: string -> real)
    requires ' ' !in lon0 && ' ' !in lat0 && ' ' !in lon1 && ' ' !in lat1
    ensures MaxBboxOf(lon0 + " " + lat0, lon1 + " " + lat1, float)
            == Ok(Box(float(lon0), float(lat0), float(lon1), float(lat1)))
  {
    SplitOnce(lon0, " ", lat0);
    SplitOnce(lon1, " ", lat1);
  }

  /** A corner without a space has only one field: the read of its latitude
      raises `IndexError`, the lower corner's first. */
  lemma MaxBboxShortCorner(lowerCorner: string, upperCorner: string, float: string -> real)
    requires ' ' !in lowerCorner
    ensures MaxBboxOf(lowerCorner, upperCorner, float) == Err(CornerTooShort)
  {
    forall j | 0 <= j <= |lowerCorner| ensures !OccursAt(lowerCorner, " ", j) {
      HeadDiffers(lowerCorner, " ", j);
    }
    assert Split(lowerCorner, " ") == [lowerCorner];
  }
}
