/** The `Fetcher` of pyinspire/services.py: argument validation of the
    constructor, the fixed model domain, and the point and box of interest.
    Arguments are untyped in Python, so they are `PyValue`s here. */
module Inspire {
  import opened Outcomes

  /** A Python value as far as `isinstance` and `is None` tell them apart. */
  datatype PyValue = PyNone | PyStr(text: string) | PyFloat(x: real) | PyInt(i: int) | PyBool(b: bool) | PyOther

  /** The domain of `_check_coords_in_domain`, in degrees. */
  const LonMin: real := -8.0
  const LonMax: real := 12.0
  const LatMin: real := 38.0
  const LatMax: real := 53.0

  const NeedBoth: Error := AttributeError("both username and password should be given.")
  const NotStrings: Error := TypeError("username and password should be strings")
  const NotFloats: Error := TypeError("lon and lat coordinates should be floats")
  const OutsideDomain: Error := AttributeError("point is outside the model domain")
  const Unordered: Error := AttributeError("min coord should be smaller than max")
  const UndefinedLatMax: Error := NameError("lat_max")

  /** `self.poi`. */
  datatype Point = Point(lon: real, lat: real)

  /** `self.bbox`. */
  datatype Box = Box(lonMin: real, latMin: real, lonMax: real, latMax: real)

  /** A point of the closed domain rectangle. */
  predicate InDomain(lon: real, lat: real)
  {
    LonMin <= lon <= LonMax && LatMin <= lat <= LatMax
  }

  /** `_check_coords_in_domain`. */
  function CheckCoordsInDomain(lon: real, lat: real): (r: Outcome)
    ensures r.Pass? <==> InDomain(lon, lat)
    ensures r.Fail? ==> r.error == OutsideDomain
  {
    if lon < LonMin || lon > LonMax || lat < LatMin || lat > LatMax then Fail(OutsideDomain) else Pass
  }

  /** The credentials `__init__` keeps, or the error it raises. Without a
      credentials path they are the arguments, otherwise `fromFile`, the
      pair `_load_json_credentials` reads. */
  function Credentials(username: PyValue, password: PyValue, credentialsPath: PyValue, fromFile: (PyValue, PyValue))
    : Result<(string, string)>
  {
    if credentialsPath.PyNone? && (username.PyNone? || password.PyNone?) then Err(NeedBoth)
    else
      var (u, p) := if credentialsPath.PyNone? then (username, password) else fromFile;
      if !u.PyStr? || !p.PyStr? then Err(NotStrings)
      else Ok((u.text, p.text))
  }

  /** The checks of `set_poi`. */
  function PoiCheck(lon: PyValue, lat: PyValue): Outcome
  {
    if !lon.PyFloat? || !lat.PyFloat? then Fail(NotFloats)
    else CheckCoordsInDomain(lon.x, lat.x)
  }

  /** `set_bboxoi(lon_min, lon_max, lat_min, mat_max)` as written: once the
      first three arguments are floats, the type test evaluates `lat_max`, a
      name defined nowhere, so the call never gets past it. */
  function BboxoiAsWritten(lonMin: PyValue, lonMax: PyValue, latMin: PyValue, matMax: PyValue): Outcome
  {
    if !lonMin.PyFloat? || !lonMax.PyFloat? || !latMin.PyFloat? then Fail(NotFloats)
    else Fail(UndefinedLatMax)
  }

  /** The ordering test of `set_bboxoi` as written: it raises when a minimum
      is below its maximum. */
  predicate OrderRejectsAsWritten(lonMin: real, lonMax: real, latMin: real, latMax: real)
  {
    lonMin < lonMax || latMin < latMax
  }

  /** `set_bboxoi` as its message and its sibling `set_bbox_of_interest` in
      pymeteofr intend it: the fourth argument is type-checked, and a box is
      rejected when a minimum is not below its maximum. */
  function BboxoiChecked(lonMin: PyValue, lonMax: PyValue, latMin: PyValue, latMax: PyValue): Result<Box>
  {
    if !lonMin.PyFloat? || !lonMax.PyFloat? || !latMin.PyFloat? || !latMax.PyFloat? then Err(NotFloats)
    else if lonMin.x >= lonMax.x || latMin.x >= latMax.x then Err(Unordered)
    else if CheckCoordsInDomain(lonMin.x, latMin.x).Fail? then Err(OutsideDomain)
    else if CheckCoordsInDomain(lonMax.x, latMax.x).Fail? then Err(OutsideDomain)
    else Ok(Box(lonMin.x, latMin.x, lonMax.x, latMax.x))
  }

  class Fetcher {
    var username: string
    var password: string
    var token: PyValue
    var poi: Option<Point>
    var bbox: Option<Box>

    constructor (username: string, password: string, token: PyValue)
      ensures this.username == username && this.password == password && this.token == token
      ensures poi.None? && bbox.None?
    {
      this.username := username;
      this.password := password;
      this.token := token;
      poi := None;
      bbox := None;
    }

    /** `Fetcher(username, password, credentials_file_path, token)`: the
        credentials are checked; without a token, `fetch_token` stores
        `fetched`, the text of the GetAPIKey response. */
    static method Create(fromFile: (PyValue, PyValue), fetched: PyValue,
                         username: PyValue := PyNone, password: PyValue := PyNone,
                         credentialsPath: PyValue := PyNone, token: PyValue := PyNone)
      returns (r: Result<Fetcher>)
      ensures Credentials(username, password, credentialsPath, fromFile).Err? ==>
        r == Err(Credentials(username, password, credentialsPath, fromFile).error)
      ensures Credentials(username, password, credentialsPath, fromFile).Ok? ==>
        && r.Ok? && fresh(r.value)
        && (r.value.username, r.value.password) == Credentials(username, password, credentialsPath, fromFile).value
        && r.value.token == (if token.PyNone? then fetched else token)
        && r.value.poi.None? && r.value.bbox.None?
    {
      var creds := Credentials(username, password, credentialsPath, fromFile);
      if creds.Err? {
        return Err(creds.error);
      }
      var stored := if token.PyNone? then fetched else token;
      var f := new Fetcher(creds.value.0, creds.value.1, stored);
      r := Ok(f);
    }

    /** `set_poi`: `poi` is assigned only when both checks pass. */
    method SetPoi(lon: PyValue, lat: PyValue) returns (r: Outcome)
      modifies this`poi
      ensures r == PoiCheck(lon, lat)
      ensures r.Pass? ==> poi == Some(Point(lon.x, lat.x))
      ensures r.Fail? ==> poi == old(poi)
    {
      if !lon.PyFloat? || !lat.PyFloat? {
        return Fail(NotFloats);
      }
      r := CheckCoordsInDomain(lon.x, lat.x);
      if r.Fail? {
        return;
      }
      poi := Some(Point(lon.x, lat.x));
    }

    /** `set_bboxoi` with the corrected checks of `BboxoiChecked`. */
    method SetBboxoi(lonMin: PyValue, lonMax: PyValue, latMin: PyValue, latMax: PyValue) returns (r: Outcome)
      modifies this`bbox
      ensures r.Pass? <==> BboxoiChecked(lonMin, lonMax, latMin, latMax).Ok?
      ensures r.Fail? ==> r.error == BboxoiChecked(lonMin, lonMax, latMin, latMax).error && bbox == old(bbox)
      ensures r.Pass? ==> bbox == Some(BboxoiChecked(lonMin, lonMax, latMin, latMax).value)
    {
      var checked := BboxoiChecked(lonMin, lonMax, latMin, latMax);
      if checked.Err? {
        return Fail(checked.error);
      }
      bbox := Some(checked.value);
      r := Pass;
    }
  }

  // ---------------------------------------------------------------------------
  // Lemmas

  /** The constructor's checks: without a credentials path both names must
      be given, and whatever is kept must be two strings. */
  lemma CredentialsChecked(username: PyValue, password: PyValue, credentialsPath: PyValue, fromFile: (PyValue, PyValue))
    ensures var r := Credentials(username, password, credentialsPath, fromFile);
      && (credentialsPath.PyNone? && (username.PyNone? || password.PyNone?) ==> r == Err(NeedBoth))
      && (credentialsPath.PyNone? ==>
            (r.Ok? <==> username.PyStr? && password.PyStr?)
            && (r.Ok? ==> r.value == (username.text, password.text)))
      && (!credentialsPath.PyNone? ==>
            (r.Ok? <==> fromFile.0.PyStr? && fromFile.1.PyStr?)
            && (r.Ok? ==> r.value == (fromFile.0.text, fromFile.1.text)))
      && (r.Err? && r != Err(NeedBoth) ==> r == Err(NotStrings))
  {
  }

  /** `set_poi` accepts exactly two floats inside the domain, borders
      included; an int or a bool is refused as a non-float. */
  lemma PoiAccepted(lon: PyValue, lat: PyValue)
    ensures PoiCheck(lon, lat).Pass? <==> lon.PyFloat? && lat.PyFloat? && InDomain(lon.x, lat.x)
    ensures !lon.PyFloat? || !lat.PyFloat? ==> PoiCheck(lon, lat) == Fail(NotFloats)
    ensures lon.PyFloat? && lat.PyFloat? && !InDomain(lon.x, lat.x) ==> PoiCheck(lon, lat) == Fail(OutsideDomain)
  {
  }

  /** Finding: `set_bboxoi` as written raises on every input. */
  lemma BboxoiAsWrittenNeverSucceeds(lonMin: PyValue, lonMax: PyValue, latMin: PyValue, matMax: PyValue)
    ensures BboxoiAsWritten(lonMin, lonMax, latMin, matMax).Fail?
    ensures lonMin.PyFloat? && lonMax.PyFloat? && latMin.PyFloat? ==>
      BboxoiAsWritten(lonMin, lonMax, latMin, matMax) == Fail(UndefinedLatMax)
  {
  }

  /** Finding: the ordering test as written rejects every box whose minima
      are below their maxima, such as lon 0..1, lat 40..41, and lets a
      reversed box through. */
  lemma OrderTestInverted(lonMin: real, lonMax: real, latMin: real, latMax: real)
    ensures lonMin < lonMax && latMin < latMax ==> OrderRejectsAsWritten(lonMin, lonMax, latMin, latMax)
    ensures !OrderRejectsAsWritten(lonMin, lonMax, latMin, latMax) ==> lonMin >= lonMax && latMin >= latMax
    ensures OrderRejectsAsWritten(0.0, 1.0, 40.0, 41.0) && InDomain(0.0, 40.0) && InDomain(1.0, 41.0)
    ensures !OrderRejectsAsWritten(1.0, 0.0, 41.0, 40.0)
  {
  }

  /** The corrected `set_bboxoi` accepts exactly four floats forming a
      strictly ordered box with both corners in the domain; the whole box is
      then in the domain, and the stored box has the arguments in
      `(lon_min, lat_min, lon_max, lat_max)` order. */
  lemma BboxoiCheckedOk(lonMin: PyValue, lonMax: PyValue, latMin: PyValue, latMax: PyValue)
    ensures BboxoiChecked(lonMin, lonMax, latMin, latMax).Ok? <==>
      && lonMin.PyFloat? && lonMax.PyFloat? && latMin.PyFloat? && latMax.PyFloat?
      && lonMin.x < lonMax.x && latMin.x < latMax.x
      && InDomain(lonMin.x, latMin.x) && InDomain(lonMax.x, latMax.x)
    ensures BboxoiChecked(lonMin, lonMax, latMin, latMax).Ok? ==>
      && BboxoiChecked(lonMin, lonMax, latMin, latMax).value == Box(lonMin.x, latMin.x, lonMax.x, latMax.x)
      && forall lon: real, lat: real :: lonMin.x <= lon <= lonMax.x && latMin.x <= lat <= latMax.x ==> InDomain(lon, lat)
    ensures lonMin.PyFloat? && lonMax.PyFloat? && latMin.PyFloat? && latMax.PyFloat?
            && !(lonMin.x < lonMax.x && latMin.x < latMax.x) ==>
      BboxoiChecked(lonMin, lonMax, latMin, latMax) == Err(Unordered)
  {
  }
}
