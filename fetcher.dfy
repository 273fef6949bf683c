/** The `Fetcher` of pymeteofr/services.py: the client object whose methods
    select a product, a field (title), a run time and a region, assigning its
    attributes step by step. Responses of the web service are parameters:
    the token text, the parsed capability summaries, the envelope corners and
    the first and last hours of the time axis. */
module MeteoFrance {
  import opened Outcomes
  import opened PyStrings
  import opened ServiceOptions
  import opened Coverage
  import opened Horizon
  import opened Bbox
  import opened Describe

  const WcsVersion: string := "2.0.1"
  const Projection: string := "EPSG:4326"
  const HeightMarker: string := "at specified height level above ground"
  /** The title `set_title` and `select_coverage_id` use when none is given. */
  const DefaultTitle: string := "Temperature " + HeightMarker
  const NeedCredentials: Error := AttributeError("both username and password should be given.")
  const TokenNotText: Error := TypeError("replace() argument 2 must be str, not None")
  const NoEarlierRunTime: Error := IndexError("list index out of range")

  /** `self.run_time`: `select_coverage_id` stores text cut from the
      CoverageId, `set_complete_run_time` one of the listed run times. */
  datatype RunTimeLabel = FromCoverageId(text: string) | Listed(hour: int)

  /** The two `assert`s of `fetch_token`: `token[:2] == "__"` and `token[-2:] == "__"`. */
  predicate TokenShapeOk(token: string)
  {
    Head(token, 2) == "__" && Tail(token, 2) == "__"
  }

  /** `title_with_height` for a title. */
  predicate TitleWithHeight(title: string)
  {
    Contains(title, HeightMarker)
  }

  /** `CoverageId.split("___")[-1].replace(".", ":")`. */
  function RunTimeOfCoverageId(cid: string): string
  {
    ReplaceChar(RunTimePart(cid), '.', ':')
  }

  /** The outcome of `_build_base_url` and the `_url_base` it leaves: the
      lookup error leaves it as it was; a missing token fails in `replace`
      after the template was stored. */
  function BaseUrlStep(dataset: string, area: string, accuracy: real, token: Option<string>, urlBase: string): (Outcome, string)
  {
    match Lookup(Criteria(Lower(dataset), Lower(area), accuracy, "wcs"))
    case Err(e) => (Fail(e), urlBase)
    case Ok(template) =>
      if token.None? then (Fail(TokenNotText), template)
      else (Pass, ReplaceAll(template, Placeholder, token.value))
  }

  /** The membership test of `set_title`, on the 1-hour table if there is one. */
  function TitleCheck(capa1H: Option<seq<Row>>, title: string): Outcome
  {
    if capa1H.None? then Fail(Missing("Fetcher", "_capa_1H"))
    else if HasTitle(capa1H.value, title) then Pass
    else Fail(ValueError("title '" + title + "' not found"))
  }

  /** The checks `set_bbox_of_interest` runs before assigning `bbox`. */
  function BboxPrecheck(maxBbox: Option<Box>, lonMin: real, latMin: real, lonMax: real, latMax: real): Outcome
  {
    if CheckOrder(lonMin, latMin, lonMax, latMax).Fail? then CheckOrder(lonMin, latMin, lonMax, latMax)
    else if maxBbox.None? then Fail(Missing("Fetcher", "max_bbox"))
    else BboxChecks(maxBbox.value, lonMin, latMin, lonMax, latMax)
  }

  class Fetcher {
    var token: Option<string>
    const wcsVersion: string
    const projection: string
    var urlBase: string
    var capa1H: Option<seq<Row>>
    var title: Option<string>
    var titleWithHeight: Option<bool>
    var coverageId: Option<string>
    var runTime: Option<RunTimeLabel>
    var maxBbox: Option<Box>
    var dts: Option<seq<int>>
    var requestedDts: Option<seq<int>>
    var bbox: Option<Box>
    var bboxInt: Option<IntBox>

    /** What every method keeps: the height flag follows the title, a title
        needs a table, a CoverageId a title, a run time and a description a
        CoverageId, and the integer box the box. */
    predicate Valid()
      reads this
    {
      && (title.Some? <==> titleWithHeight.Some?)
      && (title.Some? ==> titleWithHeight.value == TitleWithHeight(title.value))
      && (title.Some? ==> capa1H.Some?)
      && (coverageId.Some? ==> title.Some?)
      && (runTime.Some? ==> coverageId.Some?)
      && (maxBbox.Some? ==> coverageId.Some?)
      && (dts.Some? ==> coverageId.Some?)
      && (bboxInt.Some? ==> bbox.Some?)
    }

    constructor (tokenArg: string := "")
      ensures Valid()
      ensures token == (if tokenArg != "" then Some(tokenArg) else None)
      ensures wcsVersion == WcsVersion && projection == Projection && urlBase == ""
      ensures capa1H.None? && title.None? && titleWithHeight.None? && coverageId.None? && runTime.None?
      ensures maxBbox.None? && dts.None? && requestedDts.None? && bbox.None? && bboxInt.None?
    {
      token := if tokenArg != "" then Some(tokenArg) else None;
      wcsVersion := WcsVersion;
      projection := Projection;
      urlBase := "";
      capa1H, title, titleWithHeight, coverageId, runTime := None, None, None, None, None;
      maxBbox, dts, requestedDts, bbox, bboxInt := None, None, None, None, None;
    }

    /** `fetch_token`: `received` is the token the GetAPIKey response holds.
        It is stored before its shape is asserted. */
    method FetchToken(received: string, username: string := "", password: string := "", credentialsPath: string := "")
      returns (r: Outcome)
      requires Valid()
      modifies this`token
      ensures Valid()
      ensures credentialsPath == "" && (username == "" || password == "") ==>
        r == Fail(NeedCredentials) && token == old(token)
      ensures !(credentialsPath == "" && (username == "" || password == "")) ==>
        && token == Some(received)
        && (r.Pass? <==> TokenShapeOk(received))
        && (r.Fail? ==> r.error == AssertionError)
    {
      if credentialsPath == "" && (username == "" || password == "") {
        return Fail(NeedCredentials);
      }
      token := Some(received);
      if Head(received, 2) != "__" {
        return Fail(AssertionError);
      }
      if Tail(received, 2) != "__" {
        return Fail(AssertionError);
      }
      r := Pass;
    }

    /** `_build_base_url`: dataset and area are lower-cased, the service type
        is "wcs", and the token replaces the placeholder. */
    method BuildBaseUrl(dataset: string := "arome", area: string := "france", accuracy: real := 0.01)
      returns (r: Outcome)
      requires Valid()
      modifies this`urlBase
      ensures Valid()
      ensures (r, urlBase) == BaseUrlStep(dataset, area, accuracy, token, old(urlBase))
    {
      var checker := new Checker(Lower(dataset), Lower(area), accuracy, "wcs");
      var found := checker.GetUrlBase();
      if found.Err? {
        return Fail(found.error);
      }
      urlBase := found.value;
      if token.None? {
        return Fail(TokenNotText);
      }
      urlBase := ReplaceAll(urlBase, Placeholder, token.value);
      r := Pass;
    }

    /** The table `_get_capabilities` keeps from the parsed summaries;
        `hourOf` stands for the `strptime` of the run-time text. */
    method GetCapabilities(summaries: seq<Summary>, hourOf: string -> int)
      requires Valid()
      modifies this`capa1H
      ensures Valid()
      ensures capa1H == Some(Capabilities1H(summaries, hourOf))
    {
      capa1H := Some(Capabilities1H(summaries, hourOf));
    }

    /** `select_product`: the base URL, then the capabilities. */
    method SelectProduct(summaries: seq<Summary>, hourOf: string -> int,
                         dataset: string := "arome", area: string := "france", accuracy: real := 0.01)
      returns (r: Outcome)
      requires Valid()
      modifies this`urlBase, this`capa1H
      ensures Valid()
      ensures (r, urlBase) == BaseUrlStep(dataset, area, accuracy, token, old(urlBase))
      ensures capa1H == if r.Pass? then Some(Capabilities1H(summaries, hourOf)) else old(capa1H)
    {
      r := BuildBaseUrl(dataset, area, accuracy);
      if r.Pass? {
        GetCapabilities(summaries, hourOf);
      }
    }

    /** `set_title`: only a title of the 1-hour table is accepted; nothing
        changes otherwise. */
    method SetTitle(t: string := DefaultTitle) returns (r: Outcome)
      requires Valid()
      modifies this`title, this`titleWithHeight
      ensures Valid()
      ensures r == TitleCheck(capa1H, t)
      ensures r.Pass? ==> title == Some(t) && titleWithHeight == Some(TitleWithHeight(t))
      ensures r.Fail? ==> title == old(title) && titleWithHeight == old(titleWithHeight)
    {
      r := TitleCheck(capa1H, t);
      if r.Pass? {
        title := Some(t);
        titleWithHeight := Some(false);
        if Contains(t, HeightMarker) {
          titleWithHeight := Some(true);
        }
      }
    }

    /** The run times of the current title, ascending, as
        `list_available_run_times()` without an argument lists them. */
    function AvailableRunTimes(): (r: Result<seq<int>>)
      reads this`capa1H, this`title
      ensures capa1H.None? ==> r == Err(Missing("Fetcher", "_capa_1H"))
      ensures capa1H.Some? && title.None? ==> r == Err(Missing("Fetcher", "title"))
      ensures r.Ok? ==> SortedAsc(r.value)
    {
      if capa1H.None? then Err(Missing("Fetcher", "_capa_1H"))
      else if title.None? then Err(Missing("Fetcher", "title"))
      else Ok(RunTimesOf(capa1H.value, title.value))
    }

    /** The listed run times are exactly those of the current title's rows. */
    lemma AvailableRunTimesListed(h: int)
      requires AvailableRunTimes().Ok?
      ensures h in AvailableRunTimes().value <==>
        exists x :: x in capa1H.value && x.title == title.value && x.runTime == h
    {
      ListedRunTimes(capa1H.value, title.value, h);
    }

    /** `list_available_run_times(title)`: a non-empty title is set first. */
    method ListAvailableRunTimes(t: string := "") returns (r: Result<seq<int>>)
      requires Valid()
      modifies this`title, this`titleWithHeight
      ensures Valid()
      ensures t == "" ==> title == old(title) && titleWithHeight == old(titleWithHeight) && r == AvailableRunTimes()
      ensures t != "" && TitleCheck(capa1H, t).Fail? ==>
        && title == old(title) && titleWithHeight == old(titleWithHeight)
        && r == Err(TitleCheck(capa1H, t).error)
      ensures t != "" && TitleCheck(capa1H, t).Pass? ==>
        && title == Some(t) && titleWithHeight == Some(TitleWithHeight(t))
        && r == Ok(RunTimesOf(capa1H.value, t))
    {
      if t != "" {
        var o := SetTitle(t);
        if o.Fail? {
          return Err(o.error);
        }
      }
      r := AvailableRunTimes();
    }

    /** The CoverageId `_get_coverage_id` would select. */
    function CoverageIdFor(request: RunTimeRequest): Result<string>
      reads this`capa1H, this`title
    {
      if capa1H.None? then Err(Missing("Fetcher", "_capa_1H"))
      else if title.None? then Err(Missing("Fetcher", "title"))
      else Resolve(capa1H.value, title.value, request)
    }

    /** `_get_coverage_id`: "latest" or an explicit, listed run time. */
    method GetCoverageId(request: RunTimeRequest := LatestRun) returns (r: Outcome)
      requires Valid()
      modifies this`coverageId
      ensures Valid()
      ensures CoverageIdFor(request).Ok? ==> r == Pass && coverageId == Some(CoverageIdFor(request).value)
      ensures CoverageIdFor(request).Err? ==> r == Fail(CoverageIdFor(request).error) && coverageId == old(coverageId)
    {
      var found := CoverageIdFor(request);
      if found.Err? {
        return Fail(found.error);
      }
      coverageId := Some(found.value);
      r := Pass;
    }

    /** `select_coverage_id`: the title, then the CoverageId, then the run
        time cut from the CoverageId. */
    method SelectCoverageId(t: string := DefaultTitle, request: RunTimeRequest := LatestRun) returns (r: Outcome)
      requires Valid()
      modifies this`title, this`titleWithHeight, this`coverageId, this`runTime
      ensures Valid()
      ensures TitleCheck(capa1H, t).Fail? ==>
        && r == TitleCheck(capa1H, t)
        && title == old(title) && titleWithHeight == old(titleWithHeight)
        && coverageId == old(coverageId) && runTime == old(runTime)
      ensures TitleCheck(capa1H, t).Pass? ==>
        && title == Some(t) && titleWithHeight == Some(TitleWithHeight(t))
        && var found := Resolve(capa1H.value, t, request);
        && (found.Err? ==> r == Fail(found.error) && coverageId == old(coverageId) && runTime == old(runTime))
        && (found.Ok? ==> r == Pass && coverageId == Some(found.value)
                          && runTime == Some(FromCoverageId(RunTimeOfCoverageId(found.value))))
    {
      r := SetTitle(t);
      if r.Fail? {
        return;
      }
      r := SelectRunTime(request);
    }

    /** The last two steps of `select_coverage_id`, once the title is set:
        the CoverageId, then the run time cut from it. */
    method SelectRunTime(request: RunTimeRequest) returns (r: Outcome)
      requires Valid()
      modifies this`coverageId, this`runTime
      ensures Valid()
      ensures CoverageIdFor(request).Err? ==>
        r == Fail(CoverageIdFor(request).error) && coverageId == old(coverageId) && runTime == old(runTime)
      ensures CoverageIdFor(request).Ok? ==>
        && r == Pass && coverageId == Some(CoverageIdFor(request).value)
        && runTime == Some(FromCoverageId(RunTimeOfCoverageId(CoverageIdFor(request).value)))
    {
      r := GetCoverageId(request);
      if r.Fail? {
        return;
      }
      runTime := Some(FromCoverageId(RunTimeOfCoverageId(coverageId.value)));
    }

    /** `describe`: a `Describer` for the current CoverageId, then `max_bbox`
        from the envelope corners and the hourly time axis from `begin` to
        `end`. `float` stands for Python's `float()` on a corner field. */
    method Describe(lowerCorner: string, upperCorner: string, float: string -> real, begin: int, end: int)
      returns (r: Outcome)
      requires Valid()
      modifies this`maxBbox, this`dts
      ensures Valid()
      ensures coverageId.None? ==> r == Fail(Missing("Fetcher", "CoverageId"))
      ensures coverageId.Some? && NewDescriber(urlBase, coverageId.value, wcsVersion).Err? ==>
        r == Fail(NewDescriber(urlBase, coverageId.value, wcsVersion).error)
      ensures (coverageId.Some? && NewDescriber(urlBase, coverageId.value, wcsVersion).Ok?
               && MaxBboxOf(lowerCorner, upperCorner, float).Err?) ==>
        r == Fail(MaxBboxOf(lowerCorner, upperCorner, float).error)
      ensures r.Fail? ==> maxBbox == old(maxBbox) && dts == old(dts)
      ensures r.Pass? <==>
        coverageId.Some? && NewDescriber(urlBase, coverageId.value, wcsVersion).Ok?
        && MaxBboxOf(lowerCorner, upperCorner, float).Ok?
      ensures r.Pass? ==>
        maxBbox == Some(MaxBboxOf(lowerCorner, upperCorner, float).value) && dts == Some(HourRange(begin, end))
    {
      if coverageId.None? {
        return Fail(Missing("Fetcher", "CoverageId"));
      }
      var describer := NewDescriber(urlBase, coverageId.value, wcsVersion);
      if describer.Err? {
        return Fail(describer.error);
      }
      var box := MaxBboxOf(lowerCorner, upperCorner, float);
      if box.Err? {
        return Fail(box.error);
      }
      maxBbox := Some(box.value);
      dts := Some(HourRange(begin, end));
      r := Pass;
    }

    /** `_check_next_hours_availability`: `dts_iso` is read before
        `requested_dts` is assigned. */
    method CheckNextHoursAvailability(now: int, n: int := 24) returns (r: Result<bool>)
      requires Valid()
      modifies this`requestedDts
      ensures Valid()
      ensures dts.None? ==> r == Err(Missing("Fetcher", "dts_iso")) && requestedDts == old(requestedDts)
      ensures dts.Some? ==>
        requestedDts == Some(RequestedHours(now, n)) && r == Ok(Available(RequestedHours(now, n), dts.value))
    {
      if dts.None? {
        return Err(Missing("Fetcher", "dts_iso"));
      }
      var requested := NextHours(now, n);
      requestedDts := Some(requested);
      r := Ok(Available(requested, dts.value));
    }

    /** `set_complete_run_time`: when the next `n` hours are not all on the
        time axis, the run time steps back once, to the one before the last
        listed, and the CoverageId follows; the time axis is not re-read. */
    method SetCompleteRunTime(now: int, n: int := 24) returns (r: Outcome)
      requires Valid()
      modifies this`requestedDts, this`runTime, this`coverageId
      ensures Valid()
      ensures dts.None? ==>
        r == Fail(Missing("Fetcher", "dts_iso")) && requestedDts == old(requestedDts)
        && runTime == old(runTime) && coverageId == old(coverageId)
      ensures dts.Some? ==> requestedDts == Some(RequestedHours(now, n))
      ensures dts.Some? && Available(RequestedHours(now, n), dts.value) ==>
        r == Pass && runTime == old(runTime) && coverageId == old(coverageId)
      ensures dts.Some? && !Available(RequestedHours(now, n), dts.value) && StepBackTarget().Err? ==>
        r == Fail(StepBackTarget().error) && runTime == old(runTime) && coverageId == old(coverageId)
      ensures dts.Some? && !Available(RequestedHours(now, n), dts.value) && StepBackTarget().Ok? ==>
        && r == Pass
        && runTime == Some(Listed(StepBackTarget().value))
        && coverageId == Some(CoverageIdFor(RunAt(StepBackTarget().value)).value)
    {
      var covered := CheckNextHoursAvailability(now, n);
      if covered.Err? {
        return Fail(covered.error);
      }
      if covered.value {
        return Pass;
      }
      r := StepBack();
    }

    /** The branch of `set_complete_run_time` that is taken when the horizon
        is not covered: `run_time` is assigned `run_times[-2]`, then the
        CoverageId of that run time. */
    method StepBack() returns (r: Outcome)
      requires Valid() && dts.Some?
      modifies this`runTime, this`coverageId
      ensures Valid()
      ensures StepBackTarget().Err? ==>
        r == Fail(StepBackTarget().error) && runTime == old(runTime) && coverageId == old(coverageId)
      ensures StepBackTarget().Ok? ==>
        && r == Pass
        && runTime == Some(Listed(StepBackTarget().value))
        && coverageId == Some(CoverageIdFor(RunAt(StepBackTarget().value)).value)
    {
      var back := StepBackTarget();
      if back.Err? {
        return Fail(back.error);
      }
      ghost var target := CoverageIdFor(RunAt(back.value));
      assert target.Ok? && coverageId.Some?;
      runTime := Some(Listed(back.value));
      r := GetCoverageId(RunAt(back.value));
      assert coverageId == Some(target.value);
    }

    /** The run time `set_complete_run_time` steps back to, `run_times[-2]`:
        the one before the last listed, which always resolves to a CoverageId. */
    function StepBackTarget(): (r: Result<int>)
      reads this`capa1H, this`title
      ensures AvailableRunTimes().Err? ==> r == Err(AvailableRunTimes().error)
      ensures AvailableRunTimes().Ok? && |AvailableRunTimes().value| < 2 ==> r == Err(NoEarlierRunTime)
      ensures r.Ok? ==>
        var listed := AvailableRunTimes().value;
        |listed| >= 2 && r.value == listed[|listed| - 2] && r.value <= listed[|listed| - 1]
      ensures r.Ok? ==> CoverageIdFor(RunAt(r.value)).Ok?
    {
      var listed := AvailableRunTimes();
      if listed.Err? then Err(listed.error)
      else if |listed.value| < 2 then Err(NoEarlierRunTime)
      else
        StepBackRunTime(capa1H.value, title.value);
        Ok(listed.value[|listed.value| - 2])
    }

    /** `_check_coords_in_domain` against `max_bbox`. */
    function CheckCoordsInDomain(lon: real, lat: real): (r: Outcome)
      reads this`maxBbox
      ensures maxBbox.None? ==> r == Fail(Missing("Fetcher", "max_bbox"))
      ensures maxBbox.Some? ==> (r.Pass? <==> Inside(maxBbox.value, lon, lat))
    {
      if maxBbox.None? then Fail(Missing("Fetcher", "max_bbox"))
      else CheckCoords(maxBbox.value, lon, lat)
    }

    /** `_create_an_integer_bbox`. */
    method CreateAnIntegerBbox(lonMin: real, latMin: real, lonMax: real, latMax: real) returns (r: Outcome)
      requires Valid() && bbox.Some?
      modifies this`bboxInt
      ensures Valid()
      ensures maxBbox.None? ==> r == Fail(Missing("Fetcher", "max_bbox")) && bboxInt == old(bboxInt)
      ensures maxBbox.Some? && IntegerBbox(maxBbox.value, lonMin, latMin, lonMax, latMax).Err? ==>
        r == Fail(IntegerBbox(maxBbox.value, lonMin, latMin, lonMax, latMax).error) && bboxInt == old(bboxInt)
      ensures maxBbox.Some? && IntegerBbox(maxBbox.value, lonMin, latMin, lonMax, latMax).Ok? ==>
        r == Pass && bboxInt == Some(IntegerBbox(maxBbox.value, lonMin, latMin, lonMax, latMax).value)
    {
      if maxBbox.None? {
        return Fail(Missing("Fetcher", "max_bbox"));
      }
      var box := IntegerBbox(maxBbox.value, lonMin, latMin, lonMax, latMax);
      if box.Err? {
        return Fail(box.error);
      }
      bboxInt := Some(box.value);
      r := Pass;
    }

    /** `set_bbox_of_interest`: ordering and corner checks leave everything as
        it was; after them `bbox` is assigned, and only then is the integer
        box computed, which may still fail. */
    method SetBboxOfInterest(lonMin: real, latMin: real, lonMax: real, latMax: real) returns (r: Outcome)
      requires Valid()
      modifies this`bbox, this`bboxInt
      ensures Valid()
      ensures BboxPrecheck(maxBbox, lonMin, latMin, lonMax, latMax).Fail? ==>
        r == BboxPrecheck(maxBbox, lonMin, latMin, lonMax, latMax) && bbox == old(bbox) && bboxInt == old(bboxInt)
      ensures BboxPrecheck(maxBbox, lonMin, latMin, lonMax, latMax).Pass? ==>
        && maxBbox.Some?
        && bbox == Some(Box(lonMin, latMin, lonMax, latMax))
        && var ib := IntegerBbox(maxBbox.value, lonMin, latMin, lonMax, latMax);
        && (ib.Err? ==> r == Fail(ib.error) && bboxInt == old(bboxInt))
        && (ib.Ok? ==> r == Pass && bboxInt == Some(ib.value))
    {
      if lonMin >= lonMax || latMin >= latMax {
        return Fail(Unordered);
      }
      r := CheckCoordsInDomain(lonMin, latMin);
      if r.Fail? {
        return;
      }
      r := CheckCoordsInDomain(lonMax, latMax);
      if r.Fail? {
        return;
      }
      bbox := Some(Box(lonMin, latMin, lonMax, latMax));
      r := CreateAnIntegerBbox(lonMin, latMin, lonMax, latMax);
    }
  }

  // ---------------------------------------------------------------------------
  // Lemmas

  /** A token that passes the asserts of `fetch_token` has at least two
      characters and starts and ends with "__"; conversely, any such text passes. */
  lemma TokenShape(token: string)
    ensures TokenShapeOk(token) <==>
      |token| >= 2 && token[..2] == "__" && token[|token| - 2..] == "__"
  {
    if |token| < 2 {
      assert |Head(token, 2)| < 2;
    }
  }

  /** For each product of the table, `_build_base_url` with its dataset and
      area in any case and its accuracy yields the product's URL with the
      token in place of the placeholder and nothing else changed. */
  lemma BaseUrlOfProduct(i: nat, dataset: string, area: string, token: string, urlBase: string)
    requires i < |Options|
    requires Lower(dataset) == Options[i].dataset && Lower(area) == Options[i].area
    ensures |ApiRoot + Placeholder| <= |Options[i].urlBase|
    ensures BaseUrlStep(dataset, area, Options[i].accuracy, Some(token), urlBase)
            == (Pass, ApiRoot + token + Options[i].urlBase[|ApiRoot + Placeholder|..])
  {
    LookupEachRow(i);
    TokenSubstitution(i, token);
  }

  /** Without a token, `_build_base_url` fails after storing the template,
      placeholder included. */
  lemma BaseUrlWithoutToken(dataset: string, area: string, accuracy: real, urlBase: string)
    ensures var c := Criteria(Lower(dataset), Lower(area), accuracy, "wcs");
      var step := BaseUrlStep(dataset, area, accuracy, None, urlBase);
      Lookup(c).Ok? ==> step == (Fail(TokenNotText), Lookup(c).value) && Contains(step.1, Placeholder)
  {
    var c := Criteria(Lower(dataset), Lower(area), accuracy, "wcs");
    if Lookup(c).Ok? {
      LookupCharacterized(c);
      var o :| o in Options && Accepts(c, o) && Lookup(c).value == o.urlBase;
      var i :| 0 <= i < |Options| && Options[i] == o;
      TemplateHasPlaceholder(i);
    }
  }

  /** A failed lookup leaves the URL as it was, with one of the checker's
      two errors. */
  lemma BaseUrlLookupFails(dataset: string, area: string, accuracy: real, token: Option<string>, urlBase: string)
    ensures var c := Criteria(Lower(dataset), Lower(area), accuracy, "wcs");
      var step := BaseUrlStep(dataset, area, accuracy, token, urlBase);
      Lookup(c).Err? ==> step.1 == urlBase && (step.0 == Fail(NoMatch) || step.0 == Fail(SeveralMatches))
  {
    LookupErrors(Criteria(Lower(dataset), Lower(area), accuracy, "wcs"));
  }

  lemma TemplateHasPlaceholder(i: nat)
    requires i < |Options|
    ensures Contains(Options[i].urlBase, Placeholder)
  {
    var u := Options[i].urlBase;
    assert u[|ApiRoot|..|ApiRoot| + |Placeholder|] == Placeholder;
    assert OccursAt(u, Placeholder, |ApiRoot|);
  }

  /** The only errors of the lookup are the two the checker raises. */
  lemma LookupErrors(c: Criteria)
    ensures Lookup(c).Err? ==> Lookup(c).error == NoMatch || Lookup(c).error == SeveralMatches
  {
  }

  /** `title_with_height` is set exactly for the titles made of some text,
      the height-level phrase and some more text. */
  lemma HeightFlag(t: string)
    ensures TitleWithHeight(t) <==> exists p, q :: t == p + HeightMarker + q
  {
    if TitleWithHeight(t) {
      var i :| 0 <= i <= |t| && OccursAt(t, HeightMarker, i);
      assert t == t[..i] + HeightMarker + t[i + |HeightMarker|..];
    }
    if exists p, q :: t == p + HeightMarker + q {
      var p, q :| t == p + HeightMarker + q;
      assert t[|p|..|p| + |HeightMarker|] == HeightMarker;
      assert OccursAt(t, HeightMarker, |p|);
    }
  }

  /** The default title of `set_title` carries the height-level phrase. */
  lemma DefaultTitleWithHeight()
    ensures TitleWithHeight(DefaultTitle)
  {
    assert DefaultTitle == "Temperature " + HeightMarker + [];
    HeightFlag(DefaultTitle);
  }

  /** The run time `select_coverage_id` stores for a 1-hour CoverageId
      `name + "___" + text + "Z"` is `text` with dots turned into colons,
      followed by "Z". */
  lemma SelectedRunTimeText(name: string, text: string)
    requires |name| > 0 ==> name[|name| - 1] != '_'
    requires '_' !in text
    ensures RunTimeOfCoverageId(name + "___" + text + "Z") == ReplaceChar(text, '.', ':') + "Z"
    ensures '.' !in RunTimeOfCoverageId(name + "___" + text + "Z")
  {
    assert name + "___" + text + "Z" == name + "___" + (text + "Z");
    NoSeparatorAfterName(text, "");
    assert text + "Z" + "" == text + "Z";
    RunTimePartOf(name, text + "Z");
    assert ReplaceChar(text + "Z", '.', ':') == ReplaceChar(text, '.', ':') + "Z";
  }
}
