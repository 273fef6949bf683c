# pymeteofr / pyinspire decision logic in Dafny

This project models the decision logic of two small Python clients for
Météo-France web services. It does not model their HTTP or XML handling.

- `pymeteofr/services.py` is a client for the OGC Web Coverage Service 2.0.1
  that serves the AROME and ARPEGE numerical weather prediction products. A
  `Fetcher` object:
  1. picks a product (dataset, area, accuracy) from the fixed table of
     `ServiceOptionsChecker` and builds its base URL around the API token;
  2. keeps the capability rows that come every hour (the 1-hour table);
  3. selects a field (title) and a run time, either "latest" or an explicit
     listed one, and derives the CoverageId from them;
  4. reads the coverage's envelope (`max_bbox`) and hourly time axis through
     a `Describer`;
  5. checks that the next `n` hours are on that axis, and steps back one run
     time if they are not;
  6. validates a bounding box of interest and its enclosing box with
     whole-degree sides.
- `pyinspire/services.py` holds a second `Fetcher`. Its constructor validates
  the credentials. It checks a point or a box of interest against a fixed
  domain, -8..12 E and 38..53 N.

Modules:

| file | module | contents |
|---|---|---|
| `outcomes.dfy` | `Outcomes` | Python exceptions as an `Error` datatype; `Option`, `Result`, `Outcome` |
| `pystrings.dfy` | `PyStrings` | `str.split`, `join`, `replace`, `strip`, `lower`, `in`, slicing, with their laws |
| `service_options.dfy` | `ServiceOptions` | the product table, `ServiceOptionsChecker` as `class Checker` |
| `coverage.dfy` | `Coverage` | CoverageId parsing, the 1-hour table, run-time listing and resolution |
| `horizon.dfy` | `Horizon` | hour truncation, the requested hours (a loop), the availability test |
| `bbox.dfy` | `Bbox` | ordering and domain checks, the integer box |
| `describer.dfy` | `Describe` | `Describer` checks, the DescribeCoverage URL, `max_bbox` from the corners |
| `fetcher.dfy` | `MeteoFrance` | pymeteofr's `Fetcher` as a class whose methods update its attributes |
| `inspire.dfy` | `Inspire` | pyinspire's `Fetcher`, with `set_bboxoi` as written and corrected |

Modelling conventions:

- A Python method that can raise returns an `Outcome` or a `Result`.
- An attribute that `__init__` does not set is an `Option` field. Reading it
  while it is `None` is the `AttributeError` Python raises.
- Each state-changing method states its whole new state. It also keeps the
  class invariant `Valid()`: the height flag follows the title, a title needs
  the 1-hour table, a CoverageId needs a title, and so on.
- Timestamps are whole hours since the epoch. "Now" is a number of seconds
  since the epoch.
- Every reply of the web service is a parameter: the token text, the
  capability summaries, the envelope corners, and the first and last hours of
  the time axis. These parameters come first.
- Python's default arguments are Dafny default parameter values: `n := 24`,
  the temperature title, `LatestRun` for "latest", "arome"/"france"/0.01, and
  so on.

`set_complete_run_time` steps back once, to the run time before the last one
listed. It does not loop, and it does not describe the coverage again.

## Model

| member | source | states |
|---|---|---|
| ServiceOptions.Checker.constructor | pymeteofr/services.py:426-446 | `choice` is the table rows that pass every given criterion, in table order. A criterion applies when its text is non-empty (service type, dataset, area) or when accuracy > 0. |
| ServiceOptions.Checker.GetUrlBase | pymeteofr/services.py:448-459 | Fails with "No service matching the criteria" on zero rows and "Several services match the criteria" on more than one. Otherwise returns the `url_base` of the single row. |
| ServiceOptions.Narrow | pymeteofr/services.py:434-446 | The table rows that pass every given criterion, in table order. |
| ServiceOptions.UrlBaseOf | pymeteofr/services.py:448-459 | `get_url_base` on a selection. |
| ServiceOptions.Lookup | pymeteofr/services.py:426-459 | A checker built with the criteria, then asked for its URL. `LookupCharacterized` states it. |
| ServiceOptions.LookupCharacterized | pymeteofr/services.py:434-459 | The lookup fails with "No service…" iff no row passes the criteria. It fails with "Several services…" iff two different rows pass. It succeeds iff exactly one row passes, and then returns that row's `url_base`. |
| ServiceOptions.LookupEachRow | pymeteofr/services.py:393-459 | Each product's own dataset, area and accuracy, with "wcs", select exactly that product's `url_base`. |
| ServiceOptions.LookupAromeFranceAnyAccuracy | pymeteofr/services.py:405-423 | AROME over France with no accuracy (≤ 0) matches both AROME products, so it raises "Several services match the criteria". |
| ServiceOptions.TokenSubstitution | pymeteofr/services.py:393-423 | In every template, replacing "VOTRE_CLE" by a token changes that one spot: the result is the API root, then the token, then the template's own path. |
| Coverage.RunTimePart | pymeteofr/services.py:237 | `CoverageId.split("___")[-1]`. `RunTimePartOf` states what it yields. |
| Coverage.RunTimeSuffix | pymeteofr/services.py:236-238 | `run_time_suffix`: the stripped text after the last "Z" of the run-time part. `HourlyIffBlankSuffix` and `CoverageIdRoundTrip` state what it yields. |
| Coverage.IsHourly | pymeteofr/services.py:240 | The filter `run_time_suffix == ""`. `HourlyIffBlankSuffix` states it as "the suffix is all white space". |
| Coverage.RunTimeText | pymeteofr/services.py:242-244 | The stripped text before the first "Z" of the run-time part. `CoverageIdRoundTrip` states that it gives the run-time text back. |
| Coverage.Capabilities1H | pymeteofr/services.py:236-247 | The 1-hour table: each summary's `HourlyRow`, in response order. `Capabilities1HRows` and `Capabilities1HAppend` state its properties. |
| Coverage.HourlyRow | pymeteofr/services.py:240-247 | The row a summary contributes: one if it is hourly, none otherwise. |
| Coverage.Capabilities1HRows | pymeteofr/services.py:236-247 | The 1-hour table has at most one row per summary. It holds exactly the summaries whose CoverageId has an empty suffix, and each row's run time is the parsed run-time text. |
| Coverage.Capabilities1HAppend | pymeteofr/services.py:240-247 | The table keeps response order: the table of `a + b` is the table of `a` followed by the table of `b`. |
| Coverage.HourlyIffBlankSuffix | pymeteofr/services.py:240-244 | A CoverageId is kept iff everything after the last "Z" of its text after the last "___" is white space. |
| Coverage.RunTimePartOf | pymeteofr/services.py:237 | `split("___")[-1]` of `name + "___" + rest` is `rest`. This holds when `name` does not end with an underscore, `rest` does not start with one, and `rest` holds no "___"; `rest` may hold `_` or `__`. |
| Coverage.CoverageIdRoundTrip | pymeteofr/services.py:236-247 | A CoverageId `name___<text>Z<tail>` yields `text` back as its run-time text. It is kept iff `tail` is blank. The tail may hold underscores but no "___" and no "Z", so a period tail such as `_PT3H` still yields the text and is not kept. |
| Coverage.TitleRunTimes | pymeteofr/services.py:118-122 | The run times selected for a title are exactly those of the rows with that title. |
| Coverage.TitleRunTimesAppend | pymeteofr/services.py:118-122 | The selection has one entry per row of the title, in table order: that of `a + b` is that of `a` followed by that of `b`. |
| Coverage.RunTimesOf | pymeteofr/services.py:118-123 | `list_available_run_times` on a table: the title's run times, sorted with repetitions kept. `ListedRunTimes` and `DuplicateRunTimeListedTwice` state its properties. |
| Coverage.DuplicateRunTimeListedTwice | pymeteofr/services.py:118-123 | Two rows of the title with the same run time list it twice. So `run_times[-2]` can be the latest run time again. |
| Coverage.SortAsc | pymeteofr/services.py:119-123 | `np.sort` gives an ascending permutation of its input. |
| Coverage.ListedRunTimes | pymeteofr/services.py:111-127 | A run time is listed for a title iff some row of that title has it. |
| Coverage.NewestRow | pymeteofr/services.py:250-256 | "latest" picks a row of the title whose run time is at least every other run time of that title. It finds none iff the title has no row. |
| Coverage.LatestIsLastListed | pymeteofr/services.py:111-127 | The CoverageId that "latest" resolves to belongs to a row whose run time is the last (largest) listed run time. |
| Coverage.FirstMatch | pymeteofr/services.py:260-262 | The row `.values[0]` takes has the title and the run time. None is found iff no row has both. |
| Coverage.FirstMatchIsFirst | pymeteofr/services.py:260-262 | The row taken is the first in table order: no row before it has both the title and the run time. |
| Coverage.Resolve | pymeteofr/services.py:249-262 | `_get_coverage_id` on a table and title. "latest" takes `NewestRow`, or raises IndexError on no row. An explicit run time must be listed (ValueError) and takes `FirstMatch`. `LatestIsLastListed` and `ResolveExplicit` state its properties. |
| Coverage.ResolveExplicit | pymeteofr/services.py:257-262 | An explicit run time resolves iff a row of the title has it, to the CoverageId of such a row. Otherwise it raises the ValueError "not found in available run times". |
| Coverage.StepBackRunTime | pymeteofr/services.py:165-176 | With at least two listed run times, `run_times[-2]` is no later than the last one, belongs to a row of the title, and resolves. |
| Horizon.HourOf | pymeteofr/services.py:266-271 | Truncating to the hour gives the hour `h` with `h*3600 <= now < (h+1)*3600`. |
| Horizon.RequestedHours | pymeteofr/services.py:264-273 | The `n` hours after the current one, none when `n <= 0`. `RequestedHoursShape` states their properties. |
| Horizon.HourRange | pymeteofr/services.py:160-162 | `pd.date_range` from begin to end, hourly. `InHourRange` states its membership. |
| Horizon.Available | pymeteofr/services.py:279 | The set-difference test. `AvailableIffAllCovered` states what it means. |
| Horizon.NextHours | pymeteofr/services.py:264-273 | The loop builds `max(n, 0)` hours, the `i`-th being the truncated hour plus `i+1`. |
| Horizon.RequestedHoursShape | pymeteofr/services.py:264-273 | The requested hours are `n` distinct consecutive hours. All are strictly after now and at most `n` hours after it. |
| Horizon.InHourRange | pymeteofr/services.py:160-162 | An hour is on the time axis iff it lies between begin and end, both included. |
| Horizon.AvailableIffAllCovered | pymeteofr/services.py:275-281 | The set-difference test holds iff every requested hour is on the time axis. |
| Horizon.HorizonCovered | pymeteofr/services.py:264-281 | The next `n` hours are available iff `n <= 0`, or `begin <= h+1` and `h+n <= end`, where `h` is the current hour. |
| Bbox.Floor | pymeteofr/services.py:294 | `int(np.floor(x))` is the greatest whole number not above `x`. |
| Bbox.Ceil | pymeteofr/services.py:302 | `int(np.ceil(x))` is the least whole number not below `x`. |
| Bbox.CheckCoords | pymeteofr/services.py:283-290 | `_check_coords_in_domain` against a given `max_bbox`. `CheckCoordsInside` states it. |
| Bbox.CheckOrder | pymeteofr/services.py:182-186 | The ordering test of `set_bbox_of_interest`: AttributeError unless min < max on both axes. |
| Bbox.BboxChecks | pymeteofr/services.py:178-190 | The ordering test, then the domain test of each corner, first failure first. `BboxChecksPass` states it. |
| Bbox.IntegerBbox | pymeteofr/services.py:292-308 | `_create_an_integer_bbox` against a given `max_bbox`, sides checked left, lower, right, upper. `IntegerBboxEncloses` and `WholeDegreeDomainAccepts` state its properties. |
| Bbox.CheckCoordsInside | pymeteofr/services.py:283-290 | The domain check passes iff the point is in `max_bbox`, borders included. Otherwise it raises ValueError. |
| Bbox.BboxChecksPass | pymeteofr/services.py:178-190 | The checks before `bbox` is assigned pass iff min < max on both axes and both corners are in the domain. The whole box is then in the domain. An unordered box raises the AttributeError first. |
| Bbox.IntegerBboxEncloses | pymeteofr/services.py:292-308 | The integer box is accepted iff its floored minima and ceiled maxima are within `max_bbox`. It then encloses the box, lies in the domain, and each side is less than one degree away from the box. |
| Bbox.WholeDegreeDomainAccepts | pymeteofr/services.py:292-308 | When `max_bbox` has whole-degree sides, every box that passed the corner checks gets its integer box. |
| Bbox.IntegerBboxRejectsInsideBox | pymeteofr/services.py:294-297 | A box inside a domain whose left side is -0.5 still raises "Left bounding box side is outside covered area" when its own left side is in [-0.5, 0). |
| Describe.NewDescriber | pymeteofr/services.py:331-340 | A `Describer` is built iff the base URL and the CoverageId are both non-empty. An empty base URL is reported first. |
| Describe.BuildUrl | pymeteofr/services.py:342-348 | `_build_url`. `BuildUrlShape` and `BuildUrlInjective` state its properties. |
| Describe.CornerValue | pymeteofr/services.py:379-382 | `float(corner.split(" ")[k])`, or IndexError when the corner has too few fields. |
| Describe.MaxBboxOf | pymeteofr/services.py:379-384 | The four corner reads in source order; the first failing read is the error. `MaxBboxRoundTrip` and `MaxBboxShortCorner` state its properties. |
| Describe.BuildUrlShape | pymeteofr/services.py:342-348 | The DescribeCoverage URL starts with the base URL and the version key, and ends with "&REQUEST=DescribeCoverage&CoverageId=" and the CoverageId. |
| Describe.BuildUrlInjective | pymeteofr/services.py:342-348 | For the same base URL and version, different CoverageIds give different URLs. |
| Describe.MaxBboxRoundTrip | pymeteofr/services.py:379-384 | Corners written "lon lat" give `max_bbox = (lon_min, lat_min, lon_max, lat_max)` from their four fields. |
| Describe.MaxBboxShortCorner | pymeteofr/services.py:379-380 | A lower corner without a space raises IndexError when its latitude is read. |
| MeteoFrance.Fetcher.constructor | pymeteofr/services.py:28-36 | The token is kept only when non-empty. The WCS version is "2.0.1", the projection "EPSG:4326", the base URL empty, and every other attribute unset. |
| MeteoFrance.Fetcher.FetchToken | pymeteofr/services.py:38-73 | Without a credentials file, an empty username or password raises AttributeError and the token is unchanged. Otherwise the received token is stored, and the call passes iff it starts and ends with "__" (AssertionError otherwise). |
| MeteoFrance.Fetcher.BuildBaseUrl | pymeteofr/services.py:204-217 | Lower-cases dataset and area and looks them up with "wcs" via `Checker`. A lookup error leaves the URL unchanged. Without a token the template is stored and a TypeError raised. Otherwise the URL is the template with the token in place of "VOTRE_CLE". |
| MeteoFrance.BaseUrlStep | pymeteofr/services.py:204-217 | The outcome of `_build_base_url` and the `_url_base` it leaves. `BaseUrlOfProduct`, `BaseUrlWithoutToken` and `BaseUrlLookupFails` state its cases. |
| MeteoFrance.TitleCheck | pymeteofr/services.py:104-109 | The membership test of `set_title`: AttributeError without a table, ValueError for a title no row has. |
| MeteoFrance.BboxPrecheck | pymeteofr/services.py:182-189 | The ordering test, then `max_bbox` must be set, then `BboxChecks`. |
| MeteoFrance.Fetcher.GetCapabilities | pymeteofr/services.py:219-247 | The 1-hour table becomes `Capabilities1H` of the summaries. |
| MeteoFrance.Fetcher.SelectProduct | pymeteofr/services.py:75-83 | Builds the base URL. It refreshes the 1-hour table only when that succeeded. |
| MeteoFrance.Fetcher.SetTitle | pymeteofr/services.py:97-109 | A title of the 1-hour table is stored, with `title_with_height` true iff it contains "at specified height level above ground". Any other title raises ValueError with nothing changed. |
| MeteoFrance.Fetcher.AvailableRunTimes | pymeteofr/services.py:111-127 | Lists the current title's run times in ascending order. A missing table or title raises AttributeError. |
| MeteoFrance.Fetcher.AvailableRunTimesListed | pymeteofr/services.py:118-122 | A run time is listed iff some row of the 1-hour table with the current title has it. |
| MeteoFrance.Fetcher.ListAvailableRunTimes | pymeteofr/services.py:111-127 | A non-empty title is set first, and its failure is the result. Then the title's run times are listed. |
| MeteoFrance.Fetcher.CoverageIdFor | pymeteofr/services.py:249-262 | The CoverageId `_get_coverage_id` selects from the current table and title, or AttributeError when either is unset. |
| MeteoFrance.Fetcher.GetCoverageId | pymeteofr/services.py:249-262 | Sets CoverageId to the resolution of "latest" or of an explicit run time. On any error CoverageId is unchanged. |
| MeteoFrance.Fetcher.SelectCoverageId | pymeteofr/services.py:129-140 | Sets the title, then the CoverageId. Then `run_time` becomes the CoverageId's last "___" segment with "." replaced by ":". A failing step leaves the later attributes unchanged. |
| MeteoFrance.Fetcher.SelectRunTime | pymeteofr/services.py:139-140 | After the title: a failed resolution leaves CoverageId and `run_time` unchanged. Otherwise CoverageId is the resolved one, and `run_time` is cut from it. |
| MeteoFrance.Fetcher.Describe | pymeteofr/services.py:149-163 | Without a CoverageId, raises AttributeError. Otherwise it fails with the `Describer` check's error, then with the first failing corner read's error, and otherwise stores `max_bbox` and the hourly axis from begin to end. The "Please set the CoverageId" error comes only from an empty CoverageId in the capabilities: it is hourly, kept, and can be resolved. |
| MeteoFrance.Fetcher.CheckNextHoursAvailability | pymeteofr/services.py:275-281 | Reads the time axis first (AttributeError if unset). Then stores the requested hours and returns whether all are on the axis. |
| MeteoFrance.Fetcher.StepBackTarget | pymeteofr/services.py:170-171 | `run_times[-2]` is the run time before the last listed one. It raises IndexError with fewer than two, and it always resolves to a CoverageId. |
| MeteoFrance.Fetcher.SetCompleteRunTime | pymeteofr/services.py:165-176 | When the horizon is covered, nothing is selected anew. Otherwise `run_time` becomes `run_times[-2]` and CoverageId that run time's row, once. Errors leave both unchanged. |
| MeteoFrance.Fetcher.StepBack | pymeteofr/services.py:170-173 | With fewer than two listed run times (or no table or title), the error is returned and nothing changes. Otherwise `run_time` is `run_times[-2]`, and CoverageId is the CoverageId of that run time's row. |
| MeteoFrance.Fetcher.CheckCoordsInDomain | pymeteofr/services.py:283-290 | Passes iff the point is in `max_bbox`, borders included. AttributeError if `max_bbox` is unset. |
| MeteoFrance.Fetcher.CreateAnIntegerBbox | pymeteofr/services.py:292-308 | Stores the integer box when all four sides are in `max_bbox`. Otherwise raises the first failing side's ValueError with `_bbox_int` unchanged. |
| MeteoFrance.Fetcher.SetBboxOfInterest | pymeteofr/services.py:178-192 | Ordering and corner failures leave `bbox` and `_bbox_int` unchanged. After them `bbox` is the input tuple, even when the integer box then fails. |
| MeteoFrance.TokenShape | pymeteofr/services.py:72-73 | A token passes both asserts iff it has at least two characters and starts and ends with "__". |
| MeteoFrance.BaseUrlOfProduct | pymeteofr/services.py:204-217 | For each product, its dataset and area in any letter case give the product URL with the token in place of "VOTRE_CLE", and nothing else changed. |
| MeteoFrance.BaseUrlWithoutToken | pymeteofr/services.py:212-217 | Without a token, a successful lookup leaves the base URL as the template, still containing "VOTRE_CLE", and raises TypeError. |
| MeteoFrance.BaseUrlLookupFails | pymeteofr/services.py:212-214 | A failed lookup leaves the base URL unchanged, with one of the checker's two errors. |
| MeteoFrance.HeightFlag | pymeteofr/services.py:104-107 | A title has the height flag iff it is some text, then "at specified height level above ground", then some more text. |
| MeteoFrance.DefaultTitleWithHeight | pymeteofr/services.py:97-107 | The default title of `set_title` and `select_coverage_id` has the height flag. |
| MeteoFrance.RunTimeOfCoverageId | pymeteofr/services.py:140 | `CoverageId.split("___")[-1].replace(".", ":")`. `SelectedRunTimeText` states what it yields. |
| MeteoFrance.SelectedRunTimeText | pymeteofr/services.py:140 | For a 1-hour CoverageId `name___<text>Z`, the stored run time is `text` with dots turned into colons, then "Z", and holds no dot. |
| Inspire.CheckCoordsInDomain | pyinspire/services.py:73-81 | Passes iff -8 <= lon <= 12 and 38 <= lat <= 53. Otherwise raises AttributeError. |
| Inspire.Credentials | pyinspire/services.py:20-31 | The credentials the constructor keeps, or its error. `CredentialsChecked` states it. |
| Inspire.CredentialsChecked | pyinspire/services.py:20-31 | Without a credentials path, a `None` username or password raises AttributeError. The credentials kept (arguments or file) are accepted iff both are strings, else TypeError. |
| Inspire.Fetcher.Create | pyinspire/services.py:14-36 | Construction fails exactly as the credential checks do. Otherwise it keeps the credentials and the given token, or the fetched one when the token is `None`. |
| Inspire.PoiCheck | pyinspire/services.py:89-91 | The type test, then the domain test, of `set_poi`. `PoiAccepted` states it. |
| Inspire.PoiAccepted | pyinspire/services.py:83-92 | `set_poi` accepts exactly two floats inside the domain. A non-float (including an int) raises TypeError, and an outside point raises AttributeError. |
| Inspire.Fetcher.SetPoi | pyinspire/services.py:83-92 | `poi` becomes `{lon, lat}` iff the checks pass, and is untouched otherwise. |
| Inspire.BboxoiAsWritten | pyinspire/services.py:100-105 | `set_bboxoi`'s type test as written, with the undefined `lat_max`. `BboxoiAsWrittenNeverSucceeds` states it. |
| Inspire.BboxoiChecked | pyinspire/services.py:94-115 | `set_bboxoi` as intended. `BboxoiCheckedOk` states it. |
| Inspire.BboxoiAsWrittenNeverSucceeds | pyinspire/services.py:100-105 | `set_bboxoi` as written raises on every input: TypeError, or NameError for `lat_max` once the first three arguments are floats. |
| Inspire.OrderTestInverted | pyinspire/services.py:106-107 | The ordering test as written rejects every box with min < max on both axes, e.g. lon 0..1, lat 40..41, which is in the domain. It lets the reversed box through. |
| Inspire.BboxoiCheckedOk | pyinspire/services.py:94-115 | The corrected check accepts exactly four floats with min < max and both corners in the domain. The stored box is those values, and the whole box is in the domain. |
| Inspire.Fetcher.SetBboxoi | pyinspire/services.py:94-115 | `bbox` is set by the corrected check and untouched on any error. |

## Left out

- HTTP requests and the exceptions they swallow are not modelled (GetAPIKey, GetCapabilities, DescribeCoverage). Their results are parameters.
- XML parsing of the responses is not modelled. The parsed summaries, token text, corners and begin/end hours are inputs.
- Reading the credentials file is not modelled. In pyinspire its result is the `fromFile` parameter; `_load_json_credentials` ignores its path argument and always reads the same file.
- `datetime.utcnow()` is replaced by the `now` parameter.
- `strptime`, `isoformat` and `pd.date_range` are not modelled as text. Timestamps are whole hours.
- Coverage.Capabilities1H: `hourOf` is a total function, so the ValueError `strptime` raises on malformed run-time text is not modelled.
- MeteoFrance.Fetcher.Describe: the begin and end positions are taken as whole hours, and their parse failure is not modelled.
- MeteoFrance.Fetcher.AvailableRunTimes returns hours, not the `"YYYY-MM-DDTHH"` strings of `np.datetime_as_string`. An explicit run time is a `RunAt(hour)`, not a string.
- Coverage.Resolve's ValueError message omits the run-time text it quotes in Python.
- Describe.MaxBboxOf: `float()` is a total parameter, so its ValueError on a malformed corner field is not modelled.
- Error messages that interpolate floats ("Point (lon, lat) is outside…", "min coord (…) should be smaller…") keep their fixed words only.
- PyStrings.Lower: lower-cases ASCII letters only, which covers the product table.
- Coverage.NewestRow: on equal run times it takes the first row in table order. pandas' default unstable sort leaves that choice unspecified.
- Coordinates are reals, so NaN and float rounding are not modelled.
- `list_titles`, `update` and the printing are not modelled. `update` only re-runs `_get_capabilities`, which `GetCapabilities` models.
- `Fetcher.__init__` also sets `_CoverageId` to "", which nothing reads. `describe` reads `CoverageId`, which only `_get_coverage_id` assigns.
- `Describer.get_description`'s `axisLabels`, `uomLabels` and `srsDimension` are not modelled because nothing reads them.
- pyinspire's constructor assigns `_username` and `_password` before its TypeError. The model does not show them, because Python discards the object.
- Raster download, interpolation and plotting live in files that are not part of this model.

## Findings

| source | as written | input that shows it | evidently intended | confidence | as-written member | corrected member |
|---|---|---|---|---|---|---|
| pyinspire/services.py:103 | the type test reads `lat_max`, but the parameter is named `mat_max` and no `lat_max` exists | `set_bboxoi(0.0, 1.0, 40.0, 41.0)` raises NameError | type-check the fourth argument | high, not executed | Inspire.BboxoiAsWrittenNeverSucceeds | Inspire.BboxoiCheckedOk |
| pyinspire/services.py:106 | raises when `lon_min < lon_max or lat_min < lat_max` | once line 103 is fixed (before that, its NameError comes first): lon 0.0..1.0, lat 40.0..41.0 is rejected; lon 1.0..0.0, lat 41.0..40.0 passes | raise when `lon_min >= lon_max or lat_min >= lat_max`, as the message says | high, not executed | Inspire.OrderTestInverted | Inspire.BboxoiCheckedOk |
