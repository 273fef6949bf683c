/** The static table of Météo-France WCS endpoints and the lookup that
    narrows it by dataset, area, accuracy and service type
    (`ServiceOptionsChecker` in pymeteofr/services.py). */
module ServiceOptions {
  import opened Outcomes
  import opened PyStrings

  datatype ServiceOption = ServiceOption(
    dataset: string,
    area: string,
    accuracy: real,
    urlBase: string,
    serviceType: string)

  /** The text in every URL template that stands for the API token. */
  const Placeholder: string := "VOTRE_CLE"
  const ApiRoot: string := "https://geoservices.meteofrance.fr/api/"

  /** The product part of each endpoint URL, after the token. */
  const ArpegeGlobePath: string := "/MF-NWP-GLOBAL-ARPEGE-05-GLOBE-WCS?"
  const ArpegeEuropePath: string := "/MF-NWP-GLOBAL-ARPEGE-01-EUROPE-WCS?"
  const Arome0025Path: string := "/MF-NWP-HIGHRES-AROME-0025-FRANCE-WCS?"
  const Arome001Path: string := "/MF-NWP-HIGHRES-AROME-001-FRANCE-WCS?"

  /** The four known services, in table order. */
  const Options: seq<ServiceOption> := [
    ServiceOption("arpege", "world", 0.5, ApiRoot + Placeholder + ArpegeGlobePath, "wcs"),
    ServiceOption("arpege", "europe", 0.1, ApiRoot + Placeholder + ArpegeEuropePath, "wcs"),
    ServiceOption("arome", "france", 0.025, ApiRoot + Placeholder + Arome0025Path, "wcs"),
    ServiceOption("arome", "france", 0.01, ApiRoot + Placeholder + Arome001Path, "wcs")
  ]

  const NoMatch: Error := ValueError("No service matching the criteria")
  const SeveralMatches: Error := ValueError("Several services match the criteria")

  /** The arguments of the checker; an empty string or a non-positive
      accuracy means "any". */
  datatype Criteria = Criteria(dataset: string, area: string, accuracy: real, serviceType: string)

  predicate Accepts(c: Criteria, o: ServiceOption)
  {
    && (|c.serviceType| > 0 ==> o.serviceType == c.serviceType)
    && (|c.dataset| > 0 ==> o.dataset == c.dataset)
    && (|c.area| > 0 ==> o.area == c.area)
    && (c.accuracy > 0.0 ==> o.accuracy == c.accuracy)
  }

  predicate Distinct(rows: seq<ServiceOption>)
  {
    forall i, j :: 0 <= i < j < |rows| ==> rows[i] != rows[j]
  }

  /** A boolean-indexed DataFrame selection: the rows `keep` accepts, in order. */
  function Where(rows: seq<ServiceOption>, keep: ServiceOption -> bool): (r: seq<ServiceOption>)
    ensures |r| <= |rows|
  {
    if rows == [] then []
    else if keep(rows[0]) then [rows[0]] + Where(rows[1..], keep)
    else Where(rows[1..], keep)
  }

  /** The options that survive all four criteria. */
  function Narrow(c: Criteria): seq<ServiceOption>
  {
    Where(Options, o => Accepts(c, o))
  }

  /** `get_url_base` on a selection: the single remaining row's template. */
  function UrlBaseOf(choice: seq<ServiceOption>): Result<string>
  {
    if |choice| == 0 then Err(NoMatch)
    else if |choice| > 1 then Err(SeveralMatches)
    else Ok(choice[0].urlBase)
  }

  /** The whole lookup: build the checker with `c`, then ask for the URL. */
  function Lookup(c: Criteria): Result<string>
  {
    UrlBaseOf(Narrow(c))
  }

  /** `ServiceOptionsChecker`: the constructor narrows `choice` step by step. */
  class Checker {
    var choice: seq<ServiceOption>

    constructor (dataset: string := "", area: string := "", accuracy: real := 0.0, serviceType: string := "wcs")
      ensures choice == Narrow(Criteria(dataset, area, accuracy, serviceType))
    {
      // `applied` holds the criteria used so far; an empty one accepts all.
      ghost var applied := Criteria("", "", 0.0, "");
      NarrowSame(applied, o => true);
      WhereAll(Options, o => true);
      choice := Options;
      new;
      if |serviceType| > 0 {
        var test := (o: ServiceOption) => o.serviceType == serviceType;
        NarrowThen(applied, test, applied.(serviceType := serviceType));
        choice, applied := Where(choice, test), applied.(serviceType := serviceType);
      }
      if |dataset| > 0 {
        var test := (o: ServiceOption) => o.dataset == dataset;
        NarrowThen(applied, test, applied.(dataset := dataset));
        choice, applied := Where(choice, test), applied.(dataset := dataset);
      }
      if |area| > 0 {
        var test := (o: ServiceOption) => o.area == area;
        NarrowThen(applied, test, applied.(area := area));
        choice, applied := Where(choice, test), applied.(area := area);
      }
      if accuracy > 0.0 {
        var test := (o: ServiceOption) => o.accuracy == accuracy;
        NarrowThen(applied, test, applied.(accuracy := accuracy));
        choice, applied := Where(choice, test), applied.(accuracy := accuracy);
      }
      NarrowSame(Criteria(dataset, area, accuracy, serviceType), o => Accepts(applied, o));
    }

    /** `get_url_base`: fails on zero and on several remaining rows. */
    method GetUrlBase() returns (r: Result<string>)
      ensures r == UrlBaseOf(choice)
      ensures r.Ok? ==> |choice| == 1 && r.value == choice[0].urlBase
    {
      if |choice| == 0 {
        return Err(NoMatch);
      } else if |choice| > 1 {
        return Err(SeveralMatches);
      }
      return Ok(choice[0].urlBase);
    }
  }

  // ---------------------------------------------------------------------------
  // Lemmas

  lemma {:induction false} WhereAll(rows: seq<ServiceOption>, keep: ServiceOption -> bool)
    requires forall o :: keep(o)
    ensures Where(rows, keep) == rows
    decreases |rows|
  {
    if rows != [] {
      WhereAll(rows[1..], keep);
      assert [rows[0]] + rows[1..] == rows;
    }
  }

  /** Two successive selections are one selection by both tests. */
  lemma {:induction false} WhereWhere(rows: seq<ServiceOption>, p: ServiceOption -> bool,
                                      q: ServiceOption -> bool, both: ServiceOption -> bool)
    requires forall o :: both(o) == (p(o) && q(o))
    ensures Where(Where(rows, p), q) == Where(rows, both)
    decreases |rows|
  {
    if rows != [] {
      WhereWhere(rows[1..], p, q, both);
      var rest := Where(rows[1..], p);
      if p(rows[0]) {
        assert Where(rows, p) == [rows[0]] + rest;
        assert ([rows[0]] + rest)[1..] == rest;
      }
    }
  }

  /** Selections by tests that agree everywhere are equal. */
  lemma {:induction false} WhereSame(rows: seq<ServiceOption>, p: ServiceOption -> bool, q: ServiceOption -> bool)
    requires forall o :: p(o) == q(o)
    ensures Where(rows, p) == Where(rows, q)
    decreases |rows|
  {
    if rows != [] {
      WhereSame(rows[1..], p, q);
    }
  }

  /** The selection holds exactly the accepted rows, without repeating any. */
  lemma {:induction false} WhereMembers(rows: seq<ServiceOption>, keep: ServiceOption -> bool)
    ensures forall o :: o in Where(rows, keep) <==> o in rows && keep(o)
    ensures Distinct(rows) ==> Distinct(Where(rows, keep))
    decreases |rows|
  {
    if rows != [] {
      var rest := Where(rows[1..], keep);
      WhereMembers(rows[1..], keep);
      assert forall o :: o in rows <==> o == rows[0] || o in rows[1..];
      assert Distinct(rows) ==> rows[0] !in rows[1..] by {
        if Distinct(rows) {
          forall k | 0 <= k < |rows| - 1 ensures rows[1..][k] != rows[0] {
            assert rows[1..][k] == rows[k + 1];
          }
        }
      }
      if Distinct(rows) {
        assert Distinct(rows[1..]) by {
          forall a, b | 0 <= a < b < |rows| - 1 ensures rows[1..][a] != rows[1..][b] {
            assert rows[1..][a] == rows[a + 1] && rows[1..][b] == rows[b + 1];
          }
        }
      }
    }
  }

  /** `Narrow` by criteria that accept the same options as a test. */
  lemma NarrowSame(c: Criteria, keep: ServiceOption -> bool)
    requires forall o :: Accepts(c, o) == keep(o)
    ensures Narrow(c) == Where(Options, keep)
  {
    WhereSame(Options, o => Accepts(c, o), keep);
  }

  /** One more selection step narrows by the criteria extended with it. */
  lemma NarrowThen(before: Criteria, test: ServiceOption -> bool, after: Criteria)
    requires forall o :: Accepts(after, o) == (Accepts(before, o) && test(o))
    ensures Where(Narrow(before), test) == Narrow(after)
  {
    WhereWhere(Options, o => Accepts(before, o), test, o => Accepts(after, o));
  }

  lemma OptionsDistinct()
    ensures Distinct(Options)
  {
  }

  /** The lookup succeeds exactly when one option meets every given
      criterion, fails with "No service matching the criteria" exactly when
      none does, and with "Several services match the criteria" exactly when
      two different options do. */
  lemma LookupCharacterized(c: Criteria)
    ensures Lookup(c) == Err(NoMatch) <==> forall o :: o in Options ==> !Accepts(c, o)
    ensures Lookup(c) == Err(SeveralMatches) <==>
      exists o1, o2 :: o1 in Options && o2 in Options && o1 != o2 && Accepts(c, o1) && Accepts(c, o2)
    ensures Lookup(c).Ok? <==>
      exists o :: o in Options && Accepts(c, o) && forall o' :: o' in Options && Accepts(c, o') ==> o' == o
    ensures Lookup(c).Ok? ==> exists o :: o in Options && Accepts(c, o) && Lookup(c).value == o.urlBase
  {
    OptionsDistinct();
    var n := Narrow(c);
    WhereMembers(Options, o => Accepts(c, o));
    assert Distinct(n);
    assert forall o :: o in n <==> o in Options && Accepts(c, o);
    if |n| >= 2 {
      assert n[0] in n && n[1] in n && n[0] != n[1];
    } else if |n| == 1 {
      assert n[0] in n;
      assert forall o :: o in n ==> o == n[0];
    }
  }

  /** Each row of the table is found by its own dataset, area and accuracy:
      the table has no two rows with the same key. */
  lemma LookupEachRow(i: nat)
    requires i < |Options|
    ensures Lookup(Criteria(Options[i].dataset, Options[i].area, Options[i].accuracy, "wcs"))
            == Ok(Options[i].urlBase)
  {
    var c := Criteria(Options[i].dataset, Options[i].area, Options[i].accuracy, "wcs");
    forall o | o in Options && Accepts(c, o) ensures o == Options[i] {
      var k :| 0 <= k < |Options| && Options[k] == o;
      if k != i {
        KeyDistinct(i, k);
      }
    }
    assert Options[i] in Options && Accepts(c, Options[i]);
    LookupCharacterized(c);
  }

  /** No two rows share dataset, area and accuracy. */
  lemma KeyDistinct(i: nat, k: nat)
    requires i < |Options| && k < |Options| && i != k
    ensures || Options[i].dataset != Options[k].dataset
            || Options[i].area != Options[k].area
            || Options[i].accuracy != Options[k].accuracy
  {
  }

  /** AROME over France without a positive accuracy is ambiguous: both
      AROME resolutions remain. */
  lemma LookupAromeFranceAnyAccuracy(accuracy: real)
    requires accuracy <= 0.0
    ensures Lookup(Criteria("arome", "france", accuracy, "wcs")) == Err(SeveralMatches)
  {
    var c := Criteria("arome", "france", accuracy, "wcs");
    assert Options[2] in Options && Options[3] in Options;
    assert Accepts(c, Options[2]) && Accepts(c, Options[3]) && Options[2] != Options[3];
    LookupCharacterized(c);
  }

  /** Substituting the token in a template built from a product path that
      has no 'V' changes the placeholder and nothing else. */
  lemma SubstituteToken(path: string, token: string)
    requires 'V' !in path
    ensures ReplaceAll(ApiRoot + Placeholder + path, Placeholder, token) == ApiRoot + token + path
  {
    assert 'V' !in ApiRoot;
    ReplaceOnce(ApiRoot, Placeholder, path, token);
  }

  /** No product path holds the first letter of the placeholder. */
  lemma PathsWithoutV()
    ensures 'V' !in ArpegeGlobePath && 'V' !in ArpegeEuropePath
    ensures 'V' !in Arome0025Path && 'V' !in Arome001Path
  {
  }

  /** Every template holds the placeholder once, right after the API root,
      so substituting a token changes nothing else. */
  lemma TokenSubstitution(i: nat, token: string)
    requires i < |Options|
    ensures |ApiRoot + Placeholder| <= |Options[i].urlBase|
    ensures ReplaceAll(Options[i].urlBase, Placeholder, token)
            == ApiRoot + token + Options[i].urlBase[|ApiRoot + Placeholder|..]
  {
    var path :=
      if i == 0 then ArpegeGlobePath
      else if i == 1 then ArpegeEuropePath
      else if i == 2 then Arome0025Path
      else Arome001Path;
    assert Options[i].urlBase == ApiRoot + Placeholder + path;
    PathsWithoutV();
    SubstituteToken(path, token);
    assert (ApiRoot + Placeholder + path)[|ApiRoot + Placeholder|..] == path;
  }
}
