/** The 1-hour capabilities table of a product and the resolution of a
    (title, run time) pair to a CoverageId (`_get_capabilities`,
    `list_available_run_times` and `_get_coverage_id` in
    pymeteofr/services.py). Run times are whole hours since an epoch. */
module Coverage {
  import opened Outcomes
  import opened PyStrings

  /** One `CoverageSummary` entry of a GetCapabilities response. */
  datatype Summary = Summary(title: string, coverageId: string)

  /** One row of the 1-hour table: `Title`, `CoverageId` and the parsed
      `run_time`. */
  datatype Row = Row(title: string, coverageId: string, runTime: int)

  /** The run time the caller asks for: "latest" or an explicit hour. */
  datatype RunTimeRequest = LatestRun | RunAt(hour: int)

  /** The text after the last "___" of a CoverageId. */
  function RunTimePart(cid: string): string
  {
    LastSegment(cid, "___")
  }

  /** `run_time_suffix`: what follows the last "Z" of the run-time part, stripped. */
  function RunTimeSuffix(cid: string): string
  {
    Strip(LastSegment(RunTimePart(cid), "Z"))
  }

  /** A coverage on the 1-hour frequency has an empty suffix. */
  predicate IsHourly(cid: string)
  {
    RunTimeSuffix(cid) == ""
  }

  /** The run-time text: what precedes the first "Z" of the run-time part, stripped. */
  function RunTimeText(cid: string): string
  {
    Strip(FirstSegment(RunTimePart(cid), "Z"))
  }

  /** The 1-hour table built from the summaries, in response order.
      `hourOf` stands for `strptime(text, "%Y-%m-%dT%H.%M.%S")`. */
  function Capabilities1H(summaries: seq<Summary>, hourOf: string -> int): (rows: seq<Row>)
  {
    Gather(summaries, s => HourlyRow(s, hourOf))
  }

  /** The pieces `f` makes of each element, one after the other. */
  function Gather<T, U>(xs: seq<T>, f: T -> seq<U>): seq<U>
  {
    if xs == [] then [] else f(xs[0]) + Gather(xs[1..], f)
  }

  /** The row a summary contributes to the 1-hour table: one if it is hourly,
      none otherwise. */
  function HourlyRow(s: Summary, hourOf: string -> int): (r: seq<Row>)
    ensures |r| <= 1
  {
    if IsHourly(s.coverageId) then [Row(s.title, s.coverageId, hourOf(RunTimeText(s.coverageId)))] else []
  }

  /** Some row of the table has this title. */
  predicate HasTitle(rows: seq<Row>, title: string)
  {
    exists x :: x in rows && x.title == title
  }

  /** The run times of the rows with this title, in table order. */
  function TitleRunTimes(rows: seq<Row>, title: string): (r: seq<int>)
    ensures forall h :: h in r <==> exists x :: x in rows && x.title == title && x.runTime == h
  {
    if rows == [] then []
    else
      var rest := TitleRunTimes(rows[1..], title);
      assert forall x :: x in rows <==> x == rows[0] || x in rows[1..];
      if rows[0].title == title then [rows[0].runTime] + rest else rest
  }

  predicate SortedAsc(s: seq<int>)
  {
    forall i, j :: 0 <= i < j < |s| ==> s[i] <= s[j]
  }

  function Insert(x: int, s: seq<int>): (r: seq<int>)
    requires SortedAsc(s)
    ensures SortedAsc(r) && multiset(r) == multiset(s) + multiset{x}
    ensures |r| == |s| + 1 && r[0] == (if s == [] || x <= s[0] then x else s[0])
  {
    if s == [] || x <= s[0] then [x] + s
    else
      var rest := Insert(x, s[1..]);
      assert s == [s[0]] + s[1..];
      [s[0]] + rest
  }

  /** `np.sort`: ascending, with repetitions kept. */
  function SortAsc(s: seq<int>): (r: seq<int>)
    ensures SortedAsc(r) && multiset(r) == multiset(s)
  {
    if s == [] then []
    else
      assert s == [s[0]] + s[1..];
      Insert(s[0], SortAsc(s[1..]))
  }

  /** `list_available_run_times` on a table and title. */
  function RunTimesOf(rows: seq<Row>, title: string): seq<int>
  {
    SortAsc(TitleRunTimes(rows, title))
  }

  /** The row `sort_values(by="run_time", ascending=False).iloc[0]` picks among
      the rows with this title; on ties, the first in table order. */
  function NewestRow(rows: seq<Row>, title: string): (r: Option<Row>)
    ensures r.None? <==> !HasTitle(rows, title)
    ensures r.Some? ==> r.value in rows && r.value.title == title
    ensures r.Some? ==> forall x :: x in rows && x.title == title ==> x.runTime <= r.value.runTime
  {
    if rows == [] then None
    else
      var rest := NewestRow(rows[1..], title);
      assert forall x :: x in rows <==> x == rows[0] || x in rows[1..];
      if rows[0].title != title then rest
      else if rest.Some? && rest.value.runTime > rows[0].runTime then rest
      else Some(rows[0])
  }

  /** The first row with this title and run time, as `.values[0]` picks it. */
  function FirstMatch(rows: seq<Row>, title: string, hour: int): (r: Option<Row>)
    ensures r.None? <==> forall x :: x in rows ==> !(x.title == title && x.runTime == hour)
    ensures r.Some? ==> r.value in rows && r.value.title == title && r.value.runTime == hour
  {
    if rows == [] then None
    else if rows[0].title == title && rows[0].runTime == hour then Some(rows[0])
    else
      assert forall x :: x in rows <==> x == rows[0] || x in rows[1..];
      FirstMatch(rows[1..], title, hour)
  }

  /** `_get_coverage_id` once the table and the title are known. */
  function Resolve(rows: seq<Row>, title: string, request: RunTimeRequest): Result<string>
  {
    match request
    case LatestRun =>
      (match NewestRow(rows, title)
       case None => Err(IndexError("single positional indexer is out-of-bounds"))
       case Some(x) => Ok(x.coverageId))
    case RunAt(hour) =>
      if hour !in RunTimesOf(rows, title) then Err(ValueError("run time not found in available run times"))
      else
        (match FirstMatch(rows, title, hour)
         case None => Err(IndexError("index 0 is out of bounds for axis 0 with size 0"))
         case Some(x) => Ok(x.coverageId))
  }

  // ---------------------------------------------------------------------------
  // Lemmas

  /** A CoverageId is kept in the 1-hour table exactly when everything after
      the last "Z" of its run-time part is white space. */
  lemma HourlyIffBlankSuffix(cid: string)
    ensures IsHourly(cid) <==>
      var tail := LastSegment(RunTimePart(cid), "Z");
      forall i :: 0 <= i < |tail| ==> IsSpace(tail[i])
  {
    StripEmpty(LastSegment(RunTimePart(cid), "Z"));
  }

  /** The run-time part of `name + "___" + rest` is `rest`, when `rest` holds
      no "___", neither `name` nor `rest` has an underscore next to the
      separator. */
  lemma RunTimePartOf(name: string, rest: string)
    requires |name| > 0 ==> name[|name| - 1] != '_'
    requires |rest| > 0 ==> rest[0] != '_'
    requires !Contains(rest, "___")
    ensures RunTimePart(name + "___" + rest) == rest
  {
    var s := name + "___" + rest;
    LastSegmentShape(s, "___");
    var last := LastSegment(s, "___");
    assert OccursAt(s, "___", |name|) by { assert s[|name|..|name| + 3] == "___"; }
    var st := |s| - |last|;
    SeparatorPositions(name, rest, st - 3);
    if st - 3 != |name| {
      OccursInSuffix(s, "___", st, |name| - st);
      assert false;
    }
    assert last == s[|name| + 3..] == rest;
  }

  /** A "___" of `name + "___" + rest` is either the one at `|name|` or lies
      wholly inside `name`. */
  lemma SeparatorPositions(name: string, rest: string, p: int)
    requires |name| > 0 ==> name[|name| - 1] != '_'
    requires |rest| > 0 ==> rest[0] != '_'
    requires !Contains(rest, "___")
    requires OccursAt(name + "___" + rest, "___", p)
    ensures p == |name| || p + 3 <= |name|
  {
    if p > |name| {
      NoSeparatorInRest(name, rest, p);
      assert false;
    } else if p < |name| < p + 3 {
      OccursChar(name + "___" + rest, "___", p, |name| - 1);
      assert false;
    }
  }

  /** No "___" of `name + "___" + rest` starts after the one at `|name|`. */
  lemma NoSeparatorInRest(name: string, rest: string, p: int)
    requires |rest| > 0 ==> rest[0] != '_'
    requires !Contains(rest, "___")
    requires p > |name|
    ensures !OccursAt(name + "___" + rest, "___", p)
  {
    var s := name + "___" + rest;
    if OccursAt(s, "___", p) {
      if p >= |name| + 3 {
        assert s[|name| + 3..] == rest;
        OccursInSuffix(s, "___", |name| + 3, p - (|name| + 3));
        assert false;
      } else {
        assert s[|name| + 3] == rest[0];
        OccursChar(s, "___", p, |name| + 3);
        assert false;
      }
    }
  }

  /** A run-time text without underscores, its "Z" and a tail without "___"
      hold no "___" and do not start with an underscore. */
  lemma NoSeparatorAfterName(text: string, tail: string)
    requires '_' !in text && !Contains(tail, "___")
    ensures !Contains(text + "Z" + tail, "___")
    ensures (text + "Z" + tail)[0] != '_'
  {
    var rest := text + "Z" + tail;
    assert rest[0] != '_' by {
      if |text| > 0 { assert rest[0] == text[0]; } else { assert rest[0] == 'Z'; }
    }
    if Contains(rest, "___") {
      var k :| 0 <= k <= |rest| && OccursAt(rest, "___", k);
      if k < |text| {
        assert rest[k] == text[k];
        OccursChar(rest, "___", k, k);
        assert false;
      } else if k == |text| {
        OccursChar(rest, "___", k, k);
        assert false;
      } else {
        assert rest[|text| + 1..] == tail;
        OccursInSuffix(rest, "___", |text| + 1, k - |text| - 1);
        assert false;
      }
    }
  }

  /** Round trip: a CoverageId `name + "___" + text + "Z" + tail` yields back
      its run-time text, and is kept exactly when `tail` is white space; a
      period suffix such as `_PT3H` is a tail that is not. */
  lemma CoverageIdRoundTrip(name: string, text: string, tail: string)
    requires |name| > 0 ==> name[|name| - 1] != '_'
    requires '_' !in text && 'Z' !in text
    requires !Contains(tail, "___") && 'Z' !in tail
    requires |text| > 0 ==> !IsSpace(text[0]) && !IsSpace(text[|text| - 1])
    ensures RunTimeText(name + "___" + text + "Z" + tail) == text
    ensures IsHourly(name + "___" + text + "Z" + tail) <==> forall i :: 0 <= i < |tail| ==> IsSpace(tail[i])
  {
    var rest := text + "Z" + tail;
    assert name + "___" + text + "Z" + tail == name + "___" + rest;
    NoSeparatorAfterName(text, tail);
    RunTimePartOf(name, rest);
    SplitOnce(text, "Z", tail);
    assert FirstSegment(rest, "Z") == text;
    assert LastSegment(rest, "Z") == tail;
    StripTrimmed(text);
    StripEmpty(tail);
  }

  /** The 1-hour table holds exactly the hourly summaries, each with its
      parsed run time. */
  lemma Capabilities1HRows(summaries: seq<Summary>, hourOf: string -> int)
    ensures |Capabilities1H(summaries, hourOf)| <= |summaries|
    ensures forall x :: x in Capabilities1H(summaries, hourOf) ==>
      IsHourly(x.coverageId) && x.runTime == hourOf(RunTimeText(x.coverageId))
    ensures forall s :: s in summaries && IsHourly(s.coverageId) ==>
      Row(s.title, s.coverageId, hourOf(RunTimeText(s.coverageId))) in Capabilities1H(summaries, hourOf)
    ensures forall x :: x in Capabilities1H(summaries, hourOf) ==> Summary(x.title, x.coverageId) in summaries
  {
    var f := s => HourlyRow(s, hourOf);
    GatherShort(summaries, f);
    forall x | x in Capabilities1H(summaries, hourOf)
      ensures IsHourly(x.coverageId) && x.runTime == hourOf(RunTimeText(x.coverageId))
      ensures Summary(x.title, x.coverageId) in summaries
    {
      GatherMember(summaries, f, x);
      var i :| 0 <= i < |summaries| && x in HourlyRow(summaries[i], hourOf);
      HourlyRowMember(summaries[i], hourOf, x);
    }
    forall s | s in summaries && IsHourly(s.coverageId)
      ensures Row(s.title, s.coverageId, hourOf(RunTimeText(s.coverageId))) in Capabilities1H(summaries, hourOf)
    {
      var x := Row(s.title, s.coverageId, hourOf(RunTimeText(s.coverageId)));
      var i :| 0 <= i < |summaries| && summaries[i] == s;
      HourlyRowMember(s, hourOf, x);
      GatherMember(summaries, f, x);
    }
  }

  /** The row of a summary, when it has one, is its hourly row. */
  lemma HourlyRowMember(s: Summary, hourOf: string -> int, x: Row)
    ensures x in HourlyRow(s, hourOf) <==>
      IsHourly(s.coverageId) && x == Row(s.title, s.coverageId, hourOf(RunTimeText(s.coverageId)))
  {
  }

  /** The 1-hour table keeps the response order: the table of two
      consecutive runs of summaries is the two tables one after the other. */
  lemma Capabilities1HAppend(a: seq<Summary>, b: seq<Summary>, hourOf: string -> int)
    ensures Capabilities1H(a + b, hourOf) == Capabilities1H(a, hourOf) + Capabilities1H(b, hourOf)
  {
    GatherAppend(a, b, s => HourlyRow(s, hourOf));
  }

  lemma {:induction false} GatherAppend<T, U>(a: seq<T>, b: seq<T>, f: T -> seq<U>)
    ensures Gather(a + b, f) == Gather(a, f) + Gather(b, f)
  {
    if a == [] {
      assert a + b == b;
    } else {
      assert (a + b)[0] == a[0] && (a + b)[1..] == a[1..] + b;
      GatherAppend(a[1..], b, f);
    }
  }

  /** A piece of the gathered sequence comes from some element. */
  lemma {:induction false} GatherMember<T, U>(xs: seq<T>, f: T -> seq<U>, y: U)
    ensures y in Gather(xs, f) <==> exists i :: 0 <= i < |xs| && y in f(xs[i])
  {
    if xs != [] {
      GatherMember(xs[1..], f, y);
      if y in Gather(xs[1..], f) {
        var i :| 0 <= i < |xs| - 1 && y in f(xs[1..][i]);
        assert xs[1..][i] == xs[i + 1];
      }
      if exists i :: 0 <= i < |xs| && y in f(xs[i]) {
        var i :| 0 <= i < |xs| && y in f(xs[i]);
        if i > 0 { assert xs[i] == xs[1..][i - 1]; }
      }
    }
  }

  /** Pieces of at most one element gather to at most one per element. */
  lemma {:induction false} GatherShort<T, U>(xs: seq<T>, f: T -> seq<U>)
    requires forall x :: |f(x)| <= 1
    ensures |Gather(xs, f)| <= |xs|
  {
    if xs != [] { GatherShort(xs[1..], f); }
  }

  /** The title's run times come one per row, in table order: those of two
      consecutive parts of the table are the two lists one after the other. */
  lemma {:induction false} TitleRunTimesAppend(a: seq<Row>, b: seq<Row>, title: string)
    ensures TitleRunTimes(a + b, title) == TitleRunTimes(a, title) + TitleRunTimes(b, title)
  {
    if a != [] {
      assert (a + b)[1..] == a[1..] + b;
      TitleRunTimesAppend(a[1..], b, title);
    } else {
      assert a + b == b;
    }
  }

  /** Repetitions are kept: two rows of the title with the same run time list
      that run time twice, so `run_times[-2]` is then the latest one again. */
  lemma DuplicateRunTimeListedTwice(title: string, cid1: string, cid2: string, hour: int)
    ensures RunTimesOf([Row(title, cid1, hour), Row(title, cid2, hour)], title) == [hour, hour]
  {
    var rows := [Row(title, cid1, hour), Row(title, cid2, hour)];
    assert TitleRunTimes(rows[1..][1..], title) == [];
    assert TitleRunTimes(rows[1..], title) == [hour];
    assert TitleRunTimes(rows, title) == [hour, hour];
    assert SortAsc([hour, hour]) == Insert(hour, SortAsc([hour]));
  }

  /** `FirstMatch` picks the earliest matching row in table order: no row
      before it has the title and the run time. */
  lemma {:induction false} FirstMatchIsFirst(rows: seq<Row>, title: string, hour: int)
    ensures FirstMatch(rows, title, hour).Some? ==>
      exists k :: 0 <= k < |rows| && rows[k] == FirstMatch(rows, title, hour).value && NoMatchBefore(rows, title, hour, k)
  {
    if rows != [] && !(rows[0].title == title && rows[0].runTime == hour) {
      var r := FirstMatch(rows[1..], title, hour);
      FirstMatchIsFirst(rows[1..], title, hour);
      if r.Some? {
        var k :| 0 <= k < |rows| - 1 && rows[1..][k] == r.value && NoMatchBefore(rows[1..], title, hour, k);
        assert rows[k + 1] == r.value;
        assert NoMatchBefore(rows, title, hour, k + 1) by {
          forall j | 0 <= j < k + 1
            ensures !(rows[j].title == title && rows[j].runTime == hour)
          {
            if j > 0 { assert rows[j] == rows[1..][j - 1]; }
          }
        }
      }
    }
  }

  /** No row before index `k` has this title and run time. */
  predicate NoMatchBefore(rows: seq<Row>, title: string, hour: int, k: int)
    requires k <= |rows|
  {
    forall j :: 0 <= j < k ==> !(rows[j].title == title && rows[j].runTime == hour)
  }

  /** The listed run times are exactly the run times of the title's rows. */
  lemma ListedRunTimes(rows: seq<Row>, title: string, hour: int)
    ensures hour in RunTimesOf(rows, title) <==>
      exists x :: x in rows && x.title == title && x.runTime == hour
  {
    var raw := TitleRunTimes(rows, title);
    assert hour in RunTimesOf(rows, title) <==> hour in multiset(RunTimesOf(rows, title));
    assert hour in raw <==> hour in multiset(raw);
  }

  /** "latest" resolves to a row of the title whose run time is the last of
      the listed run times, that is, the maximum. */
  lemma LatestIsLastListed(rows: seq<Row>, title: string)
    requires HasTitle(rows, title)
    ensures var listed := RunTimesOf(rows, title);
      && |listed| > 0
      && exists x :: x in rows && x.title == title && x.runTime == listed[|listed| - 1]
                     && Resolve(rows, title, LatestRun) == Ok(x.coverageId)
  {
    var listed := RunTimesOf(rows, title);
    var newest := NewestRow(rows, title).value;
    ListedRunTimes(rows, title, newest.runTime);
    assert newest.runTime in listed;
    var top := listed[|listed| - 1];
    ListedRunTimes(rows, title, top);
    assert top in listed;
    assert top <= newest.runTime;
    var k :| 0 <= k < |listed| && listed[k] == newest.runTime;
    assert newest.runTime <= top;
  }

  /** An explicit run time resolves exactly when a row of the title has it,
      and then to the CoverageId of the first such row. */
  lemma ResolveExplicit(rows: seq<Row>, title: string, hour: int)
    ensures Resolve(rows, title, RunAt(hour)).Ok? <==>
      exists x :: x in rows && x.title == title && x.runTime == hour
    ensures Resolve(rows, title, RunAt(hour)).Ok? ==>
      var x := FirstMatch(rows, title, hour).value;
      x in rows && x.title == title && x.runTime == hour && Resolve(rows, title, RunAt(hour)).value == x.coverageId
    ensures Resolve(rows, title, RunAt(hour)).Err? ==>
      Resolve(rows, title, RunAt(hour)).error == ValueError("run time not found in available run times")
  {
    ListedRunTimes(rows, title, hour);
  }

  /** The run time `set_complete_run_time` steps back to, `run_times[-2]`, is
      listed, resolves, and is not later than the latest one. */
  lemma StepBackRunTime(rows: seq<Row>, title: string)
    requires |RunTimesOf(rows, title)| >= 2
    ensures var listed := RunTimesOf(rows, title);
      var back := listed[|listed| - 2];
      && back <= listed[|listed| - 1]
      && (exists x :: x in rows && x.title == title && x.runTime == back)
      && Resolve(rows, title, RunAt(back)).Ok?
  {
    var listed := RunTimesOf(rows, title);
    var back := listed[|listed| - 2];
    assert back in listed;
    ListedRunTimes(rows, title, back);
    ResolveExplicit(rows, title, back);
  }
}
