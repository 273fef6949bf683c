/** The forecast-horizon check of pymeteofr/services.py: the next `n` whole
    hours after "now" (`_create_next_hours_dts_iso`), the hourly time axis of
    a coverage (`describe`), and whether the first is covered by the second
    (`_check_next_hours_availability`). A timestamp is a whole number of
    hours since the epoch; "now" is a number of seconds since the epoch. */
module Horizon {

  const SecondsPerHour: int := 3600

  /** The hour "now" falls in: `datetime(now.year, now.month, now.day, now.hour)`. */
  function HourOf(now: int): (h: int)
    ensures h * SecondsPerHour <= now < (h + 1) * SecondsPerHour
  {
    now / SecondsPerHour
  }

  /** The hours `HourOf(now) + 1 .. HourOf(now) + n`, in order; empty when
      `n <= 0`, as `range(n)` is. */
  function RequestedHours(now: int, n: int): seq<int>
  {
    seq(if n > 0 then n else 0, i => HourOf(now) + i + 1)
  }

  /** `pd.date_range(start=begin, end=end, freq="H")`: every hour from `begin`
      to `end`, both included. */
  function HourRange(begin: int, end: int): seq<int>
  {
    seq(if end >= begin then end - begin + 1 else 0, i => begin + i)
  }

  /** `len(set(requested).difference(set(available))) == 0`. */
  predicate Available(requested: seq<int>, available: seq<int>)
  {
    (set t | t in requested) - (set t | t in available) == {}
  }

  /** `_create_next_hours_dts_iso(n)`: the list built by the `for` loop. */
  method NextHours(now: int, n: int := 24) returns (hours: seq<int>)
    ensures hours == RequestedHours(now, n)
    ensures |hours| == if n > 0 then n else 0
    ensures forall i :: 0 <= i < |hours| ==> hours[i] == HourOf(now) + i + 1
  {
    var start := HourOf(now);
    hours := [];
    var i := 0;
    while i < n
      invariant 0 <= i <= (if n > 0 then n else 0)
      invariant |hours| == i
      invariant forall k :: 0 <= k < i ==> hours[k] == start + k + 1
    {
      hours := hours + [start + i + 1];
      i := i + 1;
    }
    assert hours == RequestedHours(now, n);
  }

  // ---------------------------------------------------------------------------
  // Lemmas

  /** The requested hours are `n` distinct hours, each one after the
      previous, all strictly after `now` and none more than `n` hours after it. */
  lemma RequestedHoursShape(now: int, n: int)
    ensures var r := RequestedHours(now, n);
      && |r| == (if n > 0 then n else 0)
      && (forall i, j :: 0 <= i < j < |r| ==> r[i] < r[j])
      && (forall i :: 0 <= i && i + 1 < |r| ==> r[i + 1] == r[i] + 1)
      && (forall i :: 0 <= i < |r| ==> now < r[i] * SecondsPerHour <= now + n * SecondsPerHour)
  {
    var r := RequestedHours(now, n);
    var h := HourOf(now);
    forall i | 0 <= i < |r|
      ensures now < r[i] * SecondsPerHour <= now + n * SecondsPerHour
    {
      assert r[i] == h + i + 1;
      assert r[i] * SecondsPerHour == (h + 1) * SecondsPerHour + i * SecondsPerHour;
      assert i + 1 <= n;
      assert (i + 1) * SecondsPerHour <= n * SecondsPerHour;
    }
  }

  /** Membership in the hourly range is the closed interval. */
  lemma InHourRange(begin: int, end: int, t: int)
    ensures t in HourRange(begin, end) <==> begin <= t <= end
  {
    if begin <= t <= end {
      assert HourRange(begin, end)[t - begin] == t;
    }
  }

  /** The availability test holds exactly when every requested hour is in the
      hourly range of the coverage. */
  lemma AvailableIffAllCovered(requested: seq<int>, begin: int, end: int)
    ensures Available(requested, HourRange(begin, end)) <==>
      forall i :: 0 <= i < |requested| ==> begin <= requested[i] <= end
  {
    var avail := HourRange(begin, end);
    var missing := (set t | t in requested) - (set t | t in avail);
    if forall i :: 0 <= i < |requested| ==> begin <= requested[i] <= end {
      forall t | t in requested ensures t in avail {
        InHourRange(begin, end, t);
      }
      assert missing == {};
    } else {
      var i :| 0 <= i < |requested| && !(begin <= requested[i] <= end);
      InHourRange(begin, end, requested[i]);
      assert requested[i] in missing;
    }
  }

  /** The next `n` hours are covered by a coverage running from `begin` to
      `end` exactly when `n <= 0`, or the first requested hour is not before
      `begin` and the last is not after `end`. */
  lemma HorizonCovered(now: int, n: int, begin: int, end: int)
    ensures Available(RequestedHours(now, n), HourRange(begin, end)) <==>
      n <= 0 || (begin <= HourOf(now) + 1 && HourOf(now) + n <= end)
  {
    var r := RequestedHours(now, n);
    AvailableIffAllCovered(r, begin, end);
    if n > 0 && Available(r, HourRange(begin, end)) {
      assert begin <= r[0] && r[n - 1] <= end;
    }
  }
}
