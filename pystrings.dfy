/** The handful of Python `str` operations the services rely on: `in`,
    `split`, `replace`, `strip`, `lower` and slicing. A Python `str` is a
    `seq<char>`. */
module PyStrings {
  import opened Outcomes

  /** `sep` occurs in `s` starting at index `i`. */
  predicate OccursAt(s: string, sep: string, i: int)
  {
    0 <= i && i + |sep| <= |s| && s[i..i + |sep|] == sep
  }

  /** Python's `sep in s`. */
  predicate Contains(s: string, sep: string)
  {
    exists i | 0 <= i <= |s| :: OccursAt(s, sep, i)
  }

  /** The first occurrence of `sep` in `s` at or after index `k`. */
  function FindFrom(s: string, sep: string, k: nat): (r: Option<nat>)
    requires k <= |s|
    ensures r.Some? ==> k <= r.value && OccursAt(s, sep, r.value)
    ensures forall j :: k <= j && (r.None? || j < r.value) ==> !OccursAt(s, sep, j)
    decreases |s| - k
  {
    if k + |sep| > |s| then None
    else if s[k..k + |sep|] == sep then Some(k)
    else FindFrom(s, sep, k + 1)
  }

  /** Python's `s.find(sep)`, with `None` for -1. */
  function Find(s: string, sep: string): (r: Option<nat>)
    ensures r.Some? ==> OccursAt(s, sep, r.value)
    ensures r.Some? ==> forall j :: 0 <= j < r.value ==> !OccursAt(s, sep, j)
    ensures r.None? <==> !Contains(s, sep)
  {
    FindFrom(s, sep, 0)
  }

  /** Python's `s.split(sep)` for a non-empty separator: the text between the
      occurrences found scanning left to right without overlap. */
  function Split(s: string, sep: string): (parts: seq<string>)
    requires |sep| > 0
    ensures |parts| >= 1
    decreases |s|
  {
    match Find(s, sep)
    case None => [s]
    case Some(i) => [s[..i]] + Split(s[i + |sep|..], sep)
  }

  /** Python's `sep.join(parts)`. */
  function Join(parts: seq<string>, sep: string): string
  {
    if |parts| == 0 then ""
    else if |parts| == 1 then parts[0]
    else parts[0] + sep + Join(parts[1..], sep)
  }

  /** Python's `s.split(sep)[0]`. */
  function FirstSegment(s: string, sep: string): string
    requires |sep| > 0
  {
    Split(s, sep)[0]
  }

  /** Python's `s.split(sep)[-1]`. */
  function LastSegment(s: string, sep: string): string
    requires |sep| > 0
  {
    var parts := Split(s, sep);
    parts[|parts| - 1]
  }

  /** Python's `s.replace(target, replacement)` for a non-empty `target`: every occurrence
      found by `split` is replaced. */
  function ReplaceAll(s: string, target: string, replacement: string): string
    requires |target| > 0
  {
    Join(Split(s, target), replacement)
  }

  /** Python's `s.replace(from, to)` for single characters. */
  function ReplaceChar(s: string, from: char, to: char): (r: string)
    ensures |r| == |s|
    ensures forall i :: 0 <= i < |s| && s[i] != from ==> r[i] == s[i]
    ensures from != to ==> from !in r
  {
    seq(|s|, i requires 0 <= i < |s| => if s[i] == from then to else s[i])
  }

  /** Python's `str.isspace` on one character. */
  predicate IsSpace(c: char)
  {
    || c == ' ' || ('\t' <= c <= '\r') || ('\U{1C}' <= c <= '\U{1F}')
    || c == '\U{85}' || c == '\U{A0}' || c == '\U{1680}'
    || ('\U{2000}' <= c <= '\U{200A}') || c == '\U{2028}' || c == '\U{2029}'
    || c == '\U{202F}' || c == '\U{205F}' || c == '\U{3000}'
  }

  function StripLeft(s: string): (r: string)
    ensures |r| <= |s| && r == s[|s| - |r|..]
    ensures r == [] || !IsSpace(r[0])
  {
    if |s| > 0 && IsSpace(s[0]) then StripLeft(s[1..]) else s
  }

  function StripRight(s: string): (r: string)
    ensures |r| <= |s| && r == s[..|r|]
    ensures r == [] || !IsSpace(r[|r| - 1])
    ensures |s| > 0 && !IsSpace(s[0]) ==> |r| > 0
  {
    if |s| > 0 && IsSpace(s[|s| - 1]) then StripRight(s[..|s| - 1]) else s
  }

  /** Python's `s.strip()`. */
  function Strip(s: string): string
  {
    StripRight(StripLeft(s))
  }

  /** Python's `s.lower()` on ASCII letters; other characters are kept. */
  function Lower(s: string): (r: string)
    ensures |r| == |s|
    ensures forall i :: 0 <= i < |s| ==> !('A' <= r[i] <= 'Z')
    ensures forall i :: 0 <= i < |s| && !('A' <= s[i] <= 'Z') ==> r[i] == s[i]
  {
    seq(|s|, i requires 0 <= i < |s| =>
      if 'A' <= s[i] <= 'Z' then (s[i] as int - 'A' as int + 'a' as int) as char else s[i])
  }

  /** Python's `s[:n]`, for `n >= 0`. */
  function Head(s: string, n: nat): string
  {
    if n <= |s| then s[..n] else s
  }

  /** Python's `s[-n:]`, for `n > 0`. */
  function Tail(s: string, n: nat): string
  {
    if n <= |s| then s[|s| - n..] else s
  }

  // ---------------------------------------------------------------------------
  // Lemmas

  lemma OccursInSlice(s: string, sep: string, k: nat, j: int)
    requires k <= |s|
    requires OccursAt(s[k..], sep, j)
    ensures OccursAt(s, sep, k + j)
  {
    assert s[k..][j..j + |sep|] == s[k + j..k + j + |sep|];
  }

  lemma OccursInSuffix(s: string, sep: string, k: nat, j: int)
    requires k <= |s| && 0 <= j
    requires OccursAt(s, sep, k + j)
    ensures OccursAt(s[k..], sep, j)
  {
    assert s[k..][j..j + |sep|] == s[k + j..k + j + |sep|];
  }

  lemma OccursInPrefix(s: string, sep: string, k: nat, j: int)
    requires k <= |s|
    requires OccursAt(s[..k], sep, j)
    ensures OccursAt(s, sep, j) && j + |sep| <= k
  {
    assert s[..k][j..j + |sep|] == s[j..j + |sep|];
  }

  /** Splitting and joining with the same separator gives the text back. */
  lemma {:induction false} SplitJoin(s: string, sep: string)
    requires |sep| > 0
    ensures Join(Split(s, sep), sep) == s
    decreases |s|
  {
    match Find(s, sep)
    case None =>
      assert Split(s, sep) == [s];
    case Some(i) =>
      var rest := s[i + |sep|..];
      var tail := Split(rest, sep);
      SplitJoin(rest, sep);
      assert Split(s, sep) == [s[..i]] + tail;
      JoinCons(s[..i], tail, sep);
      assert s == s[..i] + sep + rest by {
        assert s[i..i + |sep|] == sep;
      }
  }

  /** Joining a first part before at least one more. */
  lemma JoinCons(first: string, rest: seq<string>, sep: string)
    requires |rest| >= 1
    ensures Join([first] + rest, sep) == first + sep + Join(rest, sep)
  {
    assert ([first] + rest)[1..] == rest;
  }

  /** `s.split(sep)[0]` is the text before the first occurrence of `sep`, or
      all of `s` when `sep` does not occur. */
  lemma FirstSegmentShape(s: string, sep: string)
    requires |sep| > 0
    ensures var first := FirstSegment(s, sep);
      && |first| <= |s| && s[..|first|] == first
      && !Contains(first, sep)
      && (Contains(s, sep) ==> OccursAt(s, sep, |first|))
      && (!Contains(s, sep) ==> first == s)
  {
    match Find(s, sep)
    case None =>
    case Some(i) =>
      var first := s[..i];
      assert FirstSegment(s, sep) == first;
      if Contains(first, sep) {
        var j :| 0 <= j <= |first| && OccursAt(first, sep, j);
        OccursInPrefix(s, sep, i, j);
        assert false;
      }
  }

  /** `s.split(sep)[-1]` is the text after the last occurrence of `sep` (in
      the left-to-right scan), or all of `s` when `sep` does not occur. */
  lemma LastSegmentShape(s: string, sep: string)
    requires |sep| > 0
    ensures var last := LastSegment(s, sep);
      && |last| <= |s| && s[|s| - |last|..] == last
      && !Contains(last, sep)
      && (Contains(s, sep) ==> |last| + |sep| <= |s| && OccursAt(s, sep, |s| - |last| - |sep|))
      && (!Contains(s, sep) ==> last == s)
  {
    LastSegmentSuffix(s, sep);
    LastSegmentFree(s, sep);
    if Contains(s, sep) {
      LastSegmentPreceded(s, sep);
    } else {
      assert Split(s, sep) == [s];
    }
  }

  /** The last segment is a suffix of `s`. */
  lemma {:induction false} LastSegmentSuffix(s: string, sep: string)
    requires |sep| > 0
    ensures |LastSegment(s, sep)| <= |s|
    ensures s[|s| - |LastSegment(s, sep)|..] == LastSegment(s, sep)
    decreases |s|
  {
    match Find(s, sep)
    case None =>
      assert Split(s, sep) == [s];
    case Some(i) =>
      var rest := s[i + |sep|..];
      LastSegmentStep(s, sep, i);
      LastSegmentSuffix(rest, sep);
      var last := LastSegment(rest, sep);
      assert rest[|rest| - |last|..] == s[|s| - |last|..];
  }

  /** When `sep` occurs in `s`, the last segment is preceded by an
      occurrence of it. */
  lemma LastSegmentPreceded(s: string, sep: string)
    requires |sep| > 0 && Find(s, sep).Some?
    ensures OccursAt(s, sep, |s| - |LastSegment(s, sep)| - |sep|)
  {
    var parts := Split(s, sep);
    var i := Find(s, sep).value;
    assert parts == [s[..i]] + Split(s[i + |sep|..], sep);
    SplitJoin(s, sep);
    JoinLast(parts, sep);
    var front := Join(parts[..|parts| - 1], sep);
    assert s == front + sep + LastSegment(s, sep);
    assert s[|front|..|front| + |sep|] == sep;
  }

  /** A join of two or more parts ends with the separator and the last part. */
  lemma {:induction false} JoinLast(parts: seq<string>, sep: string)
    requires |parts| >= 2
    ensures Join(parts, sep) == Join(parts[..|parts| - 1], sep) + sep + parts[|parts| - 1]
    decreases |parts|
  {
    if |parts| > 2 {
      JoinLast(parts[1..], sep);
      assert parts[1..][..|parts| - 2] == parts[..|parts| - 1][1..];
    }
  }

  /** Without an occurrence of `sep`, the last segment is the whole text. */
  lemma LastSegmentWhole(s: string, sep: string)
    requires |sep| > 0 && Find(s, sep).None?
    ensures LastSegment(s, sep) == s
  {
    assert Split(s, sep) == [s];
  }

  /** The last segment holds no occurrence of `sep`. */
  lemma {:induction false} LastSegmentFree(s: string, sep: string)
    requires |sep| > 0
    ensures !Contains(LastSegment(s, sep), sep)
    decreases |s|
  {
    match Find(s, sep)
    case None =>
      assert Split(s, sep) == [s];
    case Some(i) =>
      LastSegmentStep(s, sep, i);
      LastSegmentFree(s[i + |sep|..], sep);
  }

  /** Past the first separator, the last segment is that of the rest. */
  lemma LastSegmentStep(s: string, sep: string, i: nat)
    requires |sep| > 0 && Find(s, sep) == Some(i)
    ensures i + |sep| <= |s|
    ensures LastSegment(s, sep) == LastSegment(s[i + |sep|..], sep)
  {
    var tail := Split(s[i + |sep|..], sep);
    var parts := Split(s, sep);
    assert parts == [s[..i]] + tail;
    assert parts[|parts| - 1] == tail[|tail| - 1];
  }

  /** The first occurrence is the one `Find` reports. */
  lemma FindFirst(s: string, sep: string, i: nat)
    requires OccursAt(s, sep, i)
    requires forall j :: 0 <= j < i ==> !OccursAt(s, sep, j)
    ensures Find(s, sep) == Some(i)
  {
    assert Contains(s, sep);
  }

  /** Each character an occurrence covers is the separator's. */
  lemma OccursChar(s: string, sep: string, i: int, k: int)
    requires OccursAt(s, sep, i)
    requires i <= k < i + |sep|
    ensures s[k] == sep[k - i]
  {
    assert s[i..i + |sep|][k - i] == s[k];
  }

  /** A separator cannot start where the text holds another character. */
  lemma HeadDiffers(s: string, sep: string, j: int)
    requires |sep| > 0
    requires 0 <= j < |s| ==> s[j] != sep[0]
    ensures !OccursAt(s, sep, j)
  {
    if 0 <= j && j + |sep| <= |s| {
      assert s[j..j + |sep|][0] == s[j];
    }
  }

  /** A text with exactly one occurrence of a separator whose first character
      appears nowhere else splits into the two sides. */
  lemma SplitOnce(p: string, sep: string, q: string)
    requires |sep| > 0
    requires sep[0] !in p && sep[0] !in q
    ensures Split(p + sep + q, sep) == [p, q]
  {
    var s := p + sep + q;
    assert OccursAt(s, sep, |p|) by { assert s[|p|..|p| + |sep|] == sep; }
    forall j | 0 <= j < |p| ensures !OccursAt(s, sep, j) {
      assert s[j] == p[j];
      HeadDiffers(s, sep, j);
    }
    FindFirst(s, sep, |p|);
    assert s[..|p|] == p;
    assert s[|p| + |sep|..] == q;
    forall j | 0 <= j <= |q| ensures !OccursAt(q, sep, j) {
      HeadDiffers(q, sep, j);
    }
    assert Find(q, sep).None?;
    assert Split(q, sep) == [q];
  }

  /** `s.replace(target, replacement)` when `target` occurs once and its first character
      nowhere else: only that occurrence changes. */
  lemma ReplaceOnce(p: string, target: string, q: string, replacement: string)
    requires |target| > 0
    requires target[0] !in p && target[0] !in q
    ensures ReplaceAll(p + target + q, target, replacement) == p + replacement + q
  {
    SplitOnce(p, target, q);
    assert Join([p, q], replacement) == p + replacement + Join([q], replacement);
  }

  /** A text is emptied by `strip()` exactly when it is all white space. */
  lemma {:induction false} StripLeftEmpty(s: string)
    ensures StripLeft(s) == [] <==> forall i :: 0 <= i < |s| ==> IsSpace(s[i])
    decreases |s|
  {
    if |s| > 0 && IsSpace(s[0]) {
      StripLeftEmpty(s[1..]);
      assert forall i :: 1 <= i < |s| ==> s[i] == s[1..][i - 1];
    }
  }

  lemma StripEmpty(s: string)
    ensures Strip(s) == [] <==> forall i :: 0 <= i < |s| ==> IsSpace(s[i])
  {
    StripLeftEmpty(s);
  }

  /** `strip()` leaves a text without white space at either end unchanged. */
  lemma StripTrimmed(s: string)
    requires |s| > 0 ==> !IsSpace(s[0]) && !IsSpace(s[|s| - 1])
    ensures Strip(s) == s
  {
  }
}
