/**
 * detect_silence_intervals, of which both silence removers carry the same code:
 * the threshold's unit suffix, the scan of the detector's diagnostic text for
 * `silence_start:` / `silence_end:` markers, and the reverse pairing of the
 * collected starts and ends into latest-first intervals with a margin added
 * to every start that is not zero.
 */
module SilenceDetect {
  import opened Wrappers
  import opened Text

  const StartMarker: string := "silence_start:"
  const EndMarker: string := "silence_end:"

  /** The threshold handed to the detector: "dB" is appended unless already there. */
  function NoiseParam(noise: string): (r: string)
    ensures EndsWith(r, "dB")
    ensures r == noise <==> EndsWith(noise, "dB")
    ensures r != noise ==> r == noise + "dB"
  {
    if EndsWith(noise, "dB") then noise else noise + "dB"
  }

  lemma NoiseParamIdempotent(noise: string)
    ensures NoiseParam(NoiseParam(noise)) == NoiseParam(noise)
  {
  }

  /** The detector's filter argument: the suffixed threshold and the minimum silence length. */
  function DetectFilter(noise: string, minDuration: real, show: real -> string): (r: string)
    ensures exists thr :: && (thr == noise || thr == noise + "dB") && EndsWith(thr, "dB")
                          && r == "silencedetect=noise=" + thr + ":d=" + show(minDuration)
  {
    var thr := NoiseParam(noise);
    assert thr == noise || thr == noise + "dB";
    "silencedetect=noise=" + thr + ":d=" + show(minDuration)
  }

  /** A threshold given with its "dB" already gives the same detector argument as one without. */
  lemma DetectFilterSuffixed(noise: string, minDuration: real, show: real -> string)
    ensures DetectFilter(NoiseParam(noise), minDuration, show) == DetectFilter(noise, minDuration, show)
    ensures !EndsWith(noise, "dB") ==> DetectFilter(noise + "dB", minDuration, show) == DetectFilter(noise, minDuration, show)
  {
    NoiseParamIdempotent(noise);
  }

  // ---------------------------------------------------------------------
  // The regular expression `<marker>\s*([0-9.]+)` searched in one line
  // ---------------------------------------------------------------------

  predicate IsNumberChar(c: char) {
    IsDigit(c) || c == '.'
  }

  /** The first index at or after i that is not whitespace. */
  function SkipSpace(s: string, i: nat): (j: nat)
    requires i <= |s|
    ensures i <= j <= |s|
    ensures forall k :: i <= k < j ==> IsSpace(s[k])
    ensures j < |s| ==> !IsSpace(s[j])
    decreases |s| - i
  {
    if i < |s| && IsSpace(s[i]) then SkipSpace(s, i + 1) else i
  }

  /** The end of the longest run of [0-9.] characters starting at i. */
  function NumberEnd(s: string, i: nat): (j: nat)
    requires i <= |s|
    ensures i <= j <= |s|
    ensures forall k :: i <= k < j ==> IsNumberChar(s[k])
    ensures j < |s| ==> !IsNumberChar(s[j])
    decreases |s| - i
  {
    if i < |s| && IsNumberChar(s[i]) then NumberEnd(s, i + 1) else i
  }

  /** Where the digits of a match at position k would begin. */
  function TokenStart(line: string, marker: string, k: nat): nat
    requires k + |marker| <= |line|
  {
    SkipSpace(line, k + |marker|)
  }

  /** The pattern matches at position k: the marker, optional whitespace, then at least one [0-9.]. */
  predicate MatchesAt(line: string, marker: string, k: nat) {
    k + |marker| <= |line| && line[k..k + |marker|] == marker
    && TokenStart(line, marker, k) < |line| && IsNumberChar(line[TokenStart(line, marker, k)])
  }

  /** The captured group of a match at k: the whole run of [0-9.] (the `+` is greedy). */
  function TokenAt(line: string, marker: string, k: nat): (tok: string)
    requires MatchesAt(line, marker, k)
    ensures tok != [] && forall j :: 0 <= j < |tok| ==> IsNumberChar(tok[j])
    ensures var j := TokenStart(line, marker, k);
      && j + |tok| <= |line| && tok == line[j..j + |tok|]
      && (j + |tok| == |line| || !IsNumberChar(line[j + |tok|]))
  {
    var j := TokenStart(line, marker, k);
    line[j..NumberEnd(line, j)]
  }

  /** The leftmost position at or after i where the pattern matches, as re.search finds it. */
  function FirstMatch(line: string, marker: string, i: nat): (r: Option<nat>)
    ensures r.Some? ==> i <= r.value && MatchesAt(line, marker, r.value)
    ensures r.Some? ==> forall k :: i <= k < r.value ==> !MatchesAt(line, marker, k)
    ensures r.None? ==> forall k :: i <= k ==> !MatchesAt(line, marker, k)
    decreases |line| - i
  {
    if i + |marker| > |line| then None
    else if MatchesAt(line, marker, i) then Some(i)
    else FirstMatch(line, marker, i + 1)
  }

  /** The group captured by re.search(marker + r"\s*([0-9.]+)", line), if any. */
  function Search(line: string, marker: string): Option<string> {
    match FirstMatch(line, marker, 0)
    case None => None
    case Some(k) => Some(TokenAt(line, marker, k))
  }

  /** A match anywhere in line[i..] means the marker occurs in line[i..]. */
  lemma {:induction false} MatchMeansMarker(line: string, marker: string, i: nat, k: nat)
    requires i <= k && MatchesAt(line, marker, k)
    ensures Contains(line[i..], marker)
    decreases k - i
  {
    if i == k {
      assert line[i..][..|marker|] == line[k..k + |marker|];
    } else {
      MatchMeansMarker(line, marker, i + 1, k);
      assert line[i..][1..] == line[i + 1..];
    }
  }

  /** The `marker in line` guard in front of re.search never hides a match. */
  lemma SearchNeedsMarker(line: string, marker: string)
    ensures Search(line, marker).Some? ==> Contains(line, marker)
  {
    var m := FirstMatch(line, marker, 0);
    if m.Some? {
      MatchMeansMarker(line, marker, 0, m.value);
      assert line[0..] == line;
    }
  }

  // ---------------------------------------------------------------------
  // The scan over the diagnostic text
  // ---------------------------------------------------------------------

  /** What one line contributes to the list of one marker. */
  function Hit(line: string, marker: string, toReal: string -> real): (r: seq<real>)
    ensures |r| <= 1
  {
    match Search(line, marker)
    case None => []
    case Some(tok) => [toReal(tok)]
  }

  /** The numbers found after `marker`, one per matching line, in the order of the lines. */
  function Collect(lines: seq<string>, marker: string, toReal: string -> real): (r: seq<real>)
    ensures |r| <= |lines|
    decreases |lines|
  {
    if lines == [] then []
    else Collect(lines[..|lines| - 1], marker, toReal) + Hit(lines[|lines| - 1], marker, toReal)
  }

  /** Collecting is done line by line, in emission order: the hits of a text are those of its parts, in order. */
  lemma {:induction false} CollectAppend(a: seq<string>, b: seq<string>, marker: string, toReal: string -> real)
    ensures Collect(a + b, marker, toReal) == Collect(a, marker, toReal) + Collect(b, marker, toReal)
    decreases |b|
  {
    if b == [] {
      assert a + b == a;
    } else {
      var b' := b[..|b| - 1];
      assert (a + b)[..|a + b| - 1] == a + b';
      CollectAppend(a, b', marker, toReal);
    }
  }

  /** A line without the marker contributes nothing. */
  lemma UnmarkedLineIgnored(a: seq<string>, line: string, b: seq<string>, marker: string, toReal: string -> real)
    requires !Contains(line, marker)
    ensures Collect(a + [line] + b, marker, toReal) == Collect(a + b, marker, toReal)
  {
    assert Collect([line], marker, toReal) == [] by {
      SearchNeedsMarker(line, marker);
      var none: seq<string> := [];
      assert [line][..0] == none;
    }
    calc {
      Collect(a + [line] + b, marker, toReal);
      { CollectAppend(a + [line], b, marker, toReal); }
      Collect(a + [line], marker, toReal) + Collect(b, marker, toReal);
      { CollectAppend(a, [line], marker, toReal); }
      Collect(a, marker, toReal) + Collect(b, marker, toReal);
      { CollectAppend(a, b, marker, toReal); }
      Collect(a + b, marker, toReal);
    }
  }

  /** One more line adds its hit, which the `marker in line` guard does not hide. */
  lemma CollectStep(lines: seq<string>, i: nat, marker: string, toReal: string -> real)
    requires i < |lines|
    ensures Collect(lines[..i + 1], marker, toReal) == Collect(lines[..i], marker, toReal)
      + (if Contains(lines[i], marker) && Search(lines[i], marker).Some?
         then [toReal(Search(lines[i], marker).value)] else [])
  {
    assert lines[..i + 1][..i] == lines[..i];
    SearchNeedsMarker(lines[i], marker);
  }

  /**
   * parse: the loop over output.splitlines(). Each line is tested for both
   * markers independently, so a line carrying both feeds both lists.
   */
  method ParseSilenceLog(output: string, toReal: string -> real) returns (starts: seq<real>, ends: seq<real>)
    ensures starts == Collect(SplitLines(output), StartMarker, toReal)
    ensures ends == Collect(SplitLines(output), EndMarker, toReal)
  {
    var lines := SplitLines(output);
    starts, ends := [], [];
    for i := 0 to |lines|
      invariant starts == Collect(lines[..i], StartMarker, toReal)
      invariant ends == Collect(lines[..i], EndMarker, toReal)
    {
      var line := lines[i];
      CollectStep(lines, i, StartMarker, toReal);
      CollectStep(lines, i, EndMarker, toReal);
      if Contains(line, StartMarker) {
        var m := Search(line, StartMarker);
        if m.Some? {
          starts := starts + [toReal(m.value)];
        }
      }
      if Contains(line, EndMarker) {
        var m := Search(line, EndMarker);
        if m.Some? {
          ends := ends + [toReal(m.value)];
        }
      }
    }
    assert lines[..|lines|] == lines;
  }

  /** A marker followed by a minus sign is no match: negative numbers are never collected. */
  lemma MinusSignNotMatched()
    ensures Search("silence_start: -1", StartMarker) == None
  {
    var line := "silence_start: -1";
    assert MatchesAt(line, StartMarker, 0) == false by {
      assert SkipSpace(line, 14) == 15;
    }
    assert FirstMatch(line, StartMarker, 4) == None;
    assert !MatchesAt(line, StartMarker, 3) by { assert line[3] != StartMarker[0]; }
    assert !MatchesAt(line, StartMarker, 2) by { assert line[2] != StartMarker[0]; }
    assert !MatchesAt(line, StartMarker, 1) by { assert line[1] != StartMarker[0]; }
    assert FirstMatch(line, StartMarker, 1) == None;
  }

  /** Whatever line the pattern matches, the captured token carries no sign. */
  lemma TokenUnsigned(line: string, marker: string)
    ensures Search(line, marker).Some? ==> '-' !in Search(line, marker).value && '+' !in Search(line, marker).value
  {
    if Search(line, marker).Some? {
      var tok := Search(line, marker).value;
      assert forall j :: 0 <= j < |tok| ==> IsNumberChar(tok[j]);
    }
  }

  /** A line on which both patterns match feeds both lists, each with its own token. */
  lemma LineFeedsBothLists(lines: seq<string>, line: string, toReal: string -> real)
    requires Search(line, StartMarker).Some? && Search(line, EndMarker).Some?
    ensures Collect(lines + [line], StartMarker, toReal)
         == Collect(lines, StartMarker, toReal) + [toReal(Search(line, StartMarker).value)]
    ensures Collect(lines + [line], EndMarker, toReal)
         == Collect(lines, EndMarker, toReal) + [toReal(Search(line, EndMarker).value)]
  {
    assert (lines + [line])[..|lines|] == lines;
  }

  // ---------------------------------------------------------------------
  // Pairing: zip(reversed(starts), reversed(ends)) with the margin policy
  // ---------------------------------------------------------------------

  datatype Interval = Interval(start: real, end: real)

  /** The margin policy: a start at exactly zero keeps no margin. */
  function WithMargin(raw: real, margin: real): real {
    if raw != 0.0 then raw + margin else raw
  }

  function Reverse<T>(s: seq<T>): (r: seq<T>)
    ensures |r| == |s|
    decreases |s|
  {
    if s == [] then [] else [s[|s| - 1]] + Reverse(s[..|s| - 1])
  }

  lemma {:induction false} ReverseAt<T>(s: seq<T>, i: nat)
    requires i < |s|
    ensures Reverse(s)[i] == s[|s| - 1 - i]
    decreases |s|
  {
    if i > 0 {
      ReverseAt(s[..|s| - 1], i - 1);
    }
  }

  /** Python's zip over two lists: stops at the shorter one. */
  function Zip(a: seq<real>, b: seq<real>): (r: seq<(real, real)>)
    ensures |r| == if |a| < |b| then |a| else |b|
    decreases |a|
  {
    if a == [] || b == [] then [] else [(a[0], b[0])] + Zip(a[1..], b[1..])
  }

  lemma {:induction false} ZipAt(a: seq<real>, b: seq<real>, i: nat)
    requires i < |a| && i < |b|
    ensures Zip(a, b)[i] == (a[i], b[i])
    decreases |a|
  {
    if i > 0 {
      ZipAt(a[1..], b[1..], i - 1);
    }
  }

  function ApplyMargin(pairs: seq<(real, real)>, margin: real): (r: seq<Interval>)
    ensures |r| == |pairs|
    decreases |pairs|
  {
    if pairs == [] then []
    else [Interval(WithMargin(pairs[0].0, margin), pairs[0].1)] + ApplyMargin(pairs[1..], margin)
  }

  lemma {:induction false} ApplyMarginAt(pairs: seq<(real, real)>, margin: real, i: nat)
    requires i < |pairs|
    ensures ApplyMargin(pairs, margin)[i] == Interval(WithMargin(pairs[i].0, margin), pairs[i].1)
    decreases |pairs|
  {
    if i > 0 {
      ApplyMarginAt(pairs[1..], margin, i - 1);
    }
  }

  /** The intervals the source returns, as its expression reads: reverse, zip, margin. */
  function Normalize(starts: seq<real>, ends: seq<real>, margin: real): seq<Interval> {
    ApplyMargin(Zip(Reverse(starts), Reverse(ends)), margin)
  }

  function Min(a: nat, b: nat): nat {
    if a < b then a else b
  }

  /**
   * Interval i pairs the i-th start from the end with the i-th end from the
   * end; the end is kept and the start gets the margin unless it is zero.
   */
  lemma NormalizeAt(starts: seq<real>, ends: seq<real>, margin: real, i: nat)
    requires i < |starts| && i < |ends|
    ensures |Normalize(starts, ends, margin)| == Min(|starts|, |ends|)
    ensures Normalize(starts, ends, margin)[i]
         == Interval(WithMargin(starts[|starts| - 1 - i], margin), ends[|ends| - 1 - i])
  {
    ReverseAt(starts, i);
    ReverseAt(ends, i);
    ZipAt(Reverse(starts), Reverse(ends), i);
    ApplyMarginAt(Zip(Reverse(starts), Reverse(ends)), margin, i);
  }

  /** The pairing loop, with the start variable bumped in place as the source does. */
  method PairIntervals(starts: seq<real>, ends: seq<real>, margin: real) returns (intervals: seq<Interval>)
    ensures intervals == Normalize(starts, ends, margin)
  {
    var n := Min(|starts|, |ends|);
    intervals := [];
    for i := 0 to n
      invariant |intervals| == i
      invariant forall k :: 0 <= k < i ==>
        intervals[k] == Interval(WithMargin(starts[|starts| - 1 - k], margin), ends[|ends| - 1 - k])
    {
      var start := starts[|starts| - 1 - i];
      var end := ends[|ends| - 1 - i];
      if start != 0.0 {
        start := start + margin;
      }
      intervals := intervals + [Interval(start, end)];
    }
    var spec := Normalize(starts, ends, margin);
    forall k | 0 <= k < n
      ensures spec[k] == intervals[k]
    {
      NormalizeAt(starts, ends, margin, k);
    }
    if n > 0 {
      NormalizeAt(starts, ends, margin, 0);
    } else {
      assert |spec| == 0;
    }
  }

  /** The whole of detect_silence_intervals after the detector has run. */
  function DetectedIntervals(output: string, margin: real, toReal: string -> real): seq<Interval> {
    Normalize(Collect(SplitLines(output), StartMarker, toReal), Collect(SplitLines(output), EndMarker, toReal), margin)
  }

  method DetectSilenceIntervals(output: string, margin: real, toReal: string -> real) returns (intervals: seq<Interval>)
    ensures intervals == DetectedIntervals(output, margin, toReal)
  {
    var starts, ends := ParseSilenceLog(output, toReal);
    intervals := PairIntervals(starts, ends, margin);
  }

  /** The surplus that zip drops is the EARLIEST entries of the longer list. */
  lemma SurplusIsEarliest(starts: seq<real>, ends: seq<real>, margin: real)
    ensures Normalize(starts, ends, margin)
         == Normalize(starts[|starts| - Min(|starts|, |ends|)..], ends[|ends| - Min(|starts|, |ends|)..], margin)
  {
    var m := Min(|starts|, |ends|);
    var s', e' := starts[|starts| - m..], ends[|ends| - m..];
    var a, b := Normalize(starts, ends, margin), Normalize(s', e', margin);
    forall i | 0 <= i < m
      ensures a[i] == b[i]
    {
      NormalizeAt(starts, ends, margin, i);
      NormalizeAt(s', e', margin, i);
    }
    if m > 0 {
      NormalizeAt(starts, ends, margin, 0);
      NormalizeAt(s', e', margin, 0);
    } else {
      assert |a| == 0 && |b| == 0;
    }
  }

  /** A raw start of zero is kept as zero; every other start is moved by exactly the margin. */
  lemma MarginOnlyOnNonZero(starts: seq<real>, ends: seq<real>, margin: real, i: nat)
    requires i < |starts| && i < |ends|
    ensures var iv := Normalize(starts, ends, margin)[i];
      var raw := starts[|starts| - 1 - i];
      && (raw == 0.0 ==> iv.start == 0.0)
      && (raw != 0.0 ==> iv.start == raw + margin)
      && iv.end == ends[|ends| - 1 - i]
  {
    NormalizeAt(starts, ends, margin, i);
  }

  predicate Ascending(s: seq<real>) {
    forall i, j :: 0 <= i < j < |s| ==> s[i] <= s[j]
  }

  /** Ascending input gives latest-first output: both starts and ends descend. */
  lemma LatestFirstOutput(starts: seq<real>, ends: seq<real>, margin: real)
    requires Ascending(starts) && Ascending(ends) && margin >= 0.0
    requires forall k :: 0 <= k < |starts| ==> starts[k] >= 0.0
    ensures var r := Normalize(starts, ends, margin);
      forall i, j :: 0 <= i < j < |r| ==> r[j].start <= r[i].start && r[j].end <= r[i].end
  {
    var r := Normalize(starts, ends, margin);
    forall i, j | 0 <= i < j < |r|
      ensures r[j].start <= r[i].start && r[j].end <= r[i].end
    {
      NormalizeAt(starts, ends, margin, i);
      NormalizeAt(starts, ends, margin, j);
      var si, sj := starts[|starts| - 1 - i], starts[|starts| - 1 - j];
      assert 0.0 <= sj <= si;
    }
  }

  /**
   * A detector that emits non-overlapping silences in chronological order,
   * start and end alternating.
   */
  predicate Chronological(starts: seq<real>, ends: seq<real>) {
    && |starts| == |ends|
    && (forall k :: 0 <= k < |starts| ==> 0.0 <= starts[k] <= ends[k])
    && (forall k, l :: 0 <= k < l < |starts| ==> ends[k] <= starts[l])
  }

  /**
   * The intervals are ready for latest-first application: each starts no
   * later than it ends, and every interval ends no later than any interval
   * before it in the list starts.
   */
  predicate LatestFirst(intervals: seq<Interval>) {
    && (forall i :: 0 <= i < |intervals| ==> 0.0 <= intervals[i].start <= intervals[i].end)
    && (forall i, j :: 0 <= i < j < |intervals| ==> intervals[j].end <= intervals[i].start)
  }

  /**
   * Equal counts give exactly that many intervals, and chronological markers
   * give latest-first, non-overlapping intervals as long as the margin is
   * non-negative and no longer than any silence.
   */
  lemma ChronologicalGivesLatestFirst(starts: seq<real>, ends: seq<real>, margin: real)
    requires Chronological(starts, ends)
    requires 0.0 <= margin
    requires forall k :: 0 <= k < |starts| ==> starts[k] + margin <= ends[k]
    ensures |Normalize(starts, ends, margin)| == |starts|
    ensures LatestFirst(Normalize(starts, ends, margin))
  {
    var r := Normalize(starts, ends, margin);
    var n := |starts|;
    forall i | 0 <= i < |r|
      ensures 0.0 <= r[i].start <= r[i].end
    {
      NormalizeAt(starts, ends, margin, i);
    }
    forall i, j | 0 <= i < j < |r|
      ensures r[j].end <= r[i].start
    {
      NormalizeAt(starts, ends, margin, i);
      NormalizeAt(starts, ends, margin, j);
      assert ends[n - 1 - j] <= starts[n - 1 - i];
    }
  }

  /** Two silences, margin one second: [(11, 12), (3, 5)]. */
  lemma TwoSilencesExample()
    ensures Normalize([2.0, 10.0], [5.0, 12.0], 1.0) == [Interval(11.0, 12.0), Interval(3.0, 5.0)]
  {
    NormalizeAt([2.0, 10.0], [5.0, 12.0], 1.0, 0);
    NormalizeAt([2.0, 10.0], [5.0, 12.0], 1.0, 1);
  }
}
