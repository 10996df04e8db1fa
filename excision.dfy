/**
 * What both silence removers share once an interval is known: the plan of
 * segments to keep, the trim filters that express it, the duration probe
 * with its 0.0 fallback, and what the external engine makes of a plan
 * (`Excise`). Applying a whole interval list is `ApplyAll`; the claim
 * behind latest-first ordering, that applying the intervals latest first
 * never disturbs an interval that is still pending, is
 * `PendingIntervalUntouched`.
 */
module Excision {
  import opened Wrappers
  import opened Text
  import opened Timeline
  import opened SilenceDetect

  /**
   * A span of the current file to keep. A head always starts at 0 (the
   * filter text writes a literal 0); a tail runs from the silence's end to
   * the probed total duration.
   */
  datatype Segment = Head(stop: real) | Tail(from: real, to: real) {
    function Start(): real {
      if Head? then 0.0 else from
    }
    function End(): real {
      if Head? then stop else to
    }
  }

  /** The planner: a head [0, start] when start > 0, then a tail [end, total] when end < total. */
  function KeepSegments(start: real, end: real, total: real): seq<Segment> {
    (if start > 0.0 then [Head(start)] else []) + (if end < total then [Tail(end, total)] else [])
  }

  /** At most two segments; the head exactly when start > 0, the tail exactly when end < total, head first. */
  lemma PlanShape(start: real, end: real, total: real)
    ensures var p := KeepSegments(start, end, total);
      && |p| == (if start > 0.0 then 1 else 0) + (if end < total then 1 else 0)
      && |p| <= 2
      && (Head(start) in p <==> start > 0.0)
      && (Tail(end, total) in p <==> end < total)
      && (forall i :: 0 <= i < |p| ==> (p[i].Head? <==> i == 0 && start > 0.0))
      && (forall i :: 0 <= i < |p| ==> p[i] == Head(start) || p[i] == Tail(end, total))
  {
  }

  function KeptLength(p: seq<Segment>): real
    decreases |p|
  {
    if p == [] then 0.0 else (p[0].End() - p[0].Start()) + KeptLength(p[1..])
  }

  /** An interval inside the file leaves total - (end - start) seconds of kept material. */
  lemma PlanKeptLength(start: real, end: real, total: real)
    requires 0.0 <= start <= end <= total
    ensures KeptLength(KeepSegments(start, end, total)) == total - (end - start)
  {
    var p := KeepSegments(start, end, total);
    if start > 0.0 && end < total {
      assert p == [Head(start), Tail(end, total)];
      assert p[1..] == [Tail(end, total)];
      assert p[1..][1..] == [];
      assert KeptLength(p[1..]) == total - end + KeptLength([]);
      assert KeptLength(p) == start + KeptLength(p[1..]);
    } else if start > 0.0 {
      assert p == [Head(start)];
      assert p[1..] == [];
    } else if end < total {
      assert p == [Tail(end, total)];
      assert p[1..] == [];
    } else {
      assert p == [];
    }
  }

  // ---------------------------------------------------------------------
  // Trim filters and edit requests
  // ---------------------------------------------------------------------

  datatype Stream = AudioStream | VideoStream

  /** One trim of stream 0 to `seg`, timestamps reset, written to the pad `pad`. */
  datatype TrimFilter = TrimFilter(stream: Stream, seg: Segment, pad: string)

  /** The filter text, with `show` standing for Python's rendering of a float. */
  function RenderTrim(f: TrimFilter, show: real -> string): (r: string)
    ensures StartsWith(r, StreamTag(f.stream))
    ensures EndsWith(r, "[" + f.pad + "]")
  {
    var out := "[" + f.pad + "]";
    var body := TrimBody(f, show);
    ConcatThreeEnds(StreamTag(f.stream), body, out);
    StreamTag(f.stream) + body + out
  }

  /** The input stream a trim reads. */
  function StreamTag(stream: Stream): string {
    match stream
    case AudioStream => "[0:a]"
    case VideoStream => "[0:v]"
  }

  /** The filter name with its bounds and the timestamp reset. */
  function TrimBody(f: TrimFilter, show: real -> string): string {
    var bounds := match f.seg
      case Head(stop) => "0:" + show(stop)
      case Tail(from, to) => show(from) + ":" + show(to);
    match f.stream
    case AudioStream => "atrim=" + bounds + ",asetpts=PTS-STARTPTS"
    case VideoStream => "trim=" + bounds + ",setpts=PTS-STARTPTS"
  }

  /** No trim text holds ';' when no rendered number and no pad name does. */
  lemma RenderTrimNoSemicolon(f: TrimFilter, show: real -> string)
    requires forall x :: ';' !in show(x)
    requires ';' !in f.pad
    ensures ';' !in RenderTrim(f, show)
  {
    var bounds := match f.seg
      case Head(stop) => "0:" + show(stop)
      case Tail(from, to) => show(from) + ":" + show(to);
    assert ';' !in bounds;
    assert ';' !in TrimBody(f, show);
    assert ';' !in StreamTag(f.stream);
  }

  function RenderAll(fs: seq<TrimFilter>, show: real -> string): (r: seq<string>)
    ensures |r| == |fs|
    ensures forall k :: 0 <= k < |fs| ==> r[k] == RenderTrim(fs[k], show)
    decreases |fs|
  {
    if fs == [] then [] else [RenderTrim(fs[0], show)] + RenderAll(fs[1..], show)
  }

  /** What the remover asks of the engine: a verbatim copy, or a filter graph and its -map arguments. */
  datatype EditRequest = CopyVerbatim | FilterGraph(graph: string, mapArgs: seq<string>)

  /** The segments that the filters of one stream keep, in filter order. */
  function StreamSegments(fs: seq<TrimFilter>, stream: Stream): seq<Segment>
    decreases |fs|
  {
    if fs == [] then []
    else (if fs[0].stream == stream then [fs[0].seg] else []) + StreamSegments(fs[1..], stream)
  }

  lemma {:induction false} StreamSegmentsAppend(a: seq<TrimFilter>, b: seq<TrimFilter>, stream: Stream)
    ensures StreamSegments(a + b, stream) == StreamSegments(a, stream) + StreamSegments(b, stream)
    decreases |a|
  {
    if a == [] {
      assert a + b == b;
    } else {
      var h := if a[0].stream == stream then [a[0].seg] else [];
      assert (a + b)[0] == a[0];
      assert (a + b)[1..] == a[1..] + b;
      StreamSegmentsAppend(a[1..], b, stream);
      assert StreamSegments(a + b, stream) == h + StreamSegments(a[1..] + b, stream);
      assert StreamSegments(a, stream) == h + StreamSegments(a[1..], stream);
    }
  }

  lemma StreamSegmentsOne(f: TrimFilter, stream: Stream)
    ensures StreamSegments([f], stream) == if f.stream == stream then [f.seg] else []
  {
    assert [f][1..] == [];
  }

  // ---------------------------------------------------------------------
  // The duration probe
  // ---------------------------------------------------------------------

  /**
   * get_audio_duration / get_media_duration after the probe has run:
   * float() of the stripped output, or 0.0 when float() raises ValueError.
   * `parseFloat` stands for float() and yields None where it raises.
   */
  function DurationFromProbe(stdout: string, parseFloat: string -> Option<real>): (d: real)
    ensures parseFloat(Strip(stdout)).None? ==> d == 0.0
    ensures parseFloat(Strip(stdout)).Some? ==> d == parseFloat(Strip(stdout)).value
  {
    match parseFloat(Strip(stdout))
    case None => 0.0
    case Some(d) => d
  }

  /** The probe as the executor sees it: from the current content to the reported total. */
  function ProbedTotal(probe: Timeline -> string, parseFloat: string -> Option<real>): Timeline -> real {
    tl => DurationFromProbe(probe(tl), parseFloat)
  }

  // ---------------------------------------------------------------------
  // The engine's view: what a plan does to the content
  // ---------------------------------------------------------------------

  /** Trim every kept segment and concatenate the results in plan order. */
  function Cut(tl: Timeline, p: seq<Segment>): (r: Timeline)
    ensures Valid(tl) ==> Valid(r)
    decreases |p|
  {
    if p == [] then []
    else
      TrimValid(tl, p[0].Start(), p[0].End());
      Trim(tl, p[0].Start(), p[0].End()) + Cut(tl, p[1..])
  }

  /** One call of the remover: keep the planned segments, or copy verbatim when none is kept. */
  function Excise(tl: Timeline, start: real, end: real, total: real): (r: Timeline)
    ensures Valid(tl) ==> Valid(r)
  {
    var p := KeepSegments(start, end, total);
    if p == [] then tl else Cut(tl, p)
  }

  lemma CutOne(tl: Timeline, x: Segment)
    ensures Cut(tl, [x]) == Trim(tl, x.Start(), x.End())
  {
    assert [x][1..] == [];
    assert Trim(tl, x.Start(), x.End()) + [] == Trim(tl, x.Start(), x.End());
  }

  lemma CutTwo(tl: Timeline, x: Segment, y: Segment)
    ensures Cut(tl, [x, y]) == Trim(tl, x.Start(), x.End()) + Trim(tl, y.Start(), y.End())
  {
    assert [x, y][1..] == [y];
    CutOne(tl, y);
  }

  /** A trim from 0 is a prefix. */
  lemma TrimFromZero(tl: Timeline, stop: real)
    ensures Trim(tl, 0.0, stop) == Take(tl, stop)
  {
    assert Drop(tl, 0.0) == tl;
  }

  /** How a plan renders on the content: the trims of its head and tail, head first. */
  lemma ExciseCases(tl: Timeline, start: real, end: real, total: real)
    ensures start > 0.0 && end < total ==> Excise(tl, start, end, total) == Take(tl, start) + Trim(tl, end, total)
    ensures start > 0.0 && end >= total ==> Excise(tl, start, end, total) == Take(tl, start)
    ensures start <= 0.0 && end < total ==> Excise(tl, start, end, total) == Trim(tl, end, total)
    ensures start <= 0.0 && end >= total ==> Excise(tl, start, end, total) == tl
  {
    TrimFromZero(tl, start);
    if start > 0.0 && end < total {
      assert KeepSegments(start, end, total) == [Head(start), Tail(end, total)];
      CutTwo(tl, Head(start), Tail(end, total));
    } else if start > 0.0 {
      assert KeepSegments(start, end, total) == [Head(start)];
      CutOne(tl, Head(start));
    } else if end < total {
      assert KeepSegments(start, end, total) == [Tail(end, total)];
      CutOne(tl, Tail(end, total));
    } else {
      assert KeepSegments(start, end, total) == [];
    }
  }

  /** An interval that covers the whole reported duration leaves the content as it was. */
  lemma ExciseWholeFile(tl: Timeline, start: real, end: real, total: real)
    requires start <= 0.0 && end >= total
    ensures KeepSegments(start, end, total) == []
    ensures Excise(tl, start, end, total) == tl
  {
  }

  /** Removing [start, end] never changes the first `start` seconds. */
  lemma ExciseKeepsPrefix(tl: Timeline, start: real, end: real, total: real)
    requires Valid(tl) && start <= end
    ensures Take(Excise(tl, start, end, total), start) == Take(tl, start)
  {
    ExciseCases(tl, start, end, total);
    var r := Excise(tl, start, end, total);
    if start > 0.0 {
      var head := Take(tl, start);
      var tail := if end < total then Trim(tl, end, total) else [];
      assert r == head + tail;
      DurationNonNegative(tl);
      if start <= Duration(tl) {
        TakeValid(tl, start);
        TakeAppend(head, tail, start);
        TakeTake(tl, start, start);
      } else {
        TakeAll(tl, start);
        if end < total {
          TrimPastEnd(tl, end, total);
        }
        assert r == tl;
      }
    }
  }

  /**
   * With an honest probe and an interval inside the file that does not
   * cover all of it, the result is the content before the interval followed
   * by the content after it: the interval is gone and nothing is reordered.
   */
  lemma ExciseRemovesInterval(tl: Timeline, start: real, end: real)
    requires Valid(tl) && 0.0 <= start <= end <= Duration(tl)
    requires start > 0.0 || end < Duration(tl)
    ensures Excise(tl, start, end, Duration(tl)) == Take(tl, start) + Drop(tl, end)
    ensures Duration(Excise(tl, start, end, Duration(tl))) == Duration(tl) - (end - start)
  {
    var d := Duration(tl);
    ExciseCases(tl, start, end, d);
    TrimToEnd(tl, end);
    if start > 0.0 && end >= d {
      DropAll(tl, end);
      assert Take(tl, start) + Drop(tl, end) == Take(tl, start);
    } else if start <= 0.0 {
      assert Take(tl, start) == [];
      assert Take(tl, start) + Drop(tl, end) == Drop(tl, end);
    }
    TakeValid(tl, start);
    DropValid(tl, end);
    DurationAppend(Take(tl, start), Drop(tl, end));
  }

  /**
   * A probe whose output does not parse reports 0.0, so for an interval that
   * ends at or after 0 no tail is kept: everything after `start` is lost
   * (or, when the interval starts at 0, the file is copied verbatim).
   */
  lemma ExciseAfterFailedProbe(tl: Timeline, start: real, end: real, stdout: string, parseFloat: string -> Option<real>)
    requires parseFloat(Strip(stdout)).None? && end >= 0.0
    ensures DurationFromProbe(stdout, parseFloat) == 0.0
    ensures Excise(tl, start, end, DurationFromProbe(stdout, parseFloat)) == if start > 0.0 then Take(tl, start) else tl
  {
    ExciseCases(tl, start, end, 0.0);
  }

  /**
   * When the margin pushes the start past the end (a margin longer than the
   * silence), head and tail overlap and the stretch between end and start is
   * played twice.
   */
  lemma OverlapPlaysTwice(tl: Timeline, start: real, end: real)
    requires Valid(tl) && 0.0 <= end < start <= Duration(tl)
    ensures Excise(tl, start, end, Duration(tl)) == Take(tl, start) + Drop(tl, end)
    ensures Duration(Excise(tl, start, end, Duration(tl))) == Duration(tl) + (start - end)
  {
    ExciseCases(tl, start, end, Duration(tl));
    TrimToEnd(tl, end);
    TakeValid(tl, start);
    DropValid(tl, end);
    DurationAppend(Take(tl, start), Drop(tl, end));
  }

  // ---------------------------------------------------------------------
  // The sequential executor's effect
  // ---------------------------------------------------------------------

  /** The content after removing the intervals one by one, re-probing the current content each time. */
  function ApplyAll(tl: Timeline, intervals: seq<Interval>, total: Timeline -> real): (r: Timeline)
    ensures Valid(tl) ==> Valid(r)
    decreases |intervals|
  {
    if intervals == [] then tl
    else
      var prev := ApplyAll(tl, intervals[..|intervals| - 1], total);
      var iv := intervals[|intervals| - 1];
      Excise(prev, iv.start, iv.end, total(prev))
  }

  /** With no interval detected the content is unchanged. */
  lemma ApplyNone(tl: Timeline, total: Timeline -> real)
    ensures ApplyAll(tl, [], total) == tl
  {
  }

  /**
   * After the first k intervals of a latest-first list, the content before
   * the k-th interval's start is still the original content, whatever the
   * probe reports.
   */
  lemma {:induction false} LatestFirstKeepsPrefix(tl: Timeline, intervals: seq<Interval>, total: Timeline -> real, k: nat)
    requires Valid(tl) && LatestFirst(intervals)
    requires 0 < k <= |intervals|
    ensures Take(ApplyAll(tl, intervals[..k], total), intervals[k - 1].start) == Take(tl, intervals[k - 1].start)
    decreases k
  {
    var ivs := intervals[..k];
    var prev := ApplyAll(tl, ivs[..k - 1], total);
    var iv := intervals[k - 1];
    assert ivs[..k - 1] == intervals[..k - 1];
    ExciseKeepsPrefix(prev, iv.start, iv.end, total(prev));
    if k > 1 {
      var before := intervals[k - 2];
      LatestFirstKeepsPrefix(tl, intervals, total, k - 1);
      assert iv.start <= iv.end <= before.start;
      TakeTake(prev, before.start, iv.start);
      TakeTake(tl, before.start, iv.start);
    } else {
      assert ivs[..0] == [];
    }
  }

  /**
   * The claim behind latest-first ordering: when interval j comes up
   * (after the k intervals before it, k <= j), the span it names in the
   * current file holds exactly what it held in the original file.
   */
  lemma PendingIntervalUntouched(tl: Timeline, intervals: seq<Interval>, total: Timeline -> real, k: nat, j: nat)
    requires Valid(tl) && LatestFirst(intervals)
    requires k <= j < |intervals|
    ensures Trim(ApplyAll(tl, intervals[..k], total), intervals[j].start, intervals[j].end)
         == Trim(tl, intervals[j].start, intervals[j].end)
  {
    if k == 0 {
      assert intervals[..0] == [];
    } else {
      LatestFirstKeepsPrefix(tl, intervals, total, k);
      TrimOfCommonPrefix(ApplyAll(tl, intervals[..k], total), tl, intervals[k - 1].start,
                         intervals[j].start, intervals[j].end);
    }
  }

  /**
   * A probe whose output, on every content the run hands it, parses to that
   * content's true duration makes the executor's view honest on that run.
   */
  lemma HonestProbe(tl: Timeline, intervals: seq<Interval>, probe: Timeline -> string, parseFloat: string -> Option<real>)
    requires forall k :: 0 <= k < |intervals| ==>
      parseFloat(Strip(probe(ApplyAll(tl, intervals[..k], ProbedTotal(probe, parseFloat)))))
      == Some(Duration(ApplyAll(tl, intervals[..k], ProbedTotal(probe, parseFloat))))
    ensures HonestOn(ProbedTotal(probe, parseFloat), tl, intervals)
  {
    var total := ProbedTotal(probe, parseFloat);
    forall k | 0 <= k < |intervals|
      ensures total(ApplyAll(tl, intervals[..k], total)) == Duration(ApplyAll(tl, intervals[..k], total))
    {
      var t := ApplyAll(tl, intervals[..k], total);
      assert parseFloat(Strip(probe(t))) == Some(Duration(t));
      assert total(t) == DurationFromProbe(probe(t), parseFloat);
    }
  }

  /** A prober that prints "10" whatever it is given, and a float() that reads 10.0 from anything. */
  function PrintsTen(t: Timeline): string { "10" }
  function ReadsTen(s: string): Option<real> { Some(10.0) }

  /** On a ten-second file, the one content a one-interval run probes is measured truly. */
  lemma HonestOnExample()
    ensures HonestOn(ProbedTotal(PrintsTen, ReadsTen), [Piece(0.0, 10.0)], [Interval(2.0, 5.0)])
  {
    var tl := [Piece(0.0, 10.0)];
    var ivs := [Interval(2.0, 5.0)];
    var total := ProbedTotal(PrintsTen, ReadsTen);
    assert ivs[..0] == [];
    assert ApplyAll(tl, ivs[..0], total) == tl;
    assert total(tl) == DurationFromProbe(PrintsTen(tl), ReadsTen) == 10.0;
    assert Duration(tl) == 10.0 + Duration(tl[1..]);
  }

  /** The total length of the intervals, summed in list order. */
  function Removed(intervals: seq<Interval>): real
    decreases |intervals|
  {
    if intervals == [] then 0.0
    else Removed(intervals[..|intervals| - 1]) + (intervals[|intervals| - 1].end - intervals[|intervals| - 1].start)
  }

  /**
   * The probe reports the true duration of every content the run hands it:
   * the original, and the result after each of the intervals but the last.
   */
  predicate HonestOn(total: Timeline -> real, tl: Timeline, intervals: seq<Interval>) {
    forall k :: 0 <= k < |intervals| ==> total(ApplyAll(tl, intervals[..k], total)) == Duration(ApplyAll(tl, intervals[..k], total))
  }

  /**
   * Every interval lies inside the original file and none covers the whole
   * of what is left when its turn comes: it starts after 0, or it ends
   * before the interval applied just before it (before the end of the file,
   * for the first one).
   */
  predicate Removable(intervals: seq<Interval>, d: real) {
    && (|intervals| > 0 ==> intervals[0].end <= d)
    && (forall i {:trigger intervals[i]} :: 0 <= i < |intervals| ==>
          intervals[i].start > 0.0 || intervals[i].end < (if i == 0 then d else intervals[i - 1].start))
  }

  /**
   * Step k of such a run: the interval lies within what is left and does not
   * cover all of it, so the step leaves the original content up to the
   * interval's start followed by what the content so far held after its end.
   */
  lemma HonestApplyStep(tl: Timeline, intervals: seq<Interval>, total: Timeline -> real, k: nat)
    requires Valid(tl) && LatestFirst(intervals) && HonestOn(total, tl, intervals) && Removable(intervals, Duration(tl))
    requires k < |intervals|
    ensures var prev := ApplyAll(tl, intervals[..k], total);
      && 0.0 <= intervals[k].start <= intervals[k].end <= Duration(prev)
      && (intervals[k].start > 0.0 || intervals[k].end < Duration(prev))
      && ApplyAll(tl, intervals[..k + 1], total) == Take(tl, intervals[k].start) + Drop(prev, intervals[k].end)
  {
    var prev := ApplyAll(tl, intervals[..k], total);
    var iv := intervals[k];
    var d := Duration(tl);
    if k == 0 {
      assert intervals[..0] == [];
      assert prev == tl;
      assert iv.start > 0.0 || iv.end < d;
    } else {
      var before := intervals[k - 1];
      LatestFirstKeepsPrefix(tl, intervals, total, k);
      DurationNonNegative(tl);
      DurationNonNegative(prev);
      if k - 1 > 0 {
        assert before.end <= intervals[0].start;
      }
      assert before.start <= d;
      TakeValid(tl, before.start);
      TakeValid(prev, before.start);
      assert Duration(Take(tl, before.start)) == before.start;
      assert before.start <= Duration(prev);
      assert iv.start > 0.0 || iv.end < before.start;
      TakeTake(prev, before.start, iv.start);
      TakeTake(tl, before.start, iv.start);
    }
    assert total(prev) == Duration(prev);
    ApplyAllStep(tl, intervals, total, k);
    ExciseRemovesInterval(prev, iv.start, iv.end);
  }

  /**
   * With an honest probe, removing removable latest-first intervals one by
   * one shortens the content by exactly their total length.
   */
  lemma {:induction false} HonestApplyRemovesAll(tl: Timeline, intervals: seq<Interval>, total: Timeline -> real, k: nat)
    requires Valid(tl) && LatestFirst(intervals) && HonestOn(total, tl, intervals) && Removable(intervals, Duration(tl))
    requires k <= |intervals|
    ensures Duration(ApplyAll(tl, intervals[..k], total)) == Duration(tl) - Removed(intervals[..k])
    decreases k
  {
    if k == 0 {
      assert intervals[..0] == [];
    } else {
      var ivs := intervals[..k];
      assert ivs[..k - 1] == intervals[..k - 1];
      var prev := ApplyAll(tl, intervals[..k - 1], total);
      var iv := intervals[k - 1];
      HonestApplyRemovesAll(tl, intervals, total, k - 1);
      HonestApplyStep(tl, intervals, total, k - 1);
      assert total(prev) == Duration(prev);
      ExciseRemovesInterval(prev, iv.start, iv.end);
    }
  }

  /** The whole list: the result is as long as the original minus the silences. */
  lemma HonestApplyDuration(tl: Timeline, intervals: seq<Interval>, total: Timeline -> real)
    requires Valid(tl) && LatestFirst(intervals) && HonestOn(total, tl, intervals) && Removable(intervals, Duration(tl))
    ensures Duration(ApplyAll(tl, intervals, total)) == Duration(tl) - Removed(intervals)
  {
    HonestApplyRemovesAll(tl, intervals, total, |intervals|);
    assert intervals[..|intervals|] == intervals;
  }

  /** One more interval is one more excision of the content so far. */
  lemma ApplyAllStep(tl: Timeline, intervals: seq<Interval>, total: Timeline -> real, i: nat)
    requires i < |intervals|
    ensures var prev := ApplyAll(tl, intervals[..i], total);
      ApplyAll(tl, intervals[..i + 1], total) == Excise(prev, intervals[i].start, intervals[i].end, total(prev))
  {
    assert intervals[..i + 1][..i] == intervals[..i];
  }

  /**
   * Removable latest-first intervals under an honest probe: the content
   * shrinks by their total length, and each interval, when its turn comes,
   * still names the original content.
   */
  lemma LatestFirstRun(tl: Timeline, intervals: seq<Interval>, total: Timeline -> real)
    requires Valid(tl) && LatestFirst(intervals) && HonestOn(total, tl, intervals) && Removable(intervals, Duration(tl))
    ensures Duration(ApplyAll(tl, intervals, total)) == Duration(tl) - Removed(intervals)
    ensures forall k, j :: 0 <= k <= j < |intervals| ==>
      Trim(ApplyAll(tl, intervals[..k], total), intervals[j].start, intervals[j].end)
      == Trim(tl, intervals[j].start, intervals[j].end)
  {
    HonestApplyDuration(tl, intervals, total);
    forall k, j | 0 <= k <= j < |intervals|
      ensures Trim(ApplyAll(tl, intervals[..k], total), intervals[j].start, intervals[j].end)
           == Trim(tl, intervals[j].start, intervals[j].end)
    {
      PendingIntervalUntouched(tl, intervals, total, k, j);
    }
  }

  /**
   * The whole run on a detector log of chronological, non-overlapping
   * silences longer than the margin, with a probe that reports the true
   * duration: the result is shorter by exactly the detected intervals, and
   * every interval, when its turn comes, still names the original content.
   */
  lemma DetectedRun(tl: Timeline, log: string, margin: real, toReal: string -> real,
                                probe: Timeline -> string, parseFloat: string -> Option<real>)
    requires Valid(tl) && 0.0 <= margin
    requires var starts := Collect(SplitLines(log), StartMarker, toReal);
      var ends := Collect(SplitLines(log), EndMarker, toReal);
      && Chronological(starts, ends)
      && forall k :: 0 <= k < |starts| ==> starts[k] + margin <= ends[k]
    requires Removable(DetectedIntervals(log, margin, toReal), Duration(tl))
    requires HonestOn(ProbedTotal(probe, parseFloat), tl, DetectedIntervals(log, margin, toReal))
    ensures var ivs := DetectedIntervals(log, margin, toReal);
      && |ivs| == |Collect(SplitLines(log), StartMarker, toReal)|
      && Duration(ApplyAll(tl, ivs, ProbedTotal(probe, parseFloat))) == Duration(tl) - Removed(ivs)
      && (forall k :: 0 <= k < |ivs| ==>
           ApplyAll(tl, ivs[..k + 1], ProbedTotal(probe, parseFloat))
           == Take(tl, ivs[k].start) + Drop(ApplyAll(tl, ivs[..k], ProbedTotal(probe, parseFloat)), ivs[k].end))
      && forall k, j :: 0 <= k <= j < |ivs| ==>
           Trim(ApplyAll(tl, ivs[..k], ProbedTotal(probe, parseFloat)), ivs[j].start, ivs[j].end)
           == Trim(tl, ivs[j].start, ivs[j].end)
  {
    var starts := Collect(SplitLines(log), StartMarker, toReal);
    var ends := Collect(SplitLines(log), EndMarker, toReal);
    var ivs := DetectedIntervals(log, margin, toReal);
    assert ivs == Normalize(starts, ends, margin);
    ChronologicalGivesLatestFirst(starts, ends, margin);
    LatestFirstRun(tl, ivs, ProbedTotal(probe, parseFloat));
    forall k | 0 <= k < |ivs|
      ensures ApplyAll(tl, ivs[..k + 1], ProbedTotal(probe, parseFloat))
           == Take(tl, ivs[k].start) + Drop(ApplyAll(tl, ivs[..k], ProbedTotal(probe, parseFloat)), ivs[k].end)
    {
      HonestApplyStep(tl, ivs, ProbedTotal(probe, parseFloat), k);
    }
  }
}
