/**
 * audio_silence_remover.py: remove_silence_segment, which rewrites the WAV
 * file in place without one interval, and process_audio_file, which runs the
 * detector once and then removes every reported interval, latest first.
 * The file is a `WavFile` object whose content the methods replace.
 */
module AudioRemover {
  import opened Wrappers
  import opened Text
  import opened Timeline
  import opened SilenceDetect
  import opened Excision

  /** The pad of the kept head and of the kept tail. */
  const HeadPad: string := "a1"
  const TailPad: string := "a2"

  /** The pad a kept segment's trim writes: "a1" for the head, "a2" for the tail, whether or not a head is kept. */
  function SegmentPad(seg: Segment): string {
    if seg.Head? then HeadPad else TailPad
  }

  /** The audio trims of a plan, each into its segment's pad. */
  function AudioFilters(p: seq<Segment>): seq<TrimFilter> {
    seq(|p|, k requires 0 <= k < |p| => TrimFilter(AudioStream, p[k], SegmentPad(p[k])))
  }

  /** The pad names of a plan, in plan order. */
  function AudioLabels(p: seq<Segment>): seq<string> {
    seq(|p|, k requires 0 <= k < |p| => SegmentPad(p[k]))
  }

  /**
   * The filters and pad names remove_silence_segment builds: an audio trim
   * of [0, start] into "a1" when start > 0, then an audio trim of
   * [end, total] into "a2" when end < total.
   */
  method PlanAudio(start: real, end: real, total: real) returns (filters: seq<TrimFilter>, segments: seq<string>)
    ensures |filters| == |segments| <= 2
    ensures |segments| == 2 ==> segments == [HeadPad, TailPad]
    ensures StreamSegments(filters, AudioStream) == KeepSegments(start, end, total)
    ensures forall k :: 0 <= k < |filters| ==> filters[k].stream == AudioStream && filters[k].pad == segments[k]
    ensures forall k :: 0 <= k < |filters| ==> segments[k] == if filters[k].seg.Head? then HeadPad else TailPad
    ensures filters == AudioFilters(KeepSegments(start, end, total))
    ensures segments == AudioLabels(KeepSegments(start, end, total))
  {
    filters := [];
    segments := [];
    if start > 0.0 {
      filters := filters + [TrimFilter(AudioStream, Head(start), HeadPad)];
      segments := segments + [HeadPad];
    }
    if end < total {
      var before := filters;
      filters := filters + [TrimFilter(AudioStream, Tail(end, total), TailPad)];
      segments := segments + [TailPad];
      StreamSegmentsAppend(before, [TrimFilter(AudioStream, Tail(end, total), TailPad)], AudioStream);
      StreamSegmentsOne(TrimFilter(AudioStream, Tail(end, total), TailPad), AudioStream);
    }
    if start > 0.0 {
      StreamSegmentsAppend([], [TrimFilter(AudioStream, Head(start), HeadPad)], AudioStream);
      StreamSegmentsOne(TrimFilter(AudioStream, Head(start), HeadPad), AudioStream);
    }
    var p := KeepSegments(start, end, total);
    if start > 0.0 && end < total {
      assert p == [Head(start), Tail(end, total)];
    } else if start > 0.0 {
      assert p == [Head(start)];
    } else if end < total {
      assert p == [Tail(end, total)];
    } else {
      assert p == [];
    }
  }

  /** The concatenation of two pads, in that order, into the pad "out". */
  function ConcatPads(first: string, second: string): (r: string)
    ensures StartsWith(r, "[" + first + "][" + second + "]concat=n=2")
    ensures EndsWith(r, "[out]")
  {
    var inputs := "[" + first + "][" + second + "]concat=n=2";
    ConcatThreeEnds(inputs, ":v=0:a=1", "[out]");
    inputs + ":v=0:a=1" + "[out]"
  }

  /**
   * The request remove_silence_segment makes of the engine: a verbatim copy
   * when nothing is kept, the single trim mapped by its pad, or both trims
   * joined by "; " and concatenated into "out". In every graph the mapped
   * pad is the one the graph writes last.
   */
  function AudioEdit(filters: seq<TrimFilter>, segments: seq<string>, show: real -> string): (req: EditRequest)
    requires |filters| == |segments| <= 2
    requires forall k :: 0 <= k < |filters| ==> filters[k].pad == segments[k]
    ensures req == CopyVerbatim <==> segments == []
    ensures req.FilterGraph? ==> |req.mapArgs| == 2 && req.mapArgs[0] == "-map" && EndsWith(req.graph, req.mapArgs[1])
    ensures |segments| == 1 ==> req.mapArgs == ["-map", "[" + segments[0] + "]"]
    ensures |segments| == 2 ==> req.mapArgs == ["-map", "[out]"]
  {
    if segments == [] then CopyVerbatim
    else if |segments| == 1 then FilterGraph(RenderTrim(filters[0], show), ["-map", "[" + segments[0] + "]"])
    else
      var last := ConcatPads(segments[0], segments[1]);
      var lead := Join(RenderAll(filters, show), "; ") + "; ";
      EndsAfter(lead, last, "[out]");
      FilterGraph(lead + last, ["-map", "[out]"])
  }

  /**
   * The two-segment graph splits at ';' into the head trim, the tail trim and
   * the concatenation, each of the later two behind one space, as long as no
   * rendered number holds ';'.
   */
  lemma AudioGraphParts(head: TrimFilter, tail: TrimFilter, show: real -> string)
    requires forall x :: ';' !in show(x)
    requires head.pad == HeadPad && tail.pad == TailPad
    ensures var req := AudioEdit([head, tail], [HeadPad, TailPad], show);
      Split(req.graph, ';') == Spaced([RenderTrim(head, show), RenderTrim(tail, show), ConcatPads(HeadPad, TailPad)])
  {
    var rendered := RenderAll([head, tail], show);
    var last := ConcatPads(HeadPad, TailPad);
    var parts := rendered + [last];
    assert rendered[1..] == [RenderTrim(tail, show)];
    assert Join(rendered, "; ") == RenderTrim(head, show) + "; " + RenderTrim(tail, show);
    JoinAppend(rendered, last, "; ");
    assert AudioEdit([head, tail], [HeadPad, TailPad], show).graph == Join(parts, [';', ' ']);
    RenderTrimNoSemicolon(head, show);
    RenderTrimNoSemicolon(tail, show);
    ConcatPadsNoSemicolon(HeadPad, TailPad);
    SplitJoinSpaced(parts, ';');
    assert parts == [RenderTrim(head, show), RenderTrim(tail, show), last];
  }

  /**
   * With one segment kept the graph is that segment's trim alone, mapped by
   * the pad it writes: "a1" for a head, "a2" for a tail.
   */
  lemma AudioGraphOne(start: real, end: real, total: real, show: real -> string)
    requires forall x :: ';' !in show(x)
    requires |KeepSegments(start, end, total)| == 1
    ensures var p := KeepSegments(start, end, total);
      var f := if start > 0.0 then TrimFilter(AudioStream, Head(start), HeadPad)
               else TrimFilter(AudioStream, Tail(end, total), TailPad);
      var req := AudioEdit(AudioFilters(p), AudioLabels(p), show);
      && req.graph == RenderTrim(f, show)
      && Split(req.graph, ';') == [RenderTrim(f, show)]
      && req.mapArgs == ["-map", "[" + f.pad + "]"]
  {
    var p := KeepSegments(start, end, total);
    var f := if start > 0.0 then TrimFilter(AudioStream, Head(start), HeadPad)
             else TrimFilter(AudioStream, Tail(end, total), TailPad);
    assert p == [f.seg];
    assert AudioFilters(p) == [f];
    assert AudioLabels(p) == [f.pad];
    RenderTrimNoSemicolon(f, show);
    SplitNoSeparator(RenderTrim(f, show), ';');
  }

  /** With head and tail kept, the graph splits into the head trim, the tail trim and their concatenation. */
  lemma AudioGraphTwo(start: real, end: real, total: real, show: real -> string)
    requires forall x :: ';' !in show(x)
    requires start > 0.0 && end < total
    ensures var p := KeepSegments(start, end, total);
      Split(AudioEdit(AudioFilters(p), AudioLabels(p), show).graph, ';')
      == Spaced([RenderTrim(TrimFilter(AudioStream, Head(start), HeadPad), show),
                 RenderTrim(TrimFilter(AudioStream, Tail(end, total), TailPad), show),
                 ConcatPads(HeadPad, TailPad)])
  {
    var p := KeepSegments(start, end, total);
    var head := TrimFilter(AudioStream, Head(start), HeadPad);
    var tail := TrimFilter(AudioStream, Tail(end, total), TailPad);
    assert p == [Head(start), Tail(end, total)];
    assert AudioFilters(p) == [head, tail];
    assert AudioLabels(p) == [HeadPad, TailPad];
    AudioGraphParts(head, tail, show);
  }

  lemma ConcatPadsNoSemicolon(first: string, second: string)
    requires ';' !in first && ';' !in second
    ensures ';' !in ConcatPads(first, second)
  {
    assert ';' !in "concat=n=2:v=0:a=1";
    assert ';' !in "[out]";
  }

  /** The request remove_silence_segment makes for one interval of a file of the given length. */
  function IntervalRequest(iv: Interval, total: real, show: real -> string): (req: EditRequest)
    ensures req == CopyVerbatim <==> KeepSegments(iv.start, iv.end, total) == []
  {
    var p := KeepSegments(iv.start, iv.end, total);
    AudioEdit(AudioFilters(p), AudioLabels(p), show)
  }

  /**
   * The request for interval k of a run over the file: the one for that
   * interval on the file as it is after the intervals before it, at the
   * length the probe reports for it.
   */
  function RunRequest(tl: Timeline, intervals: seq<Interval>, k: nat, probe: Timeline -> string,
                      parseFloat: string -> Option<real>, show: real -> string): EditRequest
    requires k < |intervals|
  {
    var total := ProbedTotal(probe, parseFloat);
    IntervalRequest(intervals[k], total(ApplyAll(tl, intervals[..k], total)), show)
  }

  /** The requests for the first n intervals of a run, in order. */
  function RunRequests(tl: Timeline, intervals: seq<Interval>, n: nat, probe: Timeline -> string,
                       parseFloat: string -> Option<real>, show: real -> string): (r: seq<EditRequest>)
    requires n <= |intervals|
    ensures |r| == n
  {
    if n == 0 then [] else RunRequests(tl, intervals, n - 1, probe, parseFloat, show) + [RunRequest(tl, intervals, n - 1, probe, parseFloat, show)]
  }

  /** The WAV file the remover works on, by what it currently plays. */
  class WavFile {
    var content: Timeline

    /** The file as the conversion to WAV left it. */
    constructor(converted: Timeline)
      ensures content == converted
    {
      content := converted;
    }

    /**
     * remove_silence_segment: probe the current duration (0.0 when the probe
     * output does not parse), plan the kept segments, and replace the file
     * with what the engine makes of them; copy it unchanged when none is kept.
     */
    method RemoveSilenceSegment(start: real, end: real, probe: Timeline -> string,
                                parseFloat: string -> Option<real>, show: real -> string)
      returns (req: EditRequest)
      modifies this
      ensures var total := DurationFromProbe(probe(old(content)), parseFloat);
        && content == Excise(old(content), start, end, total)
        && req == AudioEdit(AudioFilters(KeepSegments(start, end, total)), AudioLabels(KeepSegments(start, end, total)), show)
        && req == IntervalRequest(Interval(start, end), total, show)
        && (req == CopyVerbatim <==> KeepSegments(start, end, total) == [])
        && (req.FilterGraph? ==> |req.mapArgs| == 2 && EndsWith(req.graph, req.mapArgs[1]))
    {
      var total := DurationFromProbe(probe(content), parseFloat);
      var filters, segments := PlanAudio(start, end, total);
      req := AudioEdit(filters, segments, show);
      if segments != [] {
        content := Cut(content, StreamSegments(filters, AudioStream));
      }
    }

    /**
     * The loop of process_audio_file: every interval, in list order, is
     * removed from the file as it is after the ones before it.
     */
    method ProcessIntervals(intervals: seq<Interval>, probe: Timeline -> string,
                            parseFloat: string -> Option<real>, show: real -> string)
      returns (requests: seq<EditRequest>)
      modifies this
      ensures content == ApplyAll(old(content), intervals, ProbedTotal(probe, parseFloat))
      ensures |requests| == |intervals|
      ensures requests == RunRequests(old(content), intervals, |intervals|, probe, parseFloat, show)
    {
      requests := [];
      ghost var original := content;
      for i := 0 to |intervals|
        invariant content == ApplyAll(original, intervals[..i], ProbedTotal(probe, parseFloat))
        invariant |requests| == i
        invariant requests == RunRequests(original, intervals, i, probe, parseFloat, show)
      {
        ghost var prev := content;
        var req := RemoveSilenceSegment(intervals[i].start, intervals[i].end, probe, parseFloat, show);
        ApplyAllStep(original, intervals, ProbedTotal(probe, parseFloat), i);
        assert ProbedTotal(probe, parseFloat)(prev) == DurationFromProbe(probe(prev), parseFloat);
        assert req == RunRequest(original, intervals, i, probe, parseFloat, show);
        requests := requests + [req];
      }
      assert intervals[..|intervals|] == intervals;
    }

    /**
     * process_audio_file after the conversion: run the detector with the
     * suffixed threshold and minimum length on the file, turn its log into
     * intervals, and remove them one by one.
     */
    method ProcessAudioFile(detector: (string, Timeline) -> string, noise: string, minDuration: real, margin: real,
                            toReal: string -> real, probe: Timeline -> string,
                            parseFloat: string -> Option<real>, show: real -> string)
      returns (requests: seq<EditRequest>)
      modifies this
      ensures var log := detector(DetectFilter(noise, minDuration, show), old(content));
        var intervals := DetectedIntervals(log, margin, toReal);
        && content == ApplyAll(old(content), intervals, ProbedTotal(probe, parseFloat))
        && requests == RunRequests(old(content), intervals, |intervals|, probe, parseFloat, show)
    {
      var log := detector(DetectFilter(noise, minDuration, show), content);
      var intervals := DetectSilenceIntervals(log, margin, toReal);
      requests := ProcessIntervals(intervals, probe, parseFloat, show);
    }
  }
}
