/**
 * video_silence_remover.py: remove_silence_segment_video, which trims the
 * video and the audio stream of the working file to the same kept segments
 * and concatenates them pairwise, and process_video_file, which detects the
 * silences once on the extracted audio and then removes every interval.
 * The working file is a `VideoFile` object holding what each stream plays.
 */
module VideoRemover {
  import opened Wrappers
  import opened Text
  import opened Timeline
  import opened SilenceDetect
  import opened Excision

  /** The pad of the k-th kept segment (from 1) on the video and on the audio stream. */
  function VideoPad(k: nat): string {
    "v" + NatToString(k)
  }

  function AudioPad(k: nat): string {
    "a" + NatToString(k)
  }

  /** The pads of the first n segments on each stream. */
  function VideoPads(n: nat): (r: seq<string>)
    ensures |r| == n && forall k :: 0 <= k < n ==> r[k] == VideoPad(k + 1)
  {
    seq(n, k requires 0 <= k => VideoPad(k + 1))
  }

  function AudioPads(n: nat): (r: seq<string>)
    ensures |r| == n && forall k :: 0 <= k < n ==> r[k] == AudioPad(k + 1)
  {
    seq(n, k requires 0 <= k => AudioPad(k + 1))
  }

  /** A pad name never holds ';'. */
  lemma PadNoSemicolon(k: nat)
    ensures ';' !in VideoPad(k) && ';' !in AudioPad(k)
  {
    var digits := NatToString(k);
    assert forall j :: 0 <= j < |digits| ==> digits[j] != ';';
    assert VideoPad(k) == ['v'] + digits;
    assert AudioPad(k) == ['a'] + digits;
  }

  /** The filters of one kept segment: the video trim first, then the audio trim, same bounds. */
  function SegmentFilters(seg: Segment, k: nat): seq<TrimFilter> {
    [TrimFilter(VideoStream, seg, VideoPad(k)), TrimFilter(AudioStream, seg, AudioPad(k))]
  }

  /** The filters for a plan whose first segment is numbered `from`. */
  function PlanFilters(p: seq<Segment>, from: nat): (r: seq<TrimFilter>)
    ensures |r| == 2 * |p|
    decreases |p|
  {
    if p == [] then [] else SegmentFilters(p[0], from) + PlanFilters(p[1..], from + 1)
  }

  /** Filter 2k is the video trim and filter 2k + 1 the audio trim of segment k. */
  lemma {:induction false} PlanFiltersAt(p: seq<Segment>, from: nat, k: nat)
    requires k < |p|
    ensures PlanFilters(p, from)[2 * k] == TrimFilter(VideoStream, p[k], VideoPad(k + from))
    ensures PlanFilters(p, from)[2 * k + 1] == TrimFilter(AudioStream, p[k], AudioPad(k + from))
    decreases k
  {
    if k > 0 {
      PlanFiltersAt(p[1..], from + 1, k - 1);
    }
  }

  /** Both streams are trimmed to exactly the plan's segments, in order. */
  lemma {:induction false} PlanStreams(p: seq<Segment>, from: nat)
    ensures StreamSegments(PlanFilters(p, from), VideoStream) == p
    ensures StreamSegments(PlanFilters(p, from), AudioStream) == p
    decreases |p|
  {
    if p != [] {
      var first := SegmentFilters(p[0], from);
      PlanStreams(p[1..], from + 1);
      SegmentFiltersStreams(p[0], from);
      StreamSegmentsAppend(first, PlanFilters(p[1..], from + 1), VideoStream);
      StreamSegmentsAppend(first, PlanFilters(p[1..], from + 1), AudioStream);
      assert [p[0]] + p[1..] == p;
    }
  }

  lemma SegmentFiltersStreams(seg: Segment, k: nat)
    ensures StreamSegments(SegmentFilters(seg, k), VideoStream) == [seg]
    ensures StreamSegments(SegmentFilters(seg, k), AudioStream) == [seg]
  {
    var first := SegmentFilters(seg, k);
    assert first == [first[0]] + [first[1]];
    StreamSegmentsAppend([first[0]], [first[1]], VideoStream);
    StreamSegmentsAppend([first[0]], [first[1]], AudioStream);
    StreamSegmentsOne(first[0], VideoStream);
    StreamSegmentsOne(first[1], VideoStream);
    StreamSegmentsOne(first[0], AudioStream);
    StreamSegmentsOne(first[1], AudioStream);
  }

  /**
   * The planner of remove_silence_segment_video with its running segment
   * index: for every kept segment, in order, a video trim and an audio trim
   * of the same bounds into pads numbered from 1.
   */
  method PlanVideo(start: real, end: real, total: real)
    returns (filters: seq<TrimFilter>, vSegments: seq<string>, aSegments: seq<string>)
    ensures filters == PlanFilters(KeepSegments(start, end, total), 1)
    ensures vSegments == VideoPads(|KeepSegments(start, end, total)|)
    ensures aSegments == AudioPads(|KeepSegments(start, end, total)|)
  {
    filters := [];
    vSegments := [];
    aSegments := [];
    var segIndex := 1;
    if start > 0.0 {
      filters := filters + SegmentFilters(Head(start), segIndex);
      vSegments := vSegments + [VideoPad(segIndex)];
      aSegments := aSegments + [AudioPad(segIndex)];
      segIndex := segIndex + 1;
    }
    if end < total {
      filters := filters + SegmentFilters(Tail(end, total), segIndex);
      vSegments := vSegments + [VideoPad(segIndex)];
      aSegments := aSegments + [AudioPad(segIndex)];
    }
    var p := KeepSegments(start, end, total);
    if start > 0.0 && end < total {
      assert p == [Head(start), Tail(end, total)];
      assert p[1..] == [Tail(end, total)];
      assert PlanFilters(p[1..], 2) == SegmentFilters(Tail(end, total), 2) + PlanFilters([], 3);
    } else if start > 0.0 {
      assert p == [Head(start)];
    } else if end < total {
      assert p == [Tail(end, total)];
    } else {
      assert p == [];
    }
  }

  /**
   * The running index numbers the head 1, and the tail 2 after a head but 1
   * without one; both trims of a segment carry the same bounds and number.
   */
  lemma PlanLabels(start: real, end: real, total: real)
    ensures var f := PlanFilters(KeepSegments(start, end, total), 1);
      && (start > 0.0 ==>
            && f[0] == TrimFilter(VideoStream, Head(start), VideoPad(1))
            && f[1] == TrimFilter(AudioStream, Head(start), AudioPad(1)))
      && (end < total ==>
            var k := if start > 0.0 then 1 else 0;
            && f[2 * k] == TrimFilter(VideoStream, Tail(end, total), VideoPad(k + 1))
            && f[2 * k + 1] == TrimFilter(AudioStream, Tail(end, total), AudioPad(k + 1)))
  {
    var p := KeepSegments(start, end, total);
    PlanShape(start, end, total);
    if start > 0.0 {
      PlanFiltersAt(p, 1, 0);
    }
    if end < total {
      var k := if start > 0.0 then 1 else 0;
      assert p[k] == Tail(end, total);
      PlanFiltersAt(p, 1, k);
    }
  }

  /**
   * The pairwise concatenation of two video and audio pads, first pair
   * first, into "outv" and "outa".
   */
  function ConcatPairs(v1: string, a1: string, v2: string, a2: string): (r: string)
    ensures StartsWith(r, "[" + v1 + "][" + a1 + "][" + v2 + "][" + a2 + "]concat=n=2")
    ensures EndsWith(r, "[outa]")
  {
    var inputs := "[" + v1 + "][" + a1 + "][" + v2 + "][" + a2 + "]concat=n=2";
    ConcatThreeEnds(inputs, ":v=1:a=1[outv]", "[outa]");
    inputs + ":v=1:a=1[outv]" + "[outa]"
  }

  lemma ConcatPairsNoSemicolon(v1: string, a1: string, v2: string, a2: string)
    requires ';' !in v1 && ';' !in a1 && ';' !in v2 && ';' !in a2
    ensures ';' !in ConcatPairs(v1, a1, v2, a2)
  {
    assert ';' !in "concat=n=2:v=1:a=1";
    assert ';' !in "[outv]";
    assert ';' !in "[outa]";
  }

  /**
   * The request remove_silence_segment_video makes: a verbatim copy when
   * nothing is kept; otherwise all trims joined by "; ", followed for two
   * segments by their pairwise concatenation, with a video and an audio pad
   * mapped. The audio pad mapped is the one the graph writes last.
   */
  function VideoEdit(filters: seq<TrimFilter>, vSegments: seq<string>, aSegments: seq<string>,
                     show: real -> string): (req: EditRequest)
    requires |vSegments| == |aSegments| <= 2 && |filters| == 2 * |vSegments|
    requires |vSegments| == 1 ==> filters[1].pad == aSegments[0]
    ensures req == CopyVerbatim <==> vSegments == []
    ensures req.FilterGraph? ==> && |req.mapArgs| == 4
                                 && req.mapArgs[0] == "-map" && req.mapArgs[2] == "-map"
                                 && EndsWith(req.graph, req.mapArgs[3])
    ensures |vSegments| == 1 ==> req.mapArgs == ["-map", "[" + vSegments[0] + "]", "-map", "[" + aSegments[0] + "]"]
    ensures |vSegments| == 2 ==> req.mapArgs == ["-map", "[outv]", "-map", "[outa]"]
  {
    if vSegments == [] then CopyVerbatim
    else if |vSegments| == 1 then
      var rendered := RenderAll(filters, show);
      assert rendered[1..] == [rendered[1]];
      assert Join(rendered, "; ") == rendered[0] + "; " + rendered[1];
      EndsAfter(rendered[0] + "; ", rendered[1], "[" + aSegments[0] + "]");
      FilterGraph(Join(rendered, "; "), ["-map", "[" + vSegments[0] + "]", "-map", "[" + aSegments[0] + "]"])
    else
      var last := ConcatPairs(vSegments[0], aSegments[0], vSegments[1], aSegments[1]);
      var lead := Join(RenderAll(filters, show), "; ") + "; ";
      EndsAfter(lead, last, "[outa]");
      FilterGraph(lead + last, ["-map", "[outv]", "-map", "[outa]"])
  }

  /** No trim of a plan holds ';' when no rendered number does. */
  lemma {:induction false} PlanFiltersNoSemicolon(p: seq<Segment>, from: nat, show: real -> string)
    requires forall x :: ';' !in show(x)
    ensures forall i :: 0 <= i < |PlanFilters(p, from)| ==> ';' !in RenderTrim(PlanFilters(p, from)[i], show)
    decreases |p|
  {
    if p != [] {
      PlanFiltersNoSemicolon(p[1..], from + 1, show);
      PadNoSemicolon(from);
      var f := SegmentFilters(p[0], from);
      RenderTrimNoSemicolon(f[0], show);
      RenderTrimNoSemicolon(f[1], show);
      var r := PlanFilters(p, from);
      assert forall i :: 2 <= i < |r| ==> r[i] == PlanFilters(p[1..], from + 1)[i - 2];
    }
  }

  /**
   * The graph splits at ';' into the trims in filter order (every one but the
   * first behind one space), then, for two segments, the concatenation, as
   * long as no rendered number holds ';'.
   */
  lemma VideoGraphOne(seg: Segment, show: real -> string)
    requires forall x :: ';' !in show(x)
    ensures var filters := PlanFilters([seg], 1);
      Split(VideoEdit(filters, VideoPads(1), AudioPads(1), show).graph, ';') == Spaced(RenderAll(filters, show))
  {
    var filters := PlanFilters([seg], 1);
    var rendered := RenderAll(filters, show);
    PlanFiltersNoSemicolon([seg], 1, show);
    var graph := VideoEdit(filters, VideoPads(1), AudioPads(1), show).graph;
    assert graph == Join(rendered, "; ");
    SplitJoinSpaced(rendered, ';');
  }

  lemma VideoGraphTwo(head: Segment, tail: Segment, show: real -> string)
    requires forall x :: ';' !in show(x)
    ensures var filters := PlanFilters([head, tail], 1);
      && Split(VideoEdit(filters, VideoPads(2), AudioPads(2), show).graph, ';')
         == Spaced(RenderAll(filters, show) + [ConcatPairs(VideoPad(1), AudioPad(1), VideoPad(2), AudioPad(2))])
  {
    var filters := PlanFilters([head, tail], 1);
    var rendered := RenderAll(filters, show);
    PlanFiltersNoSemicolon([head, tail], 1, show);
    var last := ConcatPairs(VideoPad(1), AudioPad(1), VideoPad(2), AudioPad(2));
    PadNoSemicolon(1);
    PadNoSemicolon(2);
    ConcatPairsNoSemicolon(VideoPad(1), AudioPad(1), VideoPad(2), AudioPad(2));
    assert VideoPads(2) == [VideoPad(1), VideoPad(2)];
    assert AudioPads(2) == [AudioPad(1), AudioPad(2)];
    var graph := VideoEdit(filters, VideoPads(2), AudioPads(2), show).graph;
    assert graph == Join(rendered, "; ") + "; " + last;
    JoinAppend(rendered, last, "; ");
    var parts := rendered + [last];
    assert forall i :: 0 <= i < |parts| ==> ';' !in parts[i] by {
      forall i | 0 <= i < |parts| ensures ';' !in parts[i] {
        if i < |rendered| { assert parts[i] == RenderTrim(filters[i], show); }
      }
    }
    SplitJoinSpaced(parts, ';');
  }

  /** The probe of a file whose two streams play the same content. */
  /** The request remove_silence_segment_video makes for one interval of a file of the given length. */
  function IntervalRequest(iv: Interval, total: real, show: real -> string): (req: EditRequest)
    ensures req == CopyVerbatim <==> KeepSegments(iv.start, iv.end, total) == []
  {
    var p := KeepSegments(iv.start, iv.end, total);
    VideoEdit(PlanFilters(p, 1), VideoPads(|p|), AudioPads(|p|), show)
  }

  /**
   * The request for interval k of a run over a file whose two streams both
   * hold tl: the one for that interval on the file as it is after the
   * intervals before it, at the length the probe reports for it.
   */
  function RunRequest(tl: Timeline, intervals: seq<Interval>, k: nat, probe: (Timeline, Timeline) -> string,
                      parseFloat: string -> Option<real>, show: real -> string): EditRequest
    requires k < |intervals|
  {
    var total := ProbedTotal(SyncProbe(probe), parseFloat);
    IntervalRequest(intervals[k], total(ApplyAll(tl, intervals[..k], total)), show)
  }

  /** The requests for the first n intervals of such a run, in order. */
  function RunRequests(tl: Timeline, intervals: seq<Interval>, n: nat, probe: (Timeline, Timeline) -> string,
                       parseFloat: string -> Option<real>, show: real -> string): (r: seq<EditRequest>)
    requires n <= |intervals|
    ensures |r| == n
  {
    if n == 0 then [] else RunRequests(tl, intervals, n - 1, probe, parseFloat, show) + [RunRequest(tl, intervals, n - 1, probe, parseFloat, show)]
  }

  function SyncProbe(probe: (Timeline, Timeline) -> string): Timeline -> string {
    t => probe(t, t)
  }

  /** The working video file: what its video stream and its audio stream play. */
  class VideoFile {
    var video: Timeline
    var audio: Timeline

    /** The working copy made by stream copy: both streams play the input as it is. */
    constructor(input: Timeline)
      ensures video == input && audio == input
      ensures InSync()
    {
      video := input;
      audio := input;
    }

    /** Both streams play the same stretches of the recording. */
    predicate InSync()
      reads this
    {
      video == audio
    }

    /**
     * remove_silence_segment_video: probe the file (0.0 when the output does
     * not parse), trim both streams to the same kept segments and replace
     * the file; copy it unchanged when none is kept. Streams in step stay
     * in step.
     */
    method RemoveSilenceSegmentVideo(start: real, end: real, probe: (Timeline, Timeline) -> string,
                                     parseFloat: string -> Option<real>, show: real -> string)
      returns (req: EditRequest)
      modifies this
      ensures var total := DurationFromProbe(probe(old(video), old(audio)), parseFloat);
        var p := KeepSegments(start, end, total);
        && video == Excise(old(video), start, end, total)
        && audio == Excise(old(audio), start, end, total)
        && (|p| == 1 ==> PlanFilters(p, 1)[1].pad == AudioPads(1)[0])
        && req == VideoEdit(PlanFilters(p, 1), VideoPads(|p|), AudioPads(|p|), show)
        && (req == CopyVerbatim <==> p == [])
        && (req.FilterGraph? ==> |req.mapArgs| == 4 && EndsWith(req.graph, req.mapArgs[3]))
      ensures old(InSync()) ==> InSync()
    {
      var total := DurationFromProbe(probe(video, audio), parseFloat);
      var filters, vSegments, aSegments := PlanVideo(start, end, total);
      var p := KeepSegments(start, end, total);
      PlanStreams(p, 1);
      if |p| == 1 {
        PlanFiltersAt(p, 1, 0);
      }
      req := VideoEdit(filters, vSegments, aSegments, show);
      if vSegments != [] {
        video, audio := Cut(video, StreamSegments(filters, VideoStream)), Cut(audio, StreamSegments(filters, AudioStream));
      }
    }

    /**
     * The loop of process_video_file: every interval, in list order, is
     * removed from both streams; streams in step end as the interval list
     * applied to the original content, the probe seeing both streams alike.
     */
    method ProcessIntervals(intervals: seq<Interval>, probe: (Timeline, Timeline) -> string,
                            parseFloat: string -> Option<real>, show: real -> string)
      returns (requests: seq<EditRequest>)
      modifies this
      ensures |requests| == |intervals|
      ensures old(InSync()) ==> && InSync() && video == ApplyAll(old(video), intervals, ProbedTotal(SyncProbe(probe), parseFloat))
                                && requests == RunRequests(old(video), intervals, |intervals|, probe, parseFloat, show)
    {
      requests := [];
      ghost var original := video;
      ghost var synced := InSync();
      for i := 0 to |intervals|
        invariant synced ==> && InSync() && video == ApplyAll(original, intervals[..i], ProbedTotal(SyncProbe(probe), parseFloat))
                             && requests == RunRequests(original, intervals, i, probe, parseFloat, show)
        invariant |requests| == i
      {
        ghost var prev := video;
        var req := RemoveSilenceSegmentVideo(intervals[i].start, intervals[i].end, probe, parseFloat, show);
        ApplyAllStep(original, intervals, ProbedTotal(SyncProbe(probe), parseFloat), i);
        assert ProbedTotal(SyncProbe(probe), parseFloat)(prev) == DurationFromProbe(SyncProbe(probe)(prev), parseFloat);
        if synced {
          assert req == RunRequest(original, intervals, i, probe, parseFloat, show);
        }
        requests := requests + [req];
      }
      assert intervals[..|intervals|] == intervals;
    }

    /**
     * process_video_file after the working copy: run the detector once on
     * the extracted audio, turn its log into intervals, and remove them one
     * by one from both streams.
     */
    method ProcessVideoFile(detector: (string, Timeline) -> string, noise: string, minDuration: real, margin: real,
                            toReal: string -> real, probe: (Timeline, Timeline) -> string,
                            parseFloat: string -> Option<real>, show: real -> string)
      returns (requests: seq<EditRequest>)
      modifies this
      ensures var log := detector(DetectFilter(noise, minDuration, show), old(audio));
        var intervals := DetectedIntervals(log, margin, toReal);
        old(InSync()) ==> && InSync() && video == ApplyAll(old(video), intervals, ProbedTotal(SyncProbe(probe), parseFloat))
                          && requests == RunRequests(old(video), intervals, |intervals|, probe, parseFloat, show)
    {
      var log := detector(DetectFilter(noise, minDuration, show), audio);
      var intervals := DetectSilenceIntervals(log, margin, toReal);
      requests := ProcessIntervals(intervals, probe, parseFloat, show);
    }
  }
}
