/**
 * video_merger.py: what get_video_info makes of ffprobe's decoded JSON (the
 * first video stream's resolution, audio presence, the duration with its 0.0
 * fallback, and the errors it raises), and build_filter_complex, which
 * scales and pads every input to the largest width and height, gives every
 * input an audio stream (its own or generated silence), and concatenates
 * them all.
 */
module VideoMerger {
  import opened Wrappers
  import opened Text

  // ---------------------------------------------------------------------
  // The decoded probe output
  // ---------------------------------------------------------------------

  /** A decoded JSON value as Python sees it; arrays and objects are one case, none of the code reads into them. */
  datatype Json = JNull | JBool(b: bool) | JInt(i: int) | JReal(r: real) | JString(s: string) | JCompound

  /** One entry of "streams"; a missing key reads as JNull, as dict.get gives None for both. */
  datatype StreamRecord = StreamRecord(codecType: Json, width: Json, height: Json)

  /** The decoded output: the "streams" list (empty when missing) and format.duration (JNull when missing). */
  datatype ProbeJson = ProbeJson(streams: seq<StreamRecord>, duration: Json)

  datatype VideoInfo = VideoInfo(width: int, height: int, duration: real, hasAudio: bool)

  datatype MergeError =
    | InvalidResolution      // the first video stream's width or height is not convertible by int()
    | NoResolution           // no stream has codec_type "video"
    | UnconvertibleDuration  // float() raises TypeError on the duration (a list or an object)

  predicate IsVideo(s: StreamRecord) {
    s.codecType == JString("video")
  }

  predicate IsAudio(s: StreamRecord) {
    s.codecType == JString("audio")
  }

  /** Python's int() on a float: truncation toward zero. */
  function Truncate(r: real): (t: int)
    ensures r >= 0.0 ==> 0 <= t && t as real <= r < t as real + 1.0
    ensures r < 0.0 ==> t <= 0 && t as real - 1.0 < r <= t as real
  {
    if r >= 0.0 then r.Floor else -((-r).Floor)
  }

  /**
   * Python's int() on a decoded value, None where it raises: None and
   * containers raise TypeError, a malformed string ValueError (`parseInt`
   * stands for int() on a string), a bool is 0 or 1, a float is truncated.
   */
  function ToInt(j: Json, parseInt: string -> Option<int>): (r: Option<int>)
    ensures r.None? <==> j.JNull? || j.JCompound? || (j.JString? && parseInt(j.s).None?)
    ensures j.JInt? ==> r == Some(j.i)
    ensures j.JReal? ==> r == Some(Truncate(j.r))
    ensures j.JBool? ==> r == Some(if j.b then 1 else 0)
  {
    match j
    case JNull => None
    case JBool(b) => Some(if b then 1 else 0)
    case JInt(i) => Some(i)
    case JReal(x) => Some(Truncate(x))
    case JString(s) => parseInt(s)
    case JCompound => None
  }

  /**
   * The duration step: 0.0 when the value is missing or null, float() of it
   * otherwise with a ValueError (a malformed string) caught as 0.0; a
   * TypeError (a container) is not caught.
   */
  function DurationOf(j: Json, parseFloat: string -> Option<real>): (r: Result<real, MergeError>)
    ensures r.Err? <==> j.JCompound?
    ensures r.Err? ==> r.error == UnconvertibleDuration
    ensures j.JNull? ==> r == Ok(0.0)
    ensures j.JString? ==> r == Ok(if parseFloat(j.s).Some? then parseFloat(j.s).value else 0.0)
    ensures j.JInt? ==> r == Ok(j.i as real)
    ensures j.JReal? ==> r == Ok(j.r)
  {
    match j
    case JNull => Ok(0.0)
    case JBool(b) => Ok(if b then 1.0 else 0.0)
    case JInt(i) => Ok(i as real)
    case JReal(x) => Ok(x)
    case JString(s) => Ok(parseFloat(s).GetOr(0.0))
    case JCompound => Err(UnconvertibleDuration)
  }

  /** The index of the first video stream, if any. */
  function FirstVideo(streams: seq<StreamRecord>): (r: Option<nat>)
    ensures r.Some? ==> r.value < |streams| && IsVideo(streams[r.value])
    ensures r.Some? ==> forall j :: 0 <= j < r.value ==> !IsVideo(streams[j])
    ensures r.None? ==> forall j :: 0 <= j < |streams| ==> !IsVideo(streams[j])
    decreases |streams|
  {
    if streams == [] then None
    else if IsVideo(streams[0]) then Some(0)
    else match FirstVideo(streams[1..])
      case None => None
      case Some(k) => Some(k + 1)
  }

  predicate HasAudio(streams: seq<StreamRecord>) {
    exists j :: 0 <= j < |streams| && IsAudio(streams[j])
  }

  /**
   * get_video_info after json.loads: the resolution of the first video
   * stream (its conversion failing is InvalidResolution, raised during the
   * scan), then the duration (a TypeError escapes), then NoResolution when
   * no video stream was seen.
   */
  function VideoInfoOf(p: ProbeJson, parseInt: string -> Option<int>, parseFloat: string -> Option<real>): Result<VideoInfo, MergeError> {
    match FirstVideo(p.streams)
    case Some(k) =>
      var w := ToInt(p.streams[k].width, parseInt);
      var h := ToInt(p.streams[k].height, parseInt);
      if w.None? || h.None? then Err(InvalidResolution)
      else (match DurationOf(p.duration, parseFloat)
        case Err(e) => Err(e)
        case Ok(d) => Ok(VideoInfo(w.value, h.value, d, HasAudio(p.streams))))
    case None =>
      if DurationOf(p.duration, parseFloat).Err? then Err(UnconvertibleDuration) else Err(NoResolution)
  }

  /** The stream scan of get_video_info, step by step. */
  method GetVideoInfo(p: ProbeJson, parseInt: string -> Option<int>, parseFloat: string -> Option<real>)
    returns (r: Result<VideoInfo, MergeError>)
    ensures r == VideoInfoOf(p, parseInt, parseFloat)
  {
    var width: Option<int> := None;
    var height: Option<int> := None;
    var hasAudio := false;
    ghost var first: nat := 0;
    for i := 0 to |p.streams|
      invariant width.None? ==> height.None? && forall j :: 0 <= j < i ==> !IsVideo(p.streams[j])
      invariant width.Some? ==> && first < i && IsVideo(p.streams[first])
                                && (forall j :: 0 <= j < first ==> !IsVideo(p.streams[j]))
                                && width == ToInt(p.streams[first].width, parseInt)
                                && height == ToInt(p.streams[first].height, parseInt)
                                && height.Some?
      invariant hasAudio <==> exists j :: 0 <= j < i && IsAudio(p.streams[j])
    {
      var s := p.streams[i];
      if IsVideo(s) && width.None? {
        var w := ToInt(s.width, parseInt);
        if w.None? {
          return Err(InvalidResolution);
        }
        var h := ToInt(s.height, parseInt);
        if h.None? {
          return Err(InvalidResolution);
        }
        width, height := w, h;
        first := i;
      } else if IsAudio(s) {
        hasAudio := true;
      }
    }
    var d := DurationOf(p.duration, parseFloat);
    if d.Err? {
      return Err(UnconvertibleDuration);
    }
    if width.None? || height.None? {
      return Err(NoResolution);
    }
    r := Ok(VideoInfo(width.value, height.value, d.value, hasAudio));
  }

  /**
   * The outcome in full: a result exactly when there is a video stream whose
   * width and height convert and a duration float() accepts; it then carries
   * that stream's resolution and that duration, and says whether any stream
   * is audio. Without
   * a video stream the error is NoResolution unless the duration raised
   * first.
   */
  lemma VideoInfoOutcome(p: ProbeJson, parseInt: string -> Option<int>, parseFloat: string -> Option<real>)
    ensures var r := VideoInfoOf(p, parseInt, parseFloat);
      && (r.Ok? <==> exists k :: 0 <= k < |p.streams| && IsVideo(p.streams[k])
                                 && ToInt(p.streams[k].width, parseInt).Some?
                                 && ToInt(p.streams[k].height, parseInt).Some?
                                 && (forall j :: 0 <= j < k ==> !IsVideo(p.streams[j]))
                                 && !p.duration.JCompound?)
      && (r.Ok? ==> (r.value.hasAudio <==> exists j :: 0 <= j < |p.streams| && IsAudio(p.streams[j])))
      && (r.Ok? ==> && FirstVideo(p.streams).Some?
                    && ToInt(p.streams[FirstVideo(p.streams).value].width, parseInt) == Some(r.value.width)
                    && ToInt(p.streams[FirstVideo(p.streams).value].height, parseInt) == Some(r.value.height)
                    && DurationOf(p.duration, parseFloat) == Ok(r.value.duration))
      && ((forall j :: 0 <= j < |p.streams| ==> !IsVideo(p.streams[j])) ==>
            r == Err(if p.duration.JCompound? then UnconvertibleDuration else NoResolution))
  {
    var r := VideoInfoOf(p, parseInt, parseFloat);
    match FirstVideo(p.streams)
    case None =>
    case Some(k) =>
      if r.Ok? {
        assert IsVideo(p.streams[k]);
      }
  }

  /** A missing, null or unparseable duration is reported as 0.0. */
  lemma DurationFallback(p: ProbeJson, parseInt: string -> Option<int>, parseFloat: string -> Option<real>)
    requires p.duration.JNull? || (p.duration.JString? && parseFloat(p.duration.s).None?)
    ensures VideoInfoOf(p, parseInt, parseFloat).Ok? ==> VideoInfoOf(p, parseInt, parseFloat).value.duration == 0.0
  {
  }

  /**
   * Only the first video stream's resolution counts: replacing a stream
   * after it changes nothing unless it changes whether that stream is audio.
   */
  lemma LaterStreamsIgnored(p: ProbeJson, parseInt: string -> Option<int>, parseFloat: string -> Option<real>,
                            j: nat, s: StreamRecord)
    requires FirstVideo(p.streams).Some? && FirstVideo(p.streams).value < j < |p.streams|
    requires IsAudio(s) == IsAudio(p.streams[j])
    ensures VideoInfoOf(ProbeJson(p.streams[j := s], p.duration), parseInt, parseFloat) == VideoInfoOf(p, parseInt, parseFloat)
  {
    var q := p.streams[j := s];
    var k := FirstVideo(p.streams).value;
    assert IsVideo(q[k]);
    assert forall m :: 0 <= m < k ==> q[m] == p.streams[m];
    assert FirstVideo(q) == Some(k);
    assert HasAudio(q) == HasAudio(p.streams) by {
      if HasAudio(p.streams) {
        var a :| 0 <= a < |p.streams| && IsAudio(p.streams[a]);
        assert IsAudio(q[a]);
      }
      if HasAudio(q) {
        var a :| 0 <= a < |q| && IsAudio(q[a]);
        assert IsAudio(p.streams[a]);
      }
    }
  }

  // ---------------------------------------------------------------------
  // The filter graph of the merge
  // ---------------------------------------------------------------------

  /** The target width: the largest width among the inputs. */
  function MaxWidth(infos: seq<VideoInfo>): (w: int)
    requires |infos| >= 1
    ensures forall i :: 0 <= i < |infos| ==> infos[i].width <= w
    ensures exists i :: 0 <= i < |infos| && infos[i].width == w
    decreases |infos|
  {
    if |infos| == 1 then infos[0].width
    else
      var rest := MaxWidth(infos[1..]);
      assert forall i :: 1 <= i < |infos| ==> infos[i] == infos[1..][i - 1];
      if infos[0].width >= rest then infos[0].width else rest
  }

  /** The target height: the largest height among the inputs. */
  function MaxHeight(infos: seq<VideoInfo>): (h: int)
    requires |infos| >= 1
    ensures forall i :: 0 <= i < |infos| ==> infos[i].height <= h
    ensures exists i :: 0 <= i < |infos| && infos[i].height == h
    decreases |infos|
  {
    if |infos| == 1 then infos[0].height
    else
      var rest := MaxHeight(infos[1..]);
      assert forall i :: 1 <= i < |infos| ==> infos[i] == infos[1..][i - 1];
      if infos[0].height >= rest then infos[0].height else rest
  }

  /** The pads input i's filters write. */
  function VideoOut(i: nat): string {
    "[v" + NatToString(i) + "]"
  }

  function AudioOut(i: nat): string {
    "[a" + NatToString(i) + "]"
  }

  /** Input i's video scaled down to fit the target and padded to it, centred; written to [v<i>]. */
  function VideoFilter(i: nat, tw: int, th: int): string {
    var w := IntToString(tw);
    var h := IntToString(th);
    VideoIn(i) + VideoBody(w, h) + VideoOut(i)
  }

  function VideoIn(i: nat): string {
    "[" + NatToString(i) + ":v]"
  }

  function VideoBody(w: string, h: string): string {
    ScaleTo(w, h) + ":force_original_aspect_ratio=" + "decrease," + PadTo(w, h)
  }

  /** Scale into a w x h box (keeping the aspect ratio, per the text between). */
  function ScaleTo(w: string, h: string): string {
    "scale=w=" + w + ":h=" + h
  }

  /** Pad to w x h with the picture centred. */
  function PadTo(w: string, h: string): string {
    "pad=" + w + ":" + h + ":((" + w + "-iw)/2):((" + h + "-ih)/2)"
  }

  /**
   * Input i's audio: its own stream resampled when it has one, otherwise
   * stereo silence at 44100 Hz trimmed to its duration (`show3` renders a
   * float with three decimals); written to [a<i>].
   */
  function AudioFilter(i: nat, info: VideoInfo, show3: real -> string): string {
    if info.hasAudio then AudioIn(i) + ResampleBody() + AudioOut(i)
    else "anullsrc=" + SilenceBody(show3(info.duration)) + AudioOut(i)
  }

  function AudioIn(i: nat): string {
    "[" + NatToString(i) + ":a]"
  }

  function ResampleBody(): string {
    "aresample=async=1," + "asetpts=PTS-STARTPTS"
  }

  function SilenceBody(d: string): string {
    "channel_layout=stereo:" + "sample_rate=44100," + TrimTo(d) + ",asetpts=PTS-STARTPTS"
  }

  /** Cut a stream to the duration d. */
  function TrimTo(d: string): string {
    "atrim=duration=" + d
  }

  /** The video filter of input i reads [i:v] and writes [v<i>]. */
  lemma VideoFilterPads(i: nat, tw: int, th: int)
    ensures StartsWith(VideoFilter(i, tw, th), VideoIn(i))
    ensures EndsWith(VideoFilter(i, tw, th), VideoOut(i))
  {
    ConcatThreeEnds(VideoIn(i), VideoBody(IntToString(tw), IntToString(th)), VideoOut(i));
  }

  /** The audio filter of input i reads [i:a] exactly when the input has audio, and writes [a<i>]. */
  lemma AudioFilterPads(i: nat, info: VideoInfo, show3: real -> string)
    ensures StartsWith(AudioFilter(i, info, show3), AudioIn(i)) <==> info.hasAudio
    ensures !info.hasAudio ==> StartsWith(AudioFilter(i, info, show3), "anullsrc=")
    ensures EndsWith(AudioFilter(i, info, show3), AudioOut(i))
  {
    if info.hasAudio {
      ConcatThreeEnds(AudioIn(i), ResampleBody(), AudioOut(i));
    } else {
      var body := SilenceBody(show3(info.duration));
      ConcatThreeEnds("anullsrc=", body, AudioOut(i));
      assert AudioIn(i)[0] == '[';
      assert ("anullsrc=" + body + AudioOut(i))[0] == 'a';
    }
  }

  /** The video filter scales to the target width and height and then pads to them. */
  lemma VideoFilterTarget(i: nat, tw: int, th: int)
    ensures var w, h := IntToString(tw), IntToString(th);
      exists mid :: VideoFilter(i, tw, th) == (VideoIn(i) + ScaleTo(w, h)) + mid + (PadTo(w, h) + VideoOut(i))
  {
    var w, h := IntToString(tw), IntToString(th);
    var mid := ":force_original_aspect_ratio=" + "decrease,";
    ConcatAssoc(ScaleTo(w, h), ":force_original_aspect_ratio=", "decrease,");
    ConcatRegroup(VideoIn(i), ScaleTo(w, h), mid, PadTo(w, h), VideoOut(i));
  }

  /** The generated silence of an input without audio is trimmed to that input's duration. */
  lemma SilenceLastsDuration(i: nat, info: VideoInfo, show3: real -> string)
    requires !info.hasAudio
    ensures exists pre, post :: AudioFilter(i, info, show3) == pre + TrimTo(show3(info.duration)) + post
  {
    var source := "channel_layout=stereo:" + "sample_rate=44100,";
    ConcatRegroup("anullsrc=", source, TrimTo(show3(info.duration)), ",asetpts=PTS-STARTPTS", AudioOut(i));
  }

  /** The concat inputs of the first n inputs: [v0][a0][v1][a1]... */
  function ConcatInputs(n: nat): string
    decreases n
  {
    if n == 0 then "" else ConcatInputs(n - 1) + VideoOut(n - 1) + AudioOut(n - 1)
  }

  /** The concatenation of all n inputs, video and audio, into [v] and [a]. */
  function ConcatFilter(n: nat): (r: string)
    ensures StartsWith(r, ConcatInputs(n))
    ensures EndsWith(r, "[v][a]")
  {
    ConcatThreeEnds(ConcatInputs(n), ConcatCount(n), "[v][a]");
    ConcatInputs(n) + ConcatCount(n) + "[v][a]"
  }

  /** The concat of n inputs, each with one video and one audio stream. */
  function ConcatCount(n: nat): string {
    "concat=n=" + NatToString(n) + ":v=1:a=1"
  }

  /** After its inputs the concat names the number of inputs and writes [v] and [a]. */
  lemma ConcatFilterCount(n: nat)
    ensures ConcatFilter(n)[|ConcatInputs(n)|..] == ConcatCount(n) + "[v][a]"
  {
    ConcatAssoc(ConcatInputs(n), ConcatCount(n), "[v][a]");
    ConcatEnds(ConcatInputs(n), ConcatCount(n) + "[v][a]");
  }

  lemma {:induction false} ConcatInputsPrefix(i: nat, n: nat)
    requires i <= n
    ensures StartsWith(ConcatInputs(n), ConcatInputs(i))
    decreases n - i
  {
    if i < n {
      ConcatInputsPrefix(i, n - 1);
      var a := ConcatInputs(n - 1);
      assert ConcatInputs(n) == a + (VideoOut(n - 1) + AudioOut(n - 1));
      assert ConcatInputs(n)[..|a|] == a;
      assert ConcatInputs(n)[..|ConcatInputs(i)|] == a[..|ConcatInputs(i)|];
    }
  }

  /** The concat reads input i's video and audio pads right after those of inputs 0 .. i - 1. */
  lemma ConcatInputsOrder(i: nat, n: nat)
    requires i < n
    ensures StartsWith(ConcatInputs(n), ConcatInputs(i) + VideoOut(i) + AudioOut(i))
  {
    ConcatInputsPrefix(i + 1, n);
  }

  /** The per-input filters of a list, input by input: video filter, then audio filter. */
  function InputFilters(infos: seq<VideoInfo>, tw: int, th: int, show3: real -> string): (r: seq<string>)
    ensures |r| == 2 * |infos|
    decreases |infos|
  {
    if infos == [] then []
    else
      var n := |infos| - 1;
      InputFilters(infos[..n], tw, th, show3) + [VideoFilter(n, tw, th), AudioFilter(n, infos[n], show3)]
  }

  lemma InputFiltersSnoc(infos: seq<VideoInfo>, tw: int, th: int, show3: real -> string, i: nat)
    requires i < |infos|
    ensures InputFilters(infos[..i + 1], tw, th, show3)
         == InputFilters(infos[..i], tw, th, show3) + [VideoFilter(i, tw, th), AudioFilter(i, infos[i], show3)]
  {
    assert infos[..i + 1][..i] == infos[..i];
  }

  lemma {:induction false} InputFiltersAt(infos: seq<VideoInfo>, tw: int, th: int, show3: real -> string, k: nat)
    requires k < |infos|
    ensures InputFilters(infos, tw, th, show3)[2 * k] == VideoFilter(k, tw, th)
    ensures InputFilters(infos, tw, th, show3)[2 * k + 1] == AudioFilter(k, infos[k], show3)
    decreases |infos|
  {
    var n := |infos| - 1;
    var pre := InputFilters(infos[..n], tw, th, show3);
    var last := [VideoFilter(n, tw, th), AudioFilter(n, infos[n], show3)];
    assert InputFilters(infos, tw, th, show3) == pre + last;
    if k < n {
      InputFiltersAt(infos[..n], tw, th, show3, k);
      assert infos[..n][k] == infos[k];
      assert (pre + last)[2 * k] == pre[2 * k];
      assert (pre + last)[2 * k + 1] == pre[2 * k + 1];
    }
  }

  /** Everything build_filter_complex joins: the per-input filters, then the concat. */
  function MergeParts(infos: seq<VideoInfo>, show3: real -> string): seq<string>
    requires |infos| >= 1
  {
    InputFilters(infos, MaxWidth(infos), MaxHeight(infos), show3) + [ConcatFilter(|infos|)]
  }

  /**
   * build_filter_complex: the target size, then a video filter and an audio
   * filter per input, then the concat, all joined by ";".
   */
  method BuildFilterComplex(infos: seq<VideoInfo>, show3: real -> string) returns (fc: string)
    requires |infos| >= 1
    ensures fc == Join(MergeParts(infos, show3), ";")
  {
    var tw := MaxWidth(infos);
    var th := MaxHeight(infos);
    var filters: seq<string> := [];
    for i := 0 to |infos|
      invariant filters == InputFilters(infos[..i], tw, th, show3)
    {
      InputFiltersSnoc(infos, tw, th, show3, i);
      var video, audio := VideoFilter(i, tw, th), AudioFilter(i, infos[i], show3);
      assert filters + [video] + [audio] == filters + [video, audio];
      filters := filters + [video];
      filters := filters + [audio];
    }
    assert infos[..|infos|] == infos;
    filters := filters + [ConcatFilter(|infos|)];
    fc := Join(filters, ";");
  }

  /**
   * The shape of the graph: 2n + 1 parts, part 2i the video filter of input
   * i at the common target size, part 2i + 1 its audio filter, the last the
   * concat of all n inputs.
   */
  lemma MergePartsShape(infos: seq<VideoInfo>, show3: real -> string)
    requires |infos| >= 1
    ensures var parts := MergeParts(infos, show3);
      && |parts| == 2 * |infos| + 1
      && (forall i :: 0 <= i < |infos| ==> parts[2 * i] == VideoFilter(i, MaxWidth(infos), MaxHeight(infos)))
      && (forall i :: 0 <= i < |infos| ==> parts[2 * i + 1] == AudioFilter(i, infos[i], show3))
      && parts[2 * |infos|] == ConcatFilter(|infos|)
  {
    forall i | 0 <= i < |infos|
      ensures MergeParts(infos, show3)[2 * i] == VideoFilter(i, MaxWidth(infos), MaxHeight(infos))
      ensures MergeParts(infos, show3)[2 * i + 1] == AudioFilter(i, infos[i], show3)
    {
      InputFiltersAt(infos, MaxWidth(infos), MaxHeight(infos), show3, i);
    }
  }

  lemma DigitsNoSemicolon(s: string)
    requires forall j :: 0 <= j < |s| ==> IsDigit(s[j]) || s[j] == '-'
    ensures ';' !in s
  {
    assert forall j :: 0 <= j < |s| ==> s[j] != ';';
  }

  lemma VideoFilterNoSemicolon(i: nat, tw: int, th: int)
    ensures ';' !in VideoFilter(i, tw, th)
  {
    DigitsNoSemicolon(NatToString(i));
    DigitsNoSemicolon(IntToString(tw));
    DigitsNoSemicolon(IntToString(th));
    assert ';' !in VideoBody(IntToString(tw), IntToString(th)) by {
      assert ';' !in "scale=w=" && ';' !in ":h=" && ';' !in ":force_original_aspect_ratio=" && ';' !in "decrease,";
      assert ';' !in "pad=" && ';' !in ":((" && ';' !in "-iw)/2):((" && ';' !in "-ih)/2)";
    }
  }

  lemma AudioFilterNoSemicolon(i: nat, info: VideoInfo, show3: real -> string)
    requires ';' !in show3(info.duration)
    ensures ';' !in AudioFilter(i, info, show3)
  {
    DigitsNoSemicolon(NatToString(i));
    if info.hasAudio {
      ResampleBodyNoSemicolon();
    } else {
      SilenceBodyNoSemicolon(show3(info.duration));
    }
  }

  lemma ResampleBodyNoSemicolon()
    ensures ';' !in ResampleBody()
  {
    assert ';' !in "aresample=async=1," && ';' !in "asetpts=PTS-STARTPTS";
  }

  lemma SilenceBodyNoSemicolon(d: string)
    requires ';' !in d
    ensures ';' !in SilenceBody(d)
  {
    assert ';' !in "channel_layout=stereo:" && ';' !in "sample_rate=44100," && ';' !in "atrim=duration=";
    assert ';' !in ",asetpts=PTS-STARTPTS";
  }

  lemma {:induction false} ConcatInputsNoSemicolon(n: nat)
    ensures ';' !in ConcatInputs(n)
    decreases n
  {
    if n > 0 {
      ConcatInputsNoSemicolon(n - 1);
      DigitsNoSemicolon(NatToString(n - 1));
    }
  }

  lemma ConcatFilterNoSemicolon(n: nat)
    ensures ';' !in ConcatFilter(n)
  {
    ConcatInputsNoSemicolon(n);
    DigitsNoSemicolon(NatToString(n));
    assert ';' !in ":v=1:a=1";
  }

  lemma {:induction false} InputFiltersNoSemicolon(infos: seq<VideoInfo>, tw: int, th: int, show3: real -> string)
    requires forall x :: ';' !in show3(x)
    ensures forall k :: 0 <= k < |InputFilters(infos, tw, th, show3)| ==> ';' !in InputFilters(infos, tw, th, show3)[k]
    decreases |infos|
  {
    if infos != [] {
      var n := |infos| - 1;
      InputFiltersNoSemicolon(infos[..n], tw, th, show3);
      VideoFilterNoSemicolon(n, tw, th);
      AudioFilterNoSemicolon(n, infos[n], show3);
    }
  }

  /**
   * Splitting the graph at ';' gives back exactly its 2n + 1 parts, as long
   * as no rendered duration holds ';'.
   */
  lemma MergeGraphSplits(infos: seq<VideoInfo>, show3: real -> string)
    requires |infos| >= 1
    requires forall x :: ';' !in show3(x)
    ensures Split(Join(MergeParts(infos, show3), ";"), ';') == MergeParts(infos, show3)
  {
    var filters := InputFilters(infos, MaxWidth(infos), MaxHeight(infos), show3);
    var parts := filters + [ConcatFilter(|infos|)];
    InputFiltersNoSemicolon(infos, MaxWidth(infos), MaxHeight(infos), show3);
    ConcatFilterNoSemicolon(|infos|);
    assert forall k :: 0 <= k < |parts| ==> ';' !in parts[k] by {
      forall k | 0 <= k < |parts|
        ensures ';' !in parts[k]
      {
        if k < |filters| {
          assert parts[k] == filters[k];
        }
      }
    }
    SplitJoin(parts, ';');
  }
}
