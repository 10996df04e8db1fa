# Silence excision and video merging, modelled in Dafny

The scripts drive an external media engine (ffmpeg, with its prober
ffprobe) to do three things. This project models the logic the scripts
themselves contain, and proves what that logic promises.

- **Silence removers.** `audio_silence_remover.py` and
  `video_silence_remover.py` run the engine's silence detector once. They
  scan its diagnostic text for `silence_start:` / `silence_end:` markers
  and pair the collected numbers in reverse into latest-first intervals,
  adding a margin to every start that is not zero. They then remove the
  intervals one at a time from a working file that is overwritten in place.
  Each removal re-probes the current duration, with 0.0 when the probe output
  does not parse. It keeps the head `[0, start]` and the tail
  `[end, total]`, and asks the engine for a trim/concat filter graph, or for a
  verbatim copy when nothing is kept.
- **Video merger.** `video_merger.py` reads the decoded probe JSON of each
  input (resolution of the first video stream, audio presence, duration).
  It then builds one filter graph. The graph scales and pads every input to
  the largest width and height, gives every input an audio stream (its own,
  or generated silence of its duration), and concatenates them all.

The code of `detect_silence_intervals` is identical in both removers
(`audio_silence_remover.py:56-101` and `video_silence_remover.py:54-87`);
only its comments and docstring differ.
It is modelled once, in `SilenceDetect`, and the table cites the audio file.
The same holds for the duration probe (`audio_silence_remover.py:34-54`,
`video_silence_remover.py:38-52`).

Layout, one module per file:

- `wrappers.dfy`: `Option` and `Result`.
- `text.dfy`: the Python string operations used. These are `str.splitlines`,
  `strip`, `endswith`, `in`, `join`, and the decimal rendering of an int.
  It also holds `Split`, which no script calls. `Split` is how the engine reads
  a filter graph as parts separated by ';', and only the graph lemmas use it.
- `timeline.dfy`: the content of a media file, abstractly. It is the sequence
  of stretches of the original recording that the file plays. The engine's
  trim with a timestamp reset is `Trim`.
- `silence_detect.dfy`: the threshold suffix, the detector's filter argument,
  the regular-expression search, the scan loop (`ParseSilenceLog`) and the
  pairing loop (`PairIntervals`).
- `excision.dfy`: what both removers share. This covers the plan of kept
  segments, the trim filters, the probe fallback, and what the engine makes of
  a plan (`Excise`). It also covers the effect of a whole interval list
  (`ApplyAll`), with the central claim that latest-first application never
  disturbs an interval still pending.
- `audio_remover.dfy`: the working WAV file as a class `WavFile` whose content
  the methods replace.
- `video_remover.dfy`: the working video file as a class `VideoFile` with a
  video and an audio stream.
- `video_merger.dfy`: `get_video_info` after `json.loads`, and
  `build_filter_complex`.

Calls into the engine, and conversions between numbers and text, are
function parameters:

- `detector`: the log the silence detector writes for a filter argument and a
  content.
- `probe`: the prober's output for a content.
- `parseFloat` / `parseInt`: Python's `float()` / `int()` on a string, `None`
  where they raise.
- `toReal`: `float()` on a matched token.
- `show` / `show3`: the f-string rendering of a float, plain or with `:.3f`.

## Model

| member | source | states |
|---|---|---|
| SilenceDetect.NoiseParam | audio_silence_remover.py:71 | the threshold always ends in "dB"; it is returned unchanged exactly when it already ends in "dB", and otherwise "dB" is appended |
| SilenceDetect.NoiseParamIdempotent | audio_silence_remover.py:71 | suffixing an already suffixed threshold changes nothing |
| SilenceDetect.DetectFilter | audio_silence_remover.py:71-74 | the threshold field of the detector argument is the given threshold or that threshold with "dB" appended, and it always ends in "dB" |
| SilenceDetect.DetectFilterSuffixed | audio_silence_remover.py:71-74 | a threshold given with its "dB" already yields the same detector argument as the bare threshold |
| Text.SplitLines | audio_silence_remover.py:85 | no line holds a line boundary, and an empty text has no lines |
| Text.SplitLinesJoin | audio_silence_remover.py:85 | boundary-free lines joined by "\n", the last one not empty, split back into exactly those lines |
| SilenceDetect.FirstMatch | audio_silence_remover.py:87 | re.search's match position: the leftmost position where marker, optional whitespace and a [0-9.] run occur, or none anywhere |
| SilenceDetect.TokenAt | audio_silence_remover.py:87 | the captured group starts right after the marker and its whitespace, and is the longest non-empty run of digits and dots there (the greedy `+`) |
| SilenceDetect.SearchNeedsMarker | audio_silence_remover.py:86-88 | a regex match implies the `marker in line` guard holds, so the guard hides no match |
| SilenceDetect.MinusSignNotMatched | audio_silence_remover.py:87 | the line "silence_start: -1" yields no match at all |
| SilenceDetect.TokenUnsigned | audio_silence_remover.py:87 | on any line, a captured token holds no '-' or '+', so no signed number is ever collected |
| SilenceDetect.ParseSilenceLog | audio_silence_remover.py:85-93 | the loop collects, for each marker, one number per matching line in line order (Collect) |
| SilenceDetect.CollectStep | audio_silence_remover.py:85-93 | one more line adds its match, and only if the line contains the marker and the pattern matches |
| SilenceDetect.CollectAppend | audio_silence_remover.py:85-93 | the numbers of a text are those of its parts, in order |
| SilenceDetect.UnmarkedLineIgnored | audio_silence_remover.py:86 | a line without the marker contributes nothing |
| SilenceDetect.LineFeedsBothLists | audio_silence_remover.py:86-93 | a line matching both patterns adds to both lists, each with its own number |
| SilenceDetect.PairIntervals | audio_silence_remover.py:94-100 | the pairing loop equals reverse, zip, then margin (Normalize) |
| SilenceDetect.NormalizeAt | audio_silence_remover.py:96-100 | there are min(#starts, #ends) intervals; interval i pairs the i-th start from the end (plus margin unless zero) with the i-th end from the end |
| SilenceDetect.SurplusIsEarliest | audio_silence_remover.py:96 | the entries zip drops from the longer list are its earliest ones |
| SilenceDetect.MarginOnlyOnNonZero | audio_silence_remover.py:98-99 | a zero start stays zero; every other start moves by exactly the margin; ends are untouched |
| SilenceDetect.LatestFirstOutput | audio_silence_remover.py:95-100 | with a margin of at least 0 and no negative start, ascending starts and ends give intervals whose starts and ends descend |
| SilenceDetect.ChronologicalGivesLatestFirst | audio_silence_remover.py:95-100 | chronological, non-overlapping detections with a margin shorter than every silence give one interval per silence, latest first and non-overlapping |
| SilenceDetect.TwoSilencesExample | audio_silence_remover.py:95-100 | silences (2, 5) and (10, 12) with margin 1 give [(11, 12), (3, 5)] |
| SilenceDetect.DetectSilenceIntervals | audio_silence_remover.py:56-101 | the intervals are exactly the pairing of the numbers the scan collects from the detector log |
| Excision.DurationFromProbe | audio_silence_remover.py:50-54 | float() of the stripped probe output, or 0.0 when float() raises |
| Excision.HonestProbe | audio_silence_remover.py:50-54 | a probe whose output, on each content a run hands it, parses to that content's true duration makes the executor's duration honest on that run |
| Excision.HonestOnExample | audio_silence_remover.py:50-54 | an example meets the honesty condition: a ten-second file with one interval, probed as "10" |
| Excision.PlanShape | audio_silence_remover.py:116-126 | the planner KeepSegments gives at most two segments; a head exactly when start > 0, a tail exactly when end < total; the head comes first |
| Excision.PlanKeptLength | audio_silence_remover.py:116-126 | for an interval inside the file, the segments KeepSegments plans keep total - (end - start) seconds |
| AudioRemover.PlanAudio | audio_silence_remover.py:116-126 | audio trims of exactly the planned segments, in order, with pads "a1" for the head and "a2" for the tail, even when no head is kept; the method computes the plan functions AudioFilters and AudioLabels |
| Excision.RenderTrim | audio_silence_remover.py:121-125 | a trim text reads its input stream and writes its own pad |
| Excision.RenderAll | audio_silence_remover.py:139 | one rendered text per filter, in filter order |
| AudioRemover.ConcatPads | audio_silence_remover.py:139 | the concatenation reads its two pads in the order given, joins n=2 segments and writes the pad "out" |
| AudioRemover.AudioEdit | audio_silence_remover.py:128-140 | a verbatim copy exactly when nothing is kept; with one segment its own pad is mapped, with two "[out]"; the mapped pad is the one the graph writes last |
| AudioRemover.AudioGraphOne | audio_silence_remover.py:134-136 | with one segment kept, the graph is that segment's trim alone, mapped by its own pad: "a1" for a head, "a2" for a tail |
| AudioRemover.AudioGraphTwo | audio_silence_remover.py:137-140 | with head and tail kept, the graph of the plan splits at ';' into the "a1" head trim, the "a2" tail trim and their concatenation |
| AudioRemover.AudioGraphParts | audio_silence_remover.py:139 | the two-segment graph splits at ';' into the head trim, the tail trim and the concatenation of "a1" and "a2" |
| Excision.ExciseCases | audio_silence_remover.py:116-147 | the new content is head trim + tail trim, either one alone, or the unchanged content when neither is kept |
| Excision.ExciseWholeFile | audio_silence_remover.py:128-132 | an interval covering the whole reported duration leaves the file unchanged |
| Excision.ExciseKeepsPrefix | audio_silence_remover.py:103-147 | removing [start, end] never changes the first start seconds |
| Excision.ExciseRemovesInterval | audio_silence_remover.py:103-147 | with a true duration, the result is the content before start followed by the content after end, shorter by exactly end - start |
| Excision.ExciseAfterFailedProbe | audio_silence_remover.py:51-54 | a probe that does not parse reports 0.0, so no tail is kept and everything after start is lost |
| Excision.OverlapPlaysTwice | audio_silence_remover.py:98-126 | when the margin pushes start past end, the stretch between end and start plays twice and the file grows by start - end |
| AudioRemover.WavFile.constructor | audio_silence_remover.py:168 | the working file holds the converted input |
| AudioRemover.WavFile.RemoveSilenceSegment | audio_silence_remover.py:103-147 | the file becomes the excision of [start, end] under the probed total; the request sent is AudioEdit of the planned trims and pads, so AudioGraphOne and AudioGraphTwo describe it; a verbatim copy exactly when nothing is kept |
| Excision.ApplyAllStep | audio_silence_remover.py:172-174 | one more interval is one more excision of the content so far, re-probed |
| AudioRemover.IntervalRequest | audio_silence_remover.py:103-147 | the request for one interval is a verbatim copy exactly when the plan keeps nothing |
| AudioRemover.RunRequests | audio_silence_remover.py:172-174 | one request per interval, in list order: request k is the one for interval k on the file as the k intervals before it left it |
| AudioRemover.WavFile.ProcessIntervals | audio_silence_remover.py:172-174 | after the loop the file is the interval list applied in list order (ApplyAll), and the requests sent are RunRequests of the original file |
| AudioRemover.WavFile.ProcessAudioFile | audio_silence_remover.py:149-175 | the file ends as the detected intervals of its own detector log, applied in order, and the requests are RunRequests of those intervals |
| Excision.LatestFirstKeepsPrefix | audio_silence_remover.py:95-174 | after the first k latest-first intervals, the content before the k-th start is the original content |
| Excision.PendingIntervalUntouched | audio_silence_remover.py:95-174 | when an interval's turn comes, the span it names holds what it held in the original file |
| Excision.HonestApplyDuration | audio_silence_remover.py:172-174 | when the probe is truthful on the contents the run visits and the intervals are removable and latest first, the result is shorter by exactly their total length |
| Excision.LatestFirstRun | audio_silence_remover.py:95-174 | both of the above for a whole latest-first list |
| Excision.HonestApplyStep | audio_silence_remover.py:172-174 | under the conditions of HonestApplyDuration, step k keeps the original content up to interval k's start, followed by what the content so far held after its end |
| Excision.HonestApplyRemovesAll | audio_silence_remover.py:172-174 | under the same conditions, the first k steps shorten the content by exactly the first k intervals' total length |
| Excision.DetectedRun | audio_silence_remover.py:171-174 | for a chronological detector log whose every silence outlasts the margin, whose intervals never cover all that is left when their turn comes, and a probe truthful on the contents the run visits: the result is shorter by exactly the detected silences' total length, each step keeps the original content up to its interval's start followed by what was left after its end, and each interval still names the original content when its turn comes |
| VideoRemover.PlanVideo | video_silence_remover.py:98-115 | for every kept segment, in order, a video trim and an audio trim of the same bounds into pads numbered from 1 |
| VideoRemover.PlanFiltersAt | video_silence_remover.py:104-115 | filter 2k is the video trim and filter 2k + 1 the audio trim of segment k, both numbered k + 1 |
| VideoRemover.PlanStreams | video_silence_remover.py:104-115 | the video filters and the audio filters each keep exactly the planned segments, in order |
| VideoRemover.PlanLabels | video_silence_remover.py:101-115 | the head is numbered 1; the tail is numbered 2 after a head and 1 without one |
| VideoRemover.VideoPads | video_silence_remover.py:107-114 | the n video pad names are v1 .. vn |
| VideoRemover.AudioPads | video_silence_remover.py:108-115 | the n audio pad names are a1 .. an |
| VideoRemover.ConcatPairs | video_silence_remover.py:129 | the pairwise concatenation reads v1, a1, v2, a2 in that order, joins n=2 segments and writes "outa" last |
| VideoRemover.VideoEdit | video_silence_remover.py:117-130 | a verbatim copy exactly when nothing is kept; with one segment its video and audio pads are mapped, with two "[outv]" and "[outa]"; the audio pad mapped is the graph's last |
| VideoRemover.VideoGraphOne | video_silence_remover.py:125 | the one-segment graph splits at ';' into its two trims |
| VideoRemover.VideoGraphTwo | video_silence_remover.py:129 | the two-segment graph splits at ';' into its four trims and the concatenation of v1, a1, v2, a2 |
| VideoRemover.VideoFile.constructor | video_silence_remover.py:152-154 | both streams of the working copy play the input, in step |
| VideoRemover.VideoFile.RemoveSilenceSegmentVideo | video_silence_remover.py:89-137 | both streams become the same excision of [start, end]; the request sent is VideoEdit of the planned trims and pads v1.., a1.., so VideoGraphOne and VideoGraphTwo describe it; streams in step stay in step; a verbatim copy exactly when nothing is kept |
| VideoRemover.IntervalRequest | video_silence_remover.py:89-137 | the request for one interval is a verbatim copy exactly when the plan keeps nothing |
| VideoRemover.RunRequests | video_silence_remover.py:166-169 | one request per interval, in list order: request k is the one for interval k on the streams as the k intervals before it left them |
| VideoRemover.VideoFile.ProcessIntervals | video_silence_remover.py:166-169 | streams in step stay in step, end as the interval list applied in order, and the requests sent are RunRequests of the original streams |
| VideoRemover.VideoFile.ProcessVideoFile | video_silence_remover.py:139-170 | the streams end as the intervals detected on the audio, applied in order, and the requests are RunRequests of those intervals |
| VideoMerger.Truncate | video_merger.py:64-65 | int() of a float truncates toward zero |
| VideoMerger.ToInt | video_merger.py:64-66 | int() fails exactly on null, containers and unparseable strings; integers are kept, floats truncated, bools 0 or 1 |
| VideoMerger.DurationOf | video_merger.py:72-79 | missing or null gives 0.0; an unparseable string gives 0.0; a container is the uncaught TypeError; numbers are kept |
| VideoMerger.FirstVideo | video_merger.py:61-62 | the index of the first stream whose codec_type is "video", or none when there is none |
| VideoMerger.GetVideoInfo | video_merger.py:56-84 | the scan loop computes VideoInfoOf |
| VideoMerger.VideoInfoOutcome | video_merger.py:60-84 | a result exactly when the first video stream's resolution converts and the duration does not raise; it then carries that stream's width and height and the converted duration; has_audio exactly when some stream is audio; without a video stream the error is NoResolution unless the duration raised first |
| VideoMerger.DurationFallback | video_merger.py:72-79 | a missing, null or unparseable duration is reported as 0.0 |
| VideoMerger.LaterStreamsIgnored | video_merger.py:61-69 | streams after the first video stream matter only through whether they are audio |
| VideoMerger.MaxWidth | video_merger.py:117 | the target width is at least every input's width and equals one of them |
| VideoMerger.MaxHeight | video_merger.py:118 | the target height is at least every input's height and equals one of them |
| VideoMerger.VideoFilterPads | video_merger.py:125-129 | input i's video filter reads [i:v] and writes [v<i>] |
| VideoMerger.VideoFilterTarget | video_merger.py:126-127 | the video filter scales to the target width and height, then pads to them |
| VideoMerger.AudioFilterPads | video_merger.py:133-140 | input i's audio filter reads [i:a] exactly when the input has audio, otherwise starts with generated silence, and writes [a<i>] |
| VideoMerger.SilenceLastsDuration | video_merger.py:137-139 | the generated silence is trimmed to the input's own duration |
| VideoMerger.ConcatInputsOrder | video_merger.py:144 | the concat reads [v<i>][a<i>] right after the pads of inputs 0 .. i - 1 |
| VideoMerger.ConcatFilter | video_merger.py:145 | the concat starts with all inputs' pads and writes [v][a] |
| VideoMerger.ConcatFilterCount | video_merger.py:145 | after its inputs the concat names the number of inputs, one video and one audio stream each |
| VideoMerger.InputFiltersAt | video_merger.py:123-141 | part 2k is input k's video filter and part 2k + 1 its audio filter |
| VideoMerger.BuildFilterComplex | video_merger.py:101-150 | the result is the per-input filters and then the concat, joined by ";" |
| VideoMerger.MergePartsShape | video_merger.py:120-149 | 2n + 1 parts: video and audio filter of each input at the common target size, the concat last |
| VideoMerger.MergeGraphSplits | video_merger.py:149 | when no rendered duration holds ';', splitting the graph at ';' gives back exactly its parts |

## Left out

- Running the engine and the prober (the subprocess calls) is out of scope. They are parameters: their output is a function of the content given. Failures under `check=True` are not modelled.
- The prober's non-zero return code in `get_video_info`, which raises RuntimeError, is not modelled. The model starts after `json.loads`.
- `json.loads` itself is not modelled: decoding, and malformed JSON. Also out: a "streams" entry that is not an object, a "streams" value that is null or not a list, and a "format" value that is not an object. The model reads a list of stream records and the format duration.
- File operations are not modelled: `shutil.copy`, `os.replace`, `os.remove` and the temporary file names. The working file is modelled as its content being replaced whole.
- The WAV conversion, the stream copy to the working MP4 and the audio extraction are each taken to keep the content as it is. Sample formats and codecs are not modelled.
- The media content is abstract (`Timeline`). Trims are interpreted from the trim values, not by parsing the filter text. Frame and sample granularity, and real-valued timestamps rounded by the engine, are not modelled.
- The ValueError that `float()` raises on a matched token such as "1.2.3" is not modelled: `toReal` is total.
- Float arithmetic, NaN, infinities and OverflowError are not modelled; times are exact reals.
- The exact digits of rendered floats are not modelled: `float()` and the f-string rendering of floats are parameters.
- The command lines are not modelled: argument parsing, `confirm_overwrite`, the `main` functions, `convert_wav_to_mp3` and the output-path handling. The other scripts of the repository are not part of this model: `downsize_movie.py`, `extract_audio_mp3.py`, `silent_video_creator.py`, `trim_video.py` and `video_speedup.py`.
- Progress messages (`print`) are not modelled.
- VideoMerger.BuildFilterComplex: requires a non-empty list, because `max()` of an empty list raises. The command line's `nargs="+"` guarantees at least one input.
- VideoRemover.VideoFile.ProcessIntervals: states the result only when the two streams start in step. The probe of the model reads both streams, so streams out of step have no single duration to state.
- VideoRemover.VideoFile.ProcessVideoFile: states the result under the same in-step condition, which the constructor establishes.
- Excision.DetectedRun: states the exact result only under the conditions of HonestApplyDuration below, for the same reason.
- Excision.HonestApplyDuration: the exact shortening is stated only for a probe that reports the true duration of each content the run visits, and for intervals that never cover all that is left. The other cases are covered by ExciseAfterFailedProbe, ExciseWholeFile and OverlapPlaysTwice.
