# Audio/video combiner — a Dafny model

This project models the one piece of real logic in `main.py`:
`combine_video_with_audio_control`. It takes a video and a background
audio track and gives the video a new soundtrack. The background is first
made exactly as long as the video: it is looped when it is shorter and
trimmed when it is longer. Then each track gets its own volume gain, and
the video's own audio (if it has any) is mixed with the background. Every
error becomes a single `False`, and a `finally` block closes the clip
handles. The model also covers the command line's default output path:
same directory, file name `generated_` + stem + extension.

Media is abstracted as follows:

- A track is a `seq<real>` of samples at one common sample rate, so a
  duration is a sample count (`nat`) and amplitudes are exact reals.
- A decoded video is its duration and an optional embedded track.
- `os.path.exists` becomes the set `Env.existing`. What the two input
  files decode to is given as data in `Env`.
- A fault oracle, `Env.fault`, names the media-library call that raises,
  if any: opening a file, composing, cutting, copying, scaling, attaching,
  writing.
- Python clip objects are identities (`Combiner.Obj`). The source's `is`
  compares those identities. Its `!=` between clips is read the same way,
  which assumes the clip class defines no content comparison (see
  "Left out").

Modules:

- `Signal` (signal.dfy): gain, sample-wise sum, composite.
- `Reconciliation` (reconcile.dfy): loop count, repetition, the three-way
  duration reconciliation.
- `Combiner` (combiner.dfy): the combine operation, stage by stage, with
  its handle bookkeeping and the `finally` block.
- `Soundtrack` and `Scenarios` (soundtrack.dfy): what the written
  soundtrack is.
- `OutputPath` (output_path.dfy): the POSIX `dirname`, `basename`,
  `splitext` and `join` used for the default output path.
- `Cli` (cli.dfy): the non-dummy branch of `__main__`.

A note on looping: main.py:41-44 builds `[bg_music_clip] * num_loops`,
passes it to the media library's `CompositeAudioClip`, and cuts the result
at the video's duration. The log line "Looping music..." shows the intent:
the copies play end to end. The model encodes that intent. Where the
library actually places those copies (end to end, or all at time 0) is
not part of this model. If they are all at time 0, the real program does
not loop the background: read the way the model reads main.py:75 (all
members start together and are summed), main.py:43 would give `num_loops`
times the background over its first `b` samples, then silence up to `v`.

Two behaviours of the code worth knowing:

- A zero-length background with a longer video is not rejected by an
  explicit check. The loop-count division at main.py:41 raises, and the
  catch-all turns that into `False`. The model records the cause as
  `ZeroLengthBackground`; the boundary still reports only failure.
- Derived clips are not each released exactly once. The trimmed view is
  dropped without being closed once its scaled copy replaces it. The copy
  of the opened background (main.py:55) and the video with the new audio
  (main.py:81) are never stored where the `finally` block looks.
  `Combiner.RunReleasesHandles` states which of the modelled objects can
  stay unclosed.

## Model

| member | source | states |
|---|---|---|
| Reconciliation.LoopCountCovers | main.py:41-44 | with a background of b > 0 samples, `floor(v/b)+1` copies span more than v samples (and one copy fewer spans at most v), so the cut at v is well defined |
| Reconciliation.Repeat | main.py:42-43 | n copies end to end last n·b samples, and sample i is the background's sample i mod b |
| Reconciliation.Reconcile | main.py:38-50 | the reconciled background lasts exactly v samples in all three branches; it fails only for a zero-length background under a longer video (the division by zero); sample i is the background's sample i mod b; a background at least as long as the video gives exactly its prefix `[0, v)`, an equal one gives itself |
| Reconciliation.LoopedPeriod | main.py:39-44 | when the background is shorter, every full period of the looped result is the whole background |
| Reconciliation.LoopedRemainder | main.py:39-44 | when the background is shorter, what follows the last full period is the prefix of the background of length v mod b |
| Reconciliation.PrefixIsPeriodic | main.py:46-50 | a cut of the background no longer than itself follows the background's period |
| Signal.ScaleUnity | main.py:9 | a gain of 1.0 leaves a track unchanged |
| Signal.ScaleMute | main.py:127 | a gain of 0.0 turns a track into silence of the same duration ("0.0 to mute") |
| Signal.ScaleAdd | main.py:66-75 | a gain distributes over the sample-wise sum |
| Signal.ScaleMix | main.py:66-75 | a gain commutes with mixing: scaling a composite equals composing the scaled members |
| Signal.Mix | main.py:75 | a composite lasts as long as its longest member, and each sample is the sum of the members' samples at that point, silence past a member's end |
| Signal.MixSingle | main.py:71-75 | a composite of one track is that track |
| Signal.MixPair | main.py:67-75 | a composite of two tracks is their sample-wise sum |
| Signal.AddCommutes | main.py:75 | the sample-wise sum does not depend on the order of the two tracks |
| Soundtrack.MixOrderIrrelevant | main.py:66-75 | with the video's own audio present, listing the scaled background before the scaled original would give the same soundtrack |
| Signal.AddSilence | main.py:63-75 | adding silence no longer than a track leaves the track unchanged (a muted original under a background at least as long) |
| Combiner.MixList | main.py:61-71 | the mix list is never empty; with embedded audio it is [scaled original, background] in that order, otherwise [background] |
| Combiner.FinalAudio | main.py:73-78 | the final audio exists exactly when the mix list is non-empty, and lasts as long as its longest track |
| Combiner.LoadSources | main.py:30-36 | opening succeeds exactly when neither open raises; whatever was opened is held by a local at once and nothing is closed yet, so the `finally` block can release it even when the second open raises; a failed video open creates nothing |
| Combiner.AdjustBackground | main.py:38-50 | the stage succeeds exactly when no division by zero happens and no reached loop, cut or trim call raises; its value is the reconciled background; a zero-length background under a longer video fails with the division error; on success the final background is the opened clip itself exactly when the durations match, otherwise a new cut; the opened clip's local is untouched |
| Combiner.ScaleBackgroundStage | main.py:52-57 | succeeds exactly when neither the copy (made only when the final background is the opened clip itself) nor the gain raises, and yields the scaled background; afterwards the final background is never the opened clip, so the `finally` block closes the opened clip; the copy is created only in that aliasing case; nothing is closed and the opened clip's local is untouched |
| Combiner.AssembleMix | main.py:60-78 | succeeds exactly when no reached gain or composite call raises, and yields the composite of the mix list |
| Combiner.WriteOutput | main.py:80-94 | succeeds exactly when attaching and writing do not raise; the video is written to the given path, keeps its duration and carries the mix; the attached video is created once attaching succeeds but no local the `finally` block inspects holds it, and nothing is closed |
| Combiner.TryBlock | main.py:30-100 | the try block succeeds exactly when the background is usable and the raising call, if any, is never reached; on success the video is written to the requested output path and carries the composite of the scaled original and the scaled reconciled background |
| Combiner.Run | main.py:16-111 | a missing video fails with that path before anything is opened or closed; a missing audio fails likewise, the video check comes first; success holds exactly when both paths exist, the background is usable and no reached call raises, and then the video is written to the requested output path; a zero-length background under a longer video fails, it does not escape |
| Combiner.Combine | main.py:16-100 | the boundary reports success exactly when the combine call succeeds, and failure for any missing input |
| Combiner.CleanupClosesHeldOnce | main.py:102-111 | the `finally` block closes exactly the objects the locals hold, each once, also when the final background is the opened background itself |
| Combiner.SourcesClosedOnce | main.py:102-109 | the first three closings of the `finally` block close distinct objects, and close the opened background only when the final background is another object |
| Combiner.CleanupCoversHeld | main.py:102-111 | an object is closed by the `finally` block exactly when some local holds it |
| Combiner.LoopedNeverHeld | main.py:42-45 | no local ever holds the looped composite, so the `finally` block never closes it |
| Combiner.NoDuplicatesConcat | main.py:45-111 | closings in the try block followed by disjoint closings in the `finally` block close nothing twice |
| Combiner.LoadSourcesSound | main.py:30-36 | the handle bookkeeping invariant holds after opening the sources |
| Combiner.AdjustBackgroundSound | main.py:38-50 | reconciliation keeps the handle invariant; the looped composite is closed once its cut succeeds |
| Combiner.LoopBranchSound | main.py:39-45 | the loop branch keeps the handle invariant: the looped composite is closed after a successful cut and stays open when the cut raises |
| Combiner.HoldBackgroundSound | main.py:45-57 | storing the trimmed view or the scaled background in the final-background local keeps the handle invariant; what it held before is the opened background, still held by its own local, or the trimmed view |
| Combiner.ScaleBackgroundSound | main.py:52-57 | the gain stage keeps the handle invariant; replacing the final background drops only the trimmed view |
| Combiner.WriteOutputSound | main.py:80-94 | writing keeps the handle invariant; the attached video is left unclosed |
| Combiner.AssembleMixSound | main.py:60-78 | mix assembly keeps the handle invariant |
| Combiner.TryBlockSound | main.py:30-94 | the handle invariant holds at every exit of the try block |
| Combiner.RunReleasesHandles | main.py:102-111 | on every path nothing is closed twice and only created objects are closed; the opened video and background are always closed; only the trimmed view, the copy of the opened background, the video with the new audio and a looped composite whose cut raised may stay unclosed |
| Combiner.LoopedReleasedUnlessCutFails | main.py:43-45 | a created looped composite is closed exactly when cutting it did not raise |
| Soundtrack.MixListSamples | main.py:61-75 | each sample of the final composite is the original's sample at its gain plus the background's sample, lasting as long as the longer track |
| Soundtrack.ScaledMixSamples | main.py:52-75 | mixing the original at one gain with a background at another gives, sample by sample, the weighted sum of the two, lasting as long as the longer one |
| Soundtrack.SoundtrackSamples | main.py:38-75 | each soundtrack sample is the original's sample at its gain plus the reconciled background's sample at its gain, and the soundtrack lasts as long as the longer of the video and its own audio |
| Soundtrack.ReconciledIsPeriodic | main.py:38-50 | within the video, the reconciled background's sample i is the background's sample i mod its length |
| Soundtrack.RunWritesSoundtrack | main.py:80-94 | a successful call writes the video, with its own duration and that soundtrack, to the requested output path |
| Soundtrack.OutputLastsAsLongAsVideo | main.py:38-81 | the written soundtrack lasts exactly as long as the video, whatever the background's length, when the video's own audio is no longer than the video |
| Soundtrack.SilentVideoGetsBackgroundOnly | main.py:63-71 | a video without audio gets the scaled background alone, whatever the original gain |
| Soundtrack.MutedOriginalGetsBackgroundOnly | main.py:63-75 | with the original gain at 0.0 each soundtrack sample is the scaled background's sample (silence past its end); when the video's own audio is no longer than the video the soundtrack is exactly the scaled background (the sample-wise half is proved in its helper `Soundtrack.MutedOriginalSamples`) |
| Soundtrack.MutedBackgroundLeavesOriginal | main.py:52-75 | with the background gain at 0.0 each soundtrack sample is the original's sample at its gain, silence where there is none |
| Scenarios.SilentVideoOverShortTone | main.py:39-71 | a silent 5-sample video over a 3-sample tone at gain 0.5 takes two loops and gets the tone at half amplitude, restarting after its third sample |
| Scenarios.ToneVideoOverShortTone | main.py:39-75 | a 5-sample video with its own tone at gain 1.0 over a 3-sample background at gain 0.5 gets their sample-wise sum |
| OutputPath.LastIndex | main.py:181-183 | the position of the last separator, or -1 when there is none |
| OutputPath.StripSlashes | main.py:181 | the directory part without trailing slashes is a prefix and ends in something other than a slash |
| OutputPath.LastIndexUnique | main.py:181-183 | a position holding the character with none after it is the last occurrence |
| OutputPath.LastIndexConcat | main.py:181-185 | the last occurrence in a concatenation is in the second part if there is one, else in the first |
| OutputPath.SplitExtJoins | main.py:183 | the stem followed by the extension is the file name |
| OutputPath.BasenameSplits | main.py:181-182 | a path is its directory head followed by its base name, which has no slash |
| OutputPath.DirnameShape | main.py:181 | a directory part is empty, all slashes, or ends in something other than a slash |
| OutputPath.GeneratedName | main.py:183-184 | the generated file name is the prefix followed by the video's file name, and has no slash |
| OutputPath.JoinSplits | main.py:181-185 | joining a directory part with a slash-free name and taking the result apart gives back both |
| OutputPath.DefaultKeepsDirectory | main.py:180-185 | the generated path lies in the video's directory |
| OutputPath.DefaultPrefixesName | main.py:180-185 | the generated path's file name is `generated_` followed by the video's file name |
| OutputPath.SplitExtPrefixed | main.py:183-184 | prefixing a file name keeps its extension and prefixes its stem; a name without a dot stays without an extension; a name whose dots are all leading gains its last dot onward as an extension |
| OutputPath.DefaultKeepsExtension | main.py:180-185 | the generated file name has the video's extension and the prefixed stem; a name without a dot stays without an extension; a name whose dots are all leading (`.mp4`) has no extension while its generated name has one |
| OutputPath.HiddenNameGainsExtension | main.py:180-185 | for a video named like `.mp4` (a dot, then a name without dots) the name has no extension, the generated file name is `generated_` followed by that name, and its extension is the whole original name |
| OutputPath.ResolveOutputPath | main.py:180-185 | a given non-empty output path is used unchanged; a missing or empty one is replaced by a path in the video's directory whose file name is `generated_` + the video's file name |
| Cli.RunCli | main.py:178-199 | the command line reports the given output path, or one in the video's directory with the prefixed name; it succeeds exactly when the combine call does, and on success the reported path is the one the video was written to |
| Cli.FlaglessCallUsesDefaults | main.py:123-134 | run without flags, the command line makes the same combine call as a direct call with the signature's default gains 1.0 and 0.5 and the generated path, reports that path, and on success the video was written there |

## Left out

- Decoding and encoding (`VideoFileClip`, `AudioFileClip`, `write_videofile` with its codecs, temporary audio file and thread count): media-library calls. Their results are data in `Env`, and their failures come from the fault oracle.
- What `CompositeAudioClip` and `subclipped` really do: library semantics. The model uses the intended end-to-end repetition and a plain prefix cut.
- Float durations: durations are sample counts. `int(v/b)` on floats is modelled as exact integer division, so a float rounding at a whole ratio is not modelled.
- Amplitudes are exact reals: no floating-point rounding and no clipping by the encoder.
- Printing, tracebacks and argparse parsing: I/O. `Cli.Args` stands for the parsed arguments.
- A `close()` that raises inside the `finally` block, and the `close()` at main.py:45 raising: closing is modelled as always succeeding.
- The partial output file left behind when writing fails: the model reports only success and the written video.
- The dummy-file generation (main.py:144-176): numpy sine waves and file writes. The `Scenarios` lemmas use the same durations with symbolic samples.
- app.py, app2.py and app3.py: upload, download, notebook and diagram UIs with no combining logic.
- Combiner.RunReleasesHandles: reads `!=` between clips (main.py:45, main.py:107) as identity. If the clip class compared contents, main.py:107 could skip closing the opened background when it equals the final background.
- Use after release: the model has no relation from an object to the one it was derived from, so it does not express that main.py:45 closes the looped composite while its cut is still used (main.py:57-84), nor that the `finally` block closes the video and the opened background before the tracks derived from them (main.py:104-111). It also does not express a double release of one underlying resource: the trimmed cut is a view of the opened background, so closing both may release the same reader twice. "Nothing is closed twice" counts clip objects, not the resources they share.
- Windows path semantics (`ntpath`): the output-path functions follow POSIX `posixpath`, which is what `os.path` is on POSIX systems only.
- Soundtrack.OutputLastsAsLongAsVideo: assumes the video's own audio is no longer than the video. In general the soundtrack lasts as long as the longer of the two (`Soundtrack.SoundtrackSamples`).
