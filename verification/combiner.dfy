/** The combine operation of main.py (`combine_video_with_audio_control`):
    input checks, background reconciliation, volume scaling, mix assembly,
    the catch-all that turns every error into a failed outcome, and the
    `finally` block that releases the clip handles.

    The media library is not modelled. What it would decode is given as data
    in `Env`, and which of its calls raises, if any, is given by `Env.fault`.
    Python objects are modelled by identity (`Obj`). The source's `is`
    compares identities; its `!=` between clips is read the same way, which
    assumes the clip class does not define a content comparison. */
module Combiner {
  import opened Wrappers
  import opened Signal
  import opened Reconciliation

  /** A decoded video: its duration in samples and its embedded audio, if any. */
  datatype Video = Video(duration: nat, audio: Option<Track>)

  /** The parameters of one combine call. Volumes are gains; the caller is
      trusted to keep them in range, nothing clamps them. */
  datatype Request = Request(
    videoPath: string,
    audioPath: string,
    outputPath: string,
    originalVolume: real,
    backgroundVolume: real)

  /** The default gains of the combine operation's signature. */
  const DefaultOriginalVolume: real := 1.0
  const DefaultBackgroundVolume: real := 0.5

  /** The media-library calls of the combine operation that can raise. */
  datatype Call =
    | LoadVideo        // opening the video
    | LoadAudio        // opening the background audio
    | ComposeLoop      // building the looped composite
    | SubclipLoop      // cutting the looped composite to the video's length
    | Trim             // cutting a longer background to the video's length
    | CopyBackground   // copying the opened background before its gain
    | ScaleBackground  // applying the background gain
    | ScaleOriginal    // applying the gain of the video's own audio
    | ComposeMix       // building the final composite
    | AttachAudio      // attaching the mix to the video
    | WriteFile        // encoding the output file

  /** What the combine operation sees of the world: which paths exist, what
      the two inputs decode to, and which library call raises, if any. */
  datatype Env = Env(existing: set<string>, video: Video, background: Track, fault: Option<Call>)

  /** Why a combine call failed. The boundary reports only success or
      failure; the cause is kept here for the model's statements. */
  datatype Error =
    | InputNotFound(path: string)
    | ZeroLengthBackground
    | LibraryFailure(call: Call)

  /** The clip objects the operation creates. */
  datatype Obj =
    | VideoClip         // the opened video
    | BackgroundClip    // the opened background audio
    | LoopedClip        // the composite of the repeated background
    | TrimmedClip       // the background cut to the video's length (a view)
    | ScaledBackground  // the background after its gain
    | ScaledOriginal    // the video's own audio after its gain
    | MixedAudio        // the final composite
    | BackgroundCopy    // the copy of the opened background that receives the gain
    | OutputVideo       // the video with the new audio attached

  /** The local variables the `finally` block inspects. */
  datatype Locals = Locals(
    videoClip: Option<Obj>,
    bgClip: Option<Obj>,
    bgFinal: Option<Obj>,
    originalAudio: Option<Obj>,
    finalAudio: Option<Obj>)

  const NoLocals: Locals := Locals(None, None, None, None, None)

  /** Handle bookkeeping: the locals, every object created so far, and the
      objects closed so far, in order. */
  datatype Handles = Handles(locals: Locals, created: set<Obj>, closed: seq<Obj>)

  /** The state after one stage of the try block: its value or the error it
      raised, and the handles at that point. */
  datatype Step<T> = Step(result: Result<T, Error>, handles: Handles)

  /** A video written to a file: the path it was written to and the video. */
  datatype Written = Written(path: string, video: Video)

  /** The whole outcome of a combine call. On success the value is the video
      written, together with the path it was written to. */
  datatype Outcome = Outcome(result: Result<Written, Error>, created: set<Obj>, closed: seq<Obj>)

  predicate Raises(env: Env, c: Call)
  {
    env.fault == Some(c)
  }

  /** Whether the operation reaches library call `c` when no earlier call
      raises: an independent description of the control flow. */
  predicate Reaches(env: Env, c: Call)
  {
    var v := env.video.duration;
    var b := |env.background|;
    match c
    case ComposeLoop => 0 < b < v
    case SubclipLoop => 0 < b < v
    case Trim => v < b
    case CopyBackground => b == v
    case ScaleOriginal => env.video.audio.Some?
    case _ => true
  }

  /** Whether library call `c` raises and the operation gets that far. */
  predicate Hits(env: Env, c: Call)
  {
    Raises(env, c) && Reaches(env, c)
  }

  predicate NoDuplicates<T(==)>(s: seq<T>)
  {
    forall i, j :: 0 <= i < j < |s| ==> s[i] != s[j]
  }

  function Raised<T>(c: Call, h: Handles): Step<T>
  {
    Step(Failure(LibraryFailure(c)), h)
  }

  function Propagate<T, U>(s: Step<T>): Step<U>
    requires s.result.Failure?
  {
    Step(Failure(s.result.error), s.handles)
  }

  function Hold(h: Handles, l: Locals, o: Obj): Handles
  {
    Handles(l, h.created + {o}, h.closed)
  }

  /** Opens the video, then the background audio. Whatever it opens is
      held by a local at once, so the `finally` block can close it even when
      the second open raises. */
  function LoadSources(env: Env): (s: Step<()>)
    ensures s.result.Success? <==> !Hits(env, LoadVideo) && !Hits(env, LoadAudio)
    ensures s.result.Failure? ==> s.result.error.LibraryFailure?
    ensures s.handles.closed == [] && Held(s.handles.locals) == s.handles.created
    ensures Raises(env, LoadVideo) ==> s.handles.created == {}
    ensures s.result.Success? ==>
              && s.handles.created == {VideoClip, BackgroundClip}
              && s.handles.locals == NoLocals.(videoClip := Some(VideoClip), bgClip := Some(BackgroundClip))
  {
    var h0 := Handles(NoLocals, {}, []);
    if Raises(env, LoadVideo) then Raised(LoadVideo, h0)
    else
      var h1 := Hold(h0, h0.locals.(videoClip := Some(VideoClip)), VideoClip);
      if Raises(env, LoadAudio) then Raised(LoadAudio, h1)
      else Step(Success(()), Hold(h1, h1.locals.(bgClip := Some(BackgroundClip)), BackgroundClip))
  }

  /** Makes the background as long as the video: loops it when it is
      shorter, trims it when it is longer, keeps it when they match. */
  function AdjustBackground(env: Env, h: Handles): (s: Step<Track>)
    ensures s.result.Success? <==>
              && !(|env.background| == 0 < env.video.duration)
              && !Hits(env, ComposeLoop) && !Hits(env, SubclipLoop) && !Hits(env, Trim)
    ensures |env.background| == 0 < env.video.duration ==> s.result == Failure(ZeroLengthBackground)
    ensures s.result.Success? ==> s.result.value == Reconcile(env.background, env.video.duration).value
    ensures s.handles.locals.bgClip == h.locals.bgClip
    ensures s.result.Success? ==>
              s.handles.locals.bgFinal ==
                (if |env.background| == env.video.duration then h.locals.bgClip else Some(TrimmedClip))
  {
    var v := env.video.duration;
    var bg := env.background;
    if |bg| < v then
      if |bg| == 0 then Step(Failure(ZeroLengthBackground), h)
      else if Raises(env, ComposeLoop) then Raised(ComposeLoop, h)
      else
        var h1 := h.(created := h.created + {LoopedClip});
        if Raises(env, SubclipLoop) then Raised(SubclipLoop, h1)
        else
          var h2 := Hold(h1, h1.locals.(bgFinal := Some(TrimmedClip)), TrimmedClip);
          // the looped composite differs from its cut, so it is closed here
          Step(Success(Reconcile(bg, v).value), h2.(closed := h2.closed + [LoopedClip]))
    else if |bg| > v then
      if Raises(env, Trim) then Raised(Trim, h)
      else Step(Success(Reconcile(bg, v).value), Hold(h, h.locals.(bgFinal := Some(TrimmedClip)), TrimmedClip))
    else
      Step(Success(Reconcile(bg, v).value), h.(locals := h.locals.(bgFinal := h.locals.bgClip)))
  }

  /** Applies the background gain. When the final background is the opened
      clip itself, a copy of it is scaled instead, so afterwards the final
      background is never the opened clip. The copy is held by no local. */
  function ScaleBackgroundStage(env: Env, gain: real, bg: Track, h: Handles): (s: Step<Track>)
    ensures s.result.Success? <==>
              && !(h.locals.bgFinal == h.locals.bgClip && Raises(env, CopyBackground))
              && !Raises(env, ScaleBackground)
    ensures s.result.Success? ==> s.result.value == Scale(bg, gain)
    ensures s.handles.closed == h.closed
    ensures s.handles.locals.bgClip == h.locals.bgClip
    ensures s.result.Success? ==> s.handles.locals.bgFinal == Some(ScaledBackground)
    ensures s.result.Success? && WellTyped(h.locals) ==> s.handles.locals.bgFinal != s.handles.locals.bgClip
    ensures BackgroundCopy in s.handles.created - h.created ==> h.locals.bgFinal == h.locals.bgClip
  {
    var copied := h.locals.bgFinal == h.locals.bgClip;
    if copied && Raises(env, CopyBackground) then Raised(CopyBackground, h)
    else
      var h1 := if copied then h.(created := h.created + {BackgroundCopy}) else h;
      if Raises(env, ScaleBackground) then Raised(ScaleBackground, h1)
      else Step(Success(Scale(bg, gain)), Hold(h1, h1.locals.(bgFinal := Some(ScaledBackground)), ScaledBackground))
  }

  /** The tracks handed to the final composite: the video's own audio after
      its gain first, when there is one, then the background. */
  function MixList(original: Option<Track>, background: Track, originalVolume: real): (ts: seq<Track>)
    ensures 0 < |ts| <= 2
    ensures ts[|ts| - 1] == background
    ensures |ts| == 2 <==> original.Some?
    ensures original.Some? ==> ts[0] == Scale(original.value, originalVolume)
  {
    (if original.Some? then [Scale(original.value, originalVolume)] else []) + [background]
  }

  /** The final audio: the composite of the list, or no audio at all for an
      empty list. */
  function FinalAudio(ts: seq<Track>): (a: Option<Track>)
    ensures a.Some? <==> |ts| > 0
    ensures a.Some? ==> |a.value| == MaxLen(ts)
  {
    if |ts| > 0 then Some(Mix(ts)) else None
  }

  /** Scales the video's own audio when there is one and builds the composite. */
  function AssembleMix(env: Env, req: Request, bg: Track, h: Handles): (s: Step<Option<Track>>)
    ensures s.result.Success? <==> !Hits(env, ScaleOriginal) && !Hits(env, ComposeMix)
    ensures s.result.Success? ==> s.result.value == Some(Mix(MixList(env.video.audio, bg, req.originalVolume)))
  {
    var original := env.video.audio;
    if original.Some? && Raises(env, ScaleOriginal) then Raised(ScaleOriginal, h)
    else
      var h1 := if original.Some? then Hold(h, h.locals.(originalAudio := Some(ScaledOriginal)), ScaledOriginal) else h;
      var tracks := MixList(original, bg, req.originalVolume);
      if |tracks| > 0 then
        if Raises(env, ComposeMix) then Raised(ComposeMix, h1)
        else Step(Success(FinalAudio(tracks)), Hold(h1, h1.locals.(finalAudio := Some(MixedAudio)), MixedAudio))
      else Step(Success(None), h1)
  }

  /** Attaches the audio to the video and writes it to `path`. The video
      with the new audio is created but stored in no local the `finally`
      block inspects, so nothing ever closes it. */
  function WriteOutput(env: Env, path: string, audio: Option<Track>, h: Handles): (s: Step<Written>)
    ensures s.result.Success? <==> !Hits(env, AttachAudio) && !Hits(env, WriteFile)
    ensures s.result.Success? ==> s.result.value == Written(path, Video(env.video.duration, audio))
    ensures s.handles.locals == h.locals && s.handles.closed == h.closed
    ensures OutputVideo in s.handles.created <==> OutputVideo in h.created || !Raises(env, AttachAudio)
  {
    if Raises(env, AttachAudio) then Raised(AttachAudio, h)
    else
      var h1 := h.(created := h.created + {OutputVideo});
      if Raises(env, WriteFile) then Raised(WriteFile, h1)
      else Step(Success(Written(path, Video(env.video.duration, audio))), h1)
  }

  /** The try block: every stage in order, stopping at the first error. */
  function TryBlock(req: Request, env: Env): (s: Step<Written>)
    ensures s.result.Success? <==>
              && !(|env.background| == 0 < env.video.duration)
              && (env.fault.None? || !Reaches(env, env.fault.value))
    ensures s.result.Success? ==>
              s.result.value == Written(req.outputPath, Video(env.video.duration,
                Some(Mix(MixList(env.video.audio,
                                 Scale(Reconcile(env.background, env.video.duration).value, req.backgroundVolume),
                                 req.originalVolume)))))
    ensures |env.background| == 0 < env.video.duration && !Raises(env, LoadVideo) && !Raises(env, LoadAudio) ==>
              s.result == Failure(ZeroLengthBackground)
  {
    NoFaultReached(env);
    var s1 := LoadSources(env);
    if s1.result.Failure? then Propagate(s1)
    else
      var s2 := AdjustBackground(env, s1.handles);
      if s2.result.Failure? then Propagate(s2)
      else
        // the gain stage copies the opened clip exactly in the equal case
        assert s2.handles.locals.bgFinal == s2.handles.locals.bgClip
               <==> |env.background| == env.video.duration;
        var s3 := ScaleBackgroundStage(env, req.backgroundVolume, s2.result.value, s2.handles);
        if s3.result.Failure? then Propagate(s3)
        else
          var s4 := AssembleMix(env, req, s3.result.value, s3.handles);
          if s4.result.Failure? then Propagate(s4)
          else WriteOutput(env, req.outputPath, s4.result.value, s4.handles)
  }

  /** No library call raises on the way exactly when none of them, one by
      one, is both the raising call and reached. */
  lemma NoFaultReached(env: Env)
    ensures (env.fault.None? || !Reaches(env, env.fault.value)) <==>
              && !Hits(env, LoadVideo) && !Hits(env, LoadAudio)
              && !Hits(env, ComposeLoop) && !Hits(env, SubclipLoop) && !Hits(env, Trim)
              && !Hits(env, CopyBackground) && !Hits(env, ScaleBackground)
              && !Hits(env, ScaleOriginal) && !Hits(env, ComposeMix)
              && !Hits(env, AttachAudio) && !Hits(env, WriteFile)
  {
  }

  /** The `finally` block: the objects it closes, in order. The opened
      background is closed here only when the final background is not that
      same object; otherwise closing the final background releases it. */
  function Cleanup(l: Locals): seq<Obj>
  {
    CloseIf(l.videoClip)
    + CloseBackgroundIf(l)
    + CloseIf(l.originalAudio)
    + CloseIf(l.bgFinal)
    + CloseIf(l.finalAudio)
  }

  /** Closing the opened background unless the final background is that
      same object. */
  function CloseBackgroundIf(l: Locals): seq<Obj>
  {
    if l.bgFinal.None? || l.bgFinal != l.bgClip then CloseIf(l.bgClip) else []
  }

  /** Closing a local that holds an object; a local holding `None` is skipped. */
  function CloseIf(x: Option<Obj>): seq<Obj>
  {
    if x.Some? then [x.value] else []
  }

  /** One combine call: the two existence checks, then the try block and
      its cleanup. */
  function Run(req: Request, env: Env): (o: Outcome)
    ensures req.videoPath !in env.existing ==>
              o == Outcome(Failure(InputNotFound(req.videoPath)), {}, [])
    ensures req.videoPath in env.existing && req.audioPath !in env.existing ==>
              o == Outcome(Failure(InputNotFound(req.audioPath)), {}, [])
    ensures o.result.Success? <==>
              && req.videoPath in env.existing
              && req.audioPath in env.existing
              && !(|env.background| == 0 < env.video.duration)
              && (env.fault.None? || !Reaches(env, env.fault.value))
    ensures o.result.Success? ==>
              o.result.value == Written(req.outputPath, Video(env.video.duration,
                Some(Mix(MixList(env.video.audio,
                                 Scale(Reconcile(env.background, env.video.duration).value, req.backgroundVolume),
                                 req.originalVolume)))))
    ensures |env.background| == 0 < env.video.duration
            && req.videoPath in env.existing && req.audioPath in env.existing
            && !Raises(env, LoadVideo) && !Raises(env, LoadAudio) ==>
              o.result == Failure(ZeroLengthBackground)
  {
    if req.videoPath !in env.existing then Outcome(Failure(InputNotFound(req.videoPath)), {}, [])
    else if req.audioPath !in env.existing then Outcome(Failure(InputNotFound(req.audioPath)), {}, [])
    else
      var s := TryBlock(req, env);
      Outcome(s.result, s.handles.created, s.handles.closed + Cleanup(s.handles.locals))
  }

  /** The boundary of the operation: success or failure, nothing else. */
  function Combine(req: Request, env: Env): (ok: bool)
    ensures ok <==> Run(req, env).result.Success?
    ensures req.videoPath !in env.existing || req.audioPath !in env.existing ==> !ok
  {
    Run(req, env).result.Success?
  }

  // ---------------------------------------------------------------------------
  // Handle discipline: every object the cleanup can see is closed exactly once

  /** Objects that may stay unclosed: the trimmed background is a view over
      the opened background and is dropped once its scaled copy replaces it;
      the copy of the opened background and the video with the new audio are
      never stored where the `finally` block looks; the looped composite is
      closed only after its cut succeeds. */
  predicate Leakable(env: Env, x: Obj)
  {
    || x == TrimmedClip
    || x == BackgroundCopy
    || x == OutputVideo
    || (x == LoopedClip && Raises(env, SubclipLoop))
  }

  /** The objects held by the locals. */
  function Held(l: Locals): set<Obj>
  {
    (if l.videoClip.Some? then {l.videoClip.value} else {})
    + (if l.bgClip.Some? then {l.bgClip.value} else {})
    + (if l.bgFinal.Some? then {l.bgFinal.value} else {})
    + (if l.originalAudio.Some? then {l.originalAudio.value} else {})
    + (if l.finalAudio.Some? then {l.finalAudio.value} else {})
  }

  /** Each local only ever holds the objects of its own role; the final
      background is the one local that may alias the opened background. */
  predicate WellTyped(l: Locals)
  {
    && (l.videoClip.Some? ==> l.videoClip.value == VideoClip)
    && (l.bgClip.Some? ==> l.bgClip.value == BackgroundClip)
    && (l.bgFinal.Some? ==> l.bgFinal.value in {BackgroundClip, TrimmedClip, ScaledBackground})
    && (l.originalAudio.Some? ==> l.originalAudio.value == ScaledOriginal)
    && (l.finalAudio.Some? ==> l.finalAudio.value == MixedAudio)
  }

  /** The `finally` block closes exactly the objects the locals hold, each
      once, also when the final background is the opened background itself. */
  lemma CleanupClosesHeldOnce(l: Locals)
    requires WellTyped(l)
    ensures NoDuplicates(Cleanup(l))
    ensures forall x :: x in Cleanup(l) <==> x in Held(l)
  {
    var p := CloseIf(l.videoClip) + CloseBackgroundIf(l) + CloseIf(l.originalAudio);
    SourcesClosedOnce(l);
    var d := CloseIf(l.bgFinal);
    var e := CloseIf(l.finalAudio);
    assert forall x :: x in d ==> x in {BackgroundClip, TrimmedClip, ScaledBackground};
    NoDuplicatesConcat(p, d);
    NoDuplicatesConcat(p + d, e);
    CleanupCoversHeld(l);
  }

  /** The first three closings of the `finally` block close distinct
      objects, and the opened background only when the final background is
      another object. */
  lemma SourcesClosedOnce(l: Locals)
    requires WellTyped(l)
    ensures var p := CloseIf(l.videoClip) + CloseBackgroundIf(l) + CloseIf(l.originalAudio);
            && NoDuplicates(p)
            && (forall x :: x in p ==> x in {VideoClip, BackgroundClip, ScaledOriginal})
            && (BackgroundClip in p ==> l.bgFinal != Some(BackgroundClip))
  {
    var a := CloseIf(l.videoClip);
    var b := CloseBackgroundIf(l);
    var c := CloseIf(l.originalAudio);
    assert forall x :: x in a ==> x == VideoClip;
    assert forall x :: x in b ==> x == BackgroundClip;
    assert forall x :: x in c ==> x == ScaledOriginal;
    NoDuplicatesConcat(a, b);
    NoDuplicatesConcat(a + b, c);
  }

  lemma CleanupCoversHeld(l: Locals)
    requires WellTyped(l)
    ensures forall x :: x in Cleanup(l) <==> x in Held(l)
  {
    var a := CloseIf(l.videoClip);
    var b := CloseBackgroundIf(l);
    var c := CloseIf(l.originalAudio);
    var d := CloseIf(l.bgFinal);
    var e := CloseIf(l.finalAudio);
    forall x
      ensures x in Cleanup(l) <==> x in Held(l)
    {
      assert x in Cleanup(l) <==> x in a || x in b || x in c || x in d || x in e;
    }
  }

  lemma NoDuplicatesConcat<T>(a: seq<T>, b: seq<T>)
    requires NoDuplicates(a) && NoDuplicates(b)
    requires forall x :: x in a ==> x !in b
    ensures NoDuplicates(a + b)
  {
    var ab := a + b;
    forall i, j | 0 <= i < j < |ab|
      ensures ab[i] != ab[j]
    {
      if j < |a| {
      } else if i >= |a| {
        assert ab[i] == b[i - |a|];
        assert ab[j] == b[j - |a|];
      } else {
        assert ab[i] in a;
        assert ab[j] in b;
      }
    }
  }

  /** The order in which the try block creates objects. */
  function Rank(o: Obj): nat
  {
    match o
    case VideoClip => 0
    case BackgroundClip => 1
    case LoopedClip => 2
    case TrimmedClip => 3
    case BackgroundCopy => 4
    case ScaledBackground => 5
    case ScaledOriginal => 6
    case MixedAudio => 7
    case OutputVideo => 8
  }

  /** Every object created so far comes before creation step `n`. */
  predicate CreatedBefore(h: Handles, n: nat)
  {
    forall x :: x in h.created ==> Rank(x) < n
  }

  /** The bookkeeping invariant of the try block. */
  predicate Sound(h: Handles, env: Env)
  {
    && NoDuplicates(h.closed)
    && (forall x :: x in h.closed ==> x in h.created && x !in Held(h.locals))
    && Held(h.locals) <= h.created
    && WellTyped(h.locals)
    && (h.locals.bgFinal == Some(BackgroundClip) ==> h.locals.bgClip == Some(BackgroundClip))
    && (LoopedClip in h.created ==> (LoopedClip in h.closed <==> !Raises(env, SubclipLoop)))
    && (forall x :: x in h.created && x !in h.closed && x !in Held(h.locals) ==> Leakable(env, x))
  }

  lemma LoadSourcesSound(env: Env)
    ensures Sound(LoadSources(env).handles, env)
    ensures CreatedBefore(LoadSources(env).handles, 2)
  {
  }

  lemma AdjustBackgroundSound(env: Env, h: Handles)
    requires Sound(h, env) && CreatedBefore(h, 2)
    ensures Sound(AdjustBackground(env, h).handles, env)
    ensures CreatedBefore(AdjustBackground(env, h).handles, 4)
  {
    var v := env.video.duration;
    var b := |env.background|;
    var s := AdjustBackground(env, h);
    if 0 < b < v && !Raises(env, ComposeLoop) {
      LoopBranchSound(env, h);
    } else if v < b && !Raises(env, Trim) {
      var l := h.locals.(bgFinal := Some(TrimmedClip));
      assert s.handles == Handles(l, h.created + {TrimmedClip}, h.closed);
      HoldBackgroundSound(env, h, TrimmedClip);
    } else if b == v {
      var l := h.locals.(bgFinal := h.locals.bgClip);
      assert s.handles == h.(locals := l);
      assert Held(l) == Held(h.locals);
    } else {
      assert s.handles == h;
    }
  }

  /** The loop branch closes the looped composite once its cut succeeds and
      leaves it open when the cut raises. */
  lemma LoopBranchSound(env: Env, h: Handles)
    requires Sound(h, env) && CreatedBefore(h, 2)
    requires 0 < |env.background| < env.video.duration && !Raises(env, ComposeLoop)
    ensures Sound(AdjustBackground(env, h).handles, env)
    ensures CreatedBefore(AdjustBackground(env, h).handles, 4)
  {
    var s := AdjustBackground(env, h);
    assert LoopedClip !in h.created;
    if Raises(env, SubclipLoop) {
      assert s.handles == h.(created := h.created + {LoopedClip});
    } else {
      var h1 := Handles(h.locals, h.created + {LoopedClip}, h.closed + [LoopedClip]);
      NoDuplicatesConcat(h.closed, [LoopedClip]);
      assert Sound(h1, env) && CreatedBefore(h1, 3);
      assert s.handles == Hold(h1, h1.locals.(bgFinal := Some(TrimmedClip)), TrimmedClip);
      HoldBackgroundSound(env, h1, TrimmedClip);
    }
  }

  /** Storing a newly created object in the final-background local keeps
      the invariant: what it held before is either the opened background,
      still held by its own local, or the trimmed view. */
  lemma HoldBackgroundSound(env: Env, h: Handles, o: Obj)
    requires Sound(h, env) && CreatedBefore(h, 5)
    requires o in {TrimmedClip, ScaledBackground} && o !in h.created
    ensures Sound(Hold(h, h.locals.(bgFinal := Some(o)), o), env)
  {
    var l := h.locals.(bgFinal := Some(o));
    var h' := Hold(h, l, o);
    assert Held(l) <= Held(h.locals) + {o};
    assert o in Held(l);
    forall x | x in h'.created && x !in h'.closed && x !in Held(l)
      ensures Leakable(env, x)
    {
      if x in Held(h.locals) {
        assert x == h.locals.bgFinal.value;
        assert Rank(x) < 5;
      }
    }
  }

  /** The gain stage keeps the invariant: the copy it may make is never
      held, and the scaled background replaces the final background. */
  lemma ScaleBackgroundSound(env: Env, gain: real, bg: Track, h: Handles)
    requires Sound(h, env) && CreatedBefore(h, 4)
    ensures Sound(ScaleBackgroundStage(env, gain, bg, h).handles, env)
    ensures CreatedBefore(ScaleBackgroundStage(env, gain, bg, h).handles, 6)
  {
    var copied := h.locals.bgFinal == h.locals.bgClip;
    if !(copied && Raises(env, CopyBackground)) {
      var h1 := if copied then h.(created := h.created + {BackgroundCopy}) else h;
      assert Sound(h1, env) && CreatedBefore(h1, 5);
      if !Raises(env, ScaleBackground) {
        assert ScaledBackground !in h1.created;
        HoldBackgroundSound(env, h1, ScaledBackground);
      }
    }
  }

  lemma AssembleMixSound(env: Env, req: Request, bg: Track, h: Handles)
    requires Sound(h, env) && CreatedBefore(h, 6)
    ensures Sound(AssembleMix(env, req, bg, h).handles, env)
  {
    var original := env.video.audio;
    if original.Some? && Raises(env, ScaleOriginal) {
    } else {
      var h1 := if original.Some? then Hold(h, h.locals.(originalAudio := Some(ScaledOriginal)), ScaledOriginal) else h;
      if original.Some? {
        assert ScaledOriginal !in h.created;
        HoldFreshSound(env, h, h.locals.(originalAudio := Some(ScaledOriginal)), ScaledOriginal);
      }
      assert Sound(h1, env) && CreatedBefore(h1, 7);
      if !Raises(env, ComposeMix) {
        assert MixedAudio !in h1.created;
        HoldFreshSound(env, h1, h1.locals.(finalAudio := Some(MixedAudio)), MixedAudio);
      }
    }
  }

  /** Storing a newly created object in a local that held nothing keeps the
      invariant. */
  lemma HoldFreshSound(env: Env, h: Handles, l: Locals, o: Obj)
    requires Sound(h, env)
    requires o !in h.created && o != LoopedClip
    requires WellTyped(l)
    requires Held(l) == Held(h.locals) + {o}
    requires l.bgFinal == h.locals.bgFinal && l.bgClip == h.locals.bgClip
    ensures Sound(Hold(h, l, o), env)
  {
  }

  /** Writing keeps the invariant: the video with the new audio is never
      held, so leaving it unclosed is expected. */
  lemma WriteOutputSound(env: Env, path: string, audio: Option<Track>, h: Handles)
    requires Sound(h, env)
    ensures Sound(WriteOutput(env, path, audio, h).handles, env)
  {
  }

  lemma TryBlockSound(req: Request, env: Env)
    ensures Sound(TryBlock(req, env).handles, env)
  {
    var s1 := LoadSources(env);
    LoadSourcesSound(env);
    if s1.result.Success? {
      var s2 := AdjustBackground(env, s1.handles);
      AdjustBackgroundSound(env, s1.handles);
      if s2.result.Success? {
        var s3 := ScaleBackgroundStage(env, req.backgroundVolume, s2.result.value, s2.handles);
        ScaleBackgroundSound(env, req.backgroundVolume, s2.result.value, s2.handles);
        if s3.result.Success? {
          var s4 := AssembleMix(env, req, s3.result.value, s3.handles);
          AssembleMixSound(env, req, s3.result.value, s3.handles);
          if s4.result.Success? {
            WriteOutputSound(env, req.outputPath, s4.result.value, s4.handles);
          }
        }
      }
    }
  }

  /** On every path out of a combine call: nothing is closed twice, only
      created objects are closed, the opened video and background are
      always released, and the only objects left unclosed are the trimmed
      view, the copy of the opened background, the video with the new audio
      and a looped composite whose cut raised. */
  lemma {:induction false} RunReleasesHandles(req: Request, env: Env)
    ensures var o := Run(req, env);
            && NoDuplicates(o.closed)
            && (forall x :: x in o.closed ==> x in o.created)
            && (forall x :: x in o.created && x !in o.closed ==> Leakable(env, x))
            && (VideoClip in o.created ==> VideoClip in o.closed)
            && (BackgroundClip in o.created ==> BackgroundClip in o.closed)
  {
    if req.videoPath in env.existing && req.audioPath in env.existing {
      var s := TryBlock(req, env);
      TryBlockSound(req, env);
      CleanupClosesHeldOnce(s.handles.locals);
      NoDuplicatesConcat(s.handles.closed, Cleanup(s.handles.locals));
    }
  }

  /** The looped composite is released exactly when cutting it succeeded. */
  lemma LoopedReleasedUnlessCutFails(req: Request, env: Env)
    ensures LoopedClip in Run(req, env).created ==>
              (LoopedClip in Run(req, env).closed <==> !Raises(env, SubclipLoop))
  {
    var o := Run(req, env);
    if req.videoPath !in env.existing || req.audioPath !in env.existing {
      return;
    }
    var s := TryBlock(req, env);
    TryBlockSound(req, env);
    assert o.created == s.handles.created;
    assert o.closed == s.handles.closed + Cleanup(s.handles.locals);
    LoopedNeverHeld(s.handles.locals);
  }

  /** No local ever holds the looped composite, so the `finally` block never
      closes it. */
  lemma LoopedNeverHeld(l: Locals)
    requires WellTyped(l)
    ensures LoopedClip !in Held(l)
    ensures LoopedClip !in Cleanup(l)
  {
    CleanupCoversHeld(l);
  }
}
