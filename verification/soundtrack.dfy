/** What the combine operation promises about the soundtrack it writes. */
module Soundtrack {
  import opened Wrappers
  import opened Signal
  import opened Reconciliation
  import opened Combiner

  /** The video's own audio, or no samples when it has none. */
  function OwnAudio(video: Video): Track
  {
    if video.audio.Some? then video.audio.value else []
  }

  /** The final composite, sample by sample: the video's own audio at its
      gain plus the (already scaled) background, lasting as long as the
      longer of the two. */
  lemma MixListSamples(original: Option<Track>, bg: Track, gain: real)
    ensures var own := if original.Some? then original.value else [];
            var out := Mix(MixList(original, bg, gain));
            && |out| == Max(|own|, |bg|)
            && forall i :: 0 <= i < |out| ==> out[i] == gain * At(own, i) + At(bg, i)
  {
    var own := if original.Some? then original.value else [];
    var ts := MixList(original, bg, gain);
    if original.Some? {
      MixPair(ts[0], ts[1]);
      forall i | 0 <= i < |Mix(ts)|
        ensures Mix(ts)[i] == gain * At(own, i) + At(bg, i)
      {
        if i < |own| {
          ScaleSamples(own, gain, i);
        }
      }
    } else {
      MixSingle(ts[0]);
    }
  }

  /** The soundtrack written for `video` over background `background`. */
  function WrittenTrack(video: Video, background: Track, originalVolume: real, backgroundVolume: real): Track
    requires !(|background| == 0 < video.duration)
  {
    var rec := Reconcile(background, video.duration).value;
    Mix(MixList(video.audio, Scale(rec, backgroundVolume), originalVolume))
  }

  /** The order of the two tracks in the mix list does not matter: listing
      the background first gives the same soundtrack. */
  lemma MixOrderIrrelevant(original: Option<Track>, bg: Track, gain: real)
    ensures original.Some? ==>
              Mix(MixList(original, bg, gain)) == Mix([bg, Scale(original.value, gain)])
  {
    if original.Some? {
      var own := Scale(original.value, gain);
      MixPair(own, bg);
      MixPair(bg, own);
      AddCommutes(own, bg);
    }
  }

  /** Every sample of the soundtrack is the video's own sample at the
      original gain plus the reconciled background's sample at the
      background gain. */
  lemma SoundtrackSamples(video: Video, background: Track, originalVolume: real, backgroundVolume: real)
    requires !(|background| == 0 < video.duration)
    ensures var out := WrittenTrack(video, background, originalVolume, backgroundVolume);
            var rec := Reconcile(background, video.duration).value;
            && |out| == Max(|OwnAudio(video)|, video.duration)
            && (forall i :: 0 <= i < |out| ==>
                  out[i] == originalVolume * At(OwnAudio(video), i) + backgroundVolume * At(rec, i))
  {
    var rec := Reconcile(background, video.duration).value;
    assert WrittenTrack(video, background, originalVolume, backgroundVolume)
           == Mix(MixList(video.audio, Scale(rec, backgroundVolume), originalVolume));
    ScaledMixSamples(video.audio, rec, originalVolume, backgroundVolume);
  }

  /** The composite of the video's own audio at one gain and a background at
      another, sample by sample. */
  lemma ScaledMixSamples(original: Option<Track>, rec: Track, originalVolume: real, backgroundVolume: real)
    ensures var own := if original.Some? then original.value else [];
            var out := Mix(MixList(original, Scale(rec, backgroundVolume), originalVolume));
            && |out| == Max(|own|, |rec|)
            && (forall i :: 0 <= i < |out| ==>
                  out[i] == originalVolume * At(own, i) + backgroundVolume * At(rec, i))
  {
    var bg := Scale(rec, backgroundVolume);
    MixListSamples(original, bg, originalVolume);
    var out := Mix(MixList(original, bg, originalVolume));
    forall i | 0 <= i < |out|
      ensures At(bg, i) == backgroundVolume * At(rec, i)
    {
      AtScale(rec, backgroundVolume, i);
    }
  }

  /** Within the video, the reconciled background repeats with the period of
      the background's own duration. */
  lemma ReconciledIsPeriodic(background: Track, v: nat, i: nat)
    requires !(|background| == 0 < v)
    requires i < v
    ensures At(Reconcile(background, v).value, i) == background[i % |background|]
  {
  }

  /** With the background gain at 0.0, each soundtrack sample is the video's
      own sample at its gain. */
  lemma MutedBackgroundLeavesOriginal(video: Video, background: Track, originalVolume: real)
    requires !(|background| == 0 < video.duration)
    ensures var out := WrittenTrack(video, background, originalVolume, 0.0);
            forall i :: 0 <= i < |out| ==> out[i] == originalVolume * At(OwnAudio(video), i)
  {
    SoundtrackSamples(video, background, originalVolume, 0.0);
    var out := WrittenTrack(video, background, originalVolume, 0.0);
    var rec := Reconcile(background, video.duration).value;
    forall i | 0 <= i < |out|
      ensures out[i] == originalVolume * At(OwnAudio(video), i)
    {
      var own, b := At(OwnAudio(video), i), At(rec, i);
      assert out[i] == originalVolume * own + 0.0 * b;
    }
  }

  /** A successful combine call writes the video, with this soundtrack, to
      the requested output path. */
  lemma RunWritesSoundtrack(req: Request, env: Env)
    requires Run(req, env).result.Success?
    ensures !(|env.background| == 0 < env.video.duration)
    ensures Run(req, env).result.value ==
              Written(req.outputPath, Video(env.video.duration,
                    Some(WrittenTrack(env.video, env.background, req.originalVolume, req.backgroundVolume))))
  {
  }

  /** The soundtrack lasts exactly as long as the video, whatever the
      background's own duration, provided the video's own audio is not
      longer than the video. */
  lemma OutputLastsAsLongAsVideo(req: Request, env: Env)
    requires Run(req, env).result.Success?
    requires env.video.audio.Some? ==> |env.video.audio.value| <= env.video.duration
    ensures Run(req, env).result.value.video.duration == env.video.duration
    ensures Run(req, env).result.value.video.audio.Some?
    ensures |Run(req, env).result.value.video.audio.value| == env.video.duration
  {
    RunWritesSoundtrack(req, env);
    SoundtrackSamples(env.video, env.background, req.originalVolume, req.backgroundVolume);
  }

  /** A video without audio gets the scaled background alone, whatever the
      original gain is. */
  lemma SilentVideoGetsBackgroundOnly(req: Request, env: Env)
    requires Run(req, env).result.Success?
    requires env.video.audio.None?
    ensures Run(req, env).result.value.video.audio ==
              Some(Scale(Reconcile(env.background, env.video.duration).value, req.backgroundVolume))
  {
    var bg := Scale(Reconcile(env.background, env.video.duration).value, req.backgroundVolume);
    MixSingle(bg);
  }

  /** With the original gain at 0.0, each soundtrack sample is the
      background's sample at its gain, silence past the background's end. */
  lemma MutedOriginalSamples(video: Video, background: Track, backgroundVolume: real)
    requires !(|background| == 0 < video.duration)
    ensures var out := WrittenTrack(video, background, 0.0, backgroundVolume);
            var rec := Reconcile(background, video.duration).value;
            forall i :: 0 <= i < |out| ==> out[i] == backgroundVolume * At(rec, i)
  {
    var out := WrittenTrack(video, background, 0.0, backgroundVolume);
    var rec := Reconcile(background, video.duration).value;
    SoundtrackSamples(video, background, 0.0, backgroundVolume);
    forall i | 0 <= i < |out|
      ensures out[i] == backgroundVolume * At(rec, i)
    {
      var own, b := At(OwnAudio(video), i), At(rec, i);
      assert out[i] == 0.0 * own + backgroundVolume * b;
    }
  }

  /** With the original gain at 0.0, each soundtrack sample is the scaled
      background's sample. When the video's own audio is no longer than the
      video, the soundtrack is the scaled background itself; a longer own
      track leaves silence after the background ends. */
  lemma MutedOriginalGetsBackgroundOnly(video: Video, background: Track, backgroundVolume: real)
    requires !(|background| == 0 < video.duration)
    ensures var out := WrittenTrack(video, background, 0.0, backgroundVolume);
            var rec := Reconcile(background, video.duration).value;
            && (forall i :: 0 <= i < |out| ==> out[i] == backgroundVolume * At(rec, i))
            && (|OwnAudio(video)| <= video.duration ==> out == Scale(rec, backgroundVolume))
  {
    var out := WrittenTrack(video, background, 0.0, backgroundVolume);
    var rec := Reconcile(background, video.duration).value;
    MutedOriginalSamples(video, background, backgroundVolume);
    if |OwnAudio(video)| <= video.duration {
      // the muted original is silence no longer than the scaled background
      var scaled := Scale(rec, backgroundVolume);
      assert out == Mix(MixList(video.audio, scaled, 0.0));
      if video.audio.Some? {
        var own := video.audio.value;
        MixPair(Scale(own, 0.0), scaled);
        ScaleMute(own);
        AddSilence(scaled, |own|);
      } else {
        MixSingle(scaled);
      }
    }
  }
}

/** Two end-to-end scenarios on the durations of the dummy inputs the
    command line can create (a 5-unit video, a 3-unit background tone, the
    default gains), here with one sample per unit. The dummy video carries
    its own tone, as in `ToneVideoOverShortTone`; the silent video of
    `SilentVideoOverShortTone` is a variant of it. */
module Scenarios {
  import opened Wrappers
  import opened Signal
  import opened Reconciliation
  import opened Combiner
  import opened Soundtrack

  const Paths: set<string> := {"my_test_video.mp4", "my_background_music.mp3"}

  function DummyRequest(): Request
  {
    Request("my_test_video.mp4", "my_background_music.mp3", "generated_my_test_video.mp4",
            DefaultOriginalVolume, DefaultBackgroundVolume)
  }

  /** A silent 5-sample video over a 3-sample tone: two copies are laid end
      to end and cut at 5, so the tone restarts after its third sample. */
  lemma SilentVideoOverShortTone(x: real, y: real, z: real)
    ensures LoopCount(5, 3) == 2
    ensures Run(DummyRequest(), Env(Paths, Video(5, None), [x, y, z], None)).result ==
              Success(Written(DummyRequest().outputPath,
                              Video(5, Some([0.5 * x, 0.5 * y, 0.5 * z, 0.5 * x, 0.5 * y]))))
  {
    var env := Env(Paths, Video(5, None), [x, y, z], None);
    var req := DummyRequest();
    assert Run(req, env).result.Success?;
    SilentVideoGetsBackgroundOnly(req, env);
    var rec := Reconcile([x, y, z], 5).value;
    DivModUnique(3, 3, 1, 0);
    DivModUnique(4, 3, 1, 1);
    assert rec == [x, y, z, x, y];
    assert Scale(rec, 0.5) == [0.5 * x, 0.5 * y, 0.5 * z, 0.5 * x, 0.5 * y];
    RunWritesSoundtrack(req, env);
  }

  /** A 5-sample video with its own tone `own` at full gain over the same
      3-sample background at half gain: the soundtrack is their sum. */
  lemma ToneVideoOverShortTone(own: Track, x: real, y: real, z: real)
    requires |own| == 5
    ensures var a := Run(DummyRequest(), Env(Paths, Video(5, Some(own)), [x, y, z], None)).result.value.video.audio.value;
            && |a| == 5
            && a[0] == own[0] + 0.5 * x
            && a[1] == own[1] + 0.5 * y
            && a[2] == own[2] + 0.5 * z
            && a[3] == own[3] + 0.5 * x
            && a[4] == own[4] + 0.5 * y
  {
    var env := Env(Paths, Video(5, Some(own)), [x, y, z], None);
    var req := DummyRequest();
    assert Run(req, env).result.Success?;
    RunWritesSoundtrack(req, env);
    SoundtrackSamples(env.video, env.background, req.originalVolume, req.backgroundVolume);
    forall i | 0 <= i < 5
      ensures At(Reconcile(env.background, 5).value, i) == env.background[i % 3]
    {
      ReconciledIsPeriodic(env.background, 5, i);
    }
    DivModUnique(3, 3, 1, 0);
    DivModUnique(4, 3, 1, 1);
  }
}
