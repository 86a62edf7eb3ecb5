/** Audio signals as finite sample sequences.

    A track holds one amplitude per sample at a single common sample rate, so
    a duration is a sample count. Amplitudes are exact reals; the floating-point
    arithmetic of the media library is not modelled. */
module Signal {

  type Track = seq<real>

  /** The amplitude of `t` at sample `i`; a track is silent past its end. */
  function At(t: Track, i: nat): real
  {
    if i < |t| then t[i] else 0.0
  }

  function Max(a: nat, b: nat): nat
  {
    if a < b then b else a
  }

  /** `n` samples of silence. */
  function Silence(n: nat): (r: Track)
    ensures |r| == n
  {
    seq(n, _ => 0.0)
  }

  /** Applies a linear gain `k` to every sample (1.0 is unity, 0.0 mutes). */
  function Scale(t: Track, k: real): (r: Track)
    ensures |r| == |t|
  {
    seq(|t|, i requires 0 <= i < |t| => k * t[i])
  }

  /** Sums two tracks sample by sample. The shorter one is padded with
      silence, so the sum lasts as long as the longer one. */
  function Add(a: Track, b: Track): (r: Track)
    ensures |r| == Max(|a|, |b|)
    ensures forall i :: 0 <= i < |r| ==> r[i] == At(a, i) + At(b, i)
  {
    seq(Max(|a|, |b|), i requires 0 <= i => At(a, i) + At(b, i))
  }

  /** The duration of a composite: the longest member's duration. */
  function MaxLen(ts: seq<Track>): nat
  {
    if |ts| == 0 then 0 else Max(|ts[0]|, MaxLen(ts[1..]))
  }

  /** Reference definition of one output sample of a composite: the sum of
      every member's amplitude at that sample. */
  function SumAt(ts: seq<Track>, i: nat): real
  {
    if |ts| == 0 then 0.0 else At(ts[0], i) + SumAt(ts[1..], i)
  }

  /** A composite of `ts`: all members start together and are summed. */
  function Mix(ts: seq<Track>): (r: Track)
    ensures |r| == MaxLen(ts)
    ensures forall i :: 0 <= i < |r| ==> r[i] == SumAt(ts, i)
    ensures forall i :: |r| <= i ==> SumAt(ts, i) == 0.0
  {
    if |ts| == 0 then [] else Add(ts[0], Mix(ts[1..]))
  }

  /** Every member of `ts`, scaled by `k`. */
  function ScaleAll(ts: seq<Track>, k: real): (r: seq<Track>)
    ensures |r| == |ts|
  {
    seq(|ts|, i requires 0 <= i < |ts| => Scale(ts[i], k))
  }

  // ---------------------------------------------------------------------------
  // Properties of volume scaling

  /** Scaling multiplies each sample and keeps the duration. */
  lemma ScaleSamples(t: Track, k: real, i: nat)
    requires i < |t|
    ensures Scale(t, k)[i] == k * t[i]
    ensures At(Scale(t, k), i) == k * At(t, i)
  {
  }

  /** The same, at any position: past the end both sides are silent. */
  lemma AtScale(t: Track, k: real, i: nat)
    ensures At(Scale(t, k), i) == k * At(t, i)
  {
    if i < |t| {
      ScaleSamples(t, k, i);
    }
  }

  /** A gain of 1.0 leaves the track unchanged. */
  lemma ScaleUnity(t: Track)
    ensures Scale(t, 1.0) == t
  {
  }

  /** A gain of 0.0 turns the track into silence of the same duration. */
  lemma ScaleMute(t: Track)
    ensures Scale(t, 0.0) == Silence(|t|)
  {
  }

  /** Scaling is linear: it distributes over the sample-wise sum. */
  lemma ScaleAdd(x: Track, y: Track, k: real)
    ensures Scale(Add(x, y), k) == Add(Scale(x, k), Scale(y, k))
  {
    var l := Scale(Add(x, y), k);
    var r := Add(Scale(x, k), Scale(y, k));
    assert |l| == |r|;
    forall i | 0 <= i < |l|
      ensures l[i] == r[i]
    {
      var sx, sy := At(x, i), At(y, i);
      assert l[i] == k * (sx + sy);
      AtScale(x, k, i);
      AtScale(y, k, i);
      assert r[i] == k * sx + k * sy;
    }
  }

  /** Volume commutes with mixing: scaling a composite equals the composite
      of the scaled members. */
  lemma {:induction false} ScaleMix(ts: seq<Track>, k: real)
    ensures Scale(Mix(ts), k) == Mix(ScaleAll(ts, k))
    decreases |ts|
  {
    if |ts| == 0 {
    } else {
      assert ScaleAll(ts, k)[1..] == ScaleAll(ts[1..], k);
      ScaleMix(ts[1..], k);
      ScaleAdd(ts[0], Mix(ts[1..]), k);
    }
  }

  // ---------------------------------------------------------------------------
  // Properties of mixing

  /** Sample-wise addition is commutative. */
  lemma AddCommutes(a: Track, b: Track)
    ensures Add(a, b) == Add(b, a)
  {
  }

  /** Adding silence no longer than a track leaves the track unchanged. */
  lemma AddSilence(t: Track, n: nat)
    requires n <= |t|
    ensures Add(t, Silence(n)) == t
    ensures Add(Silence(n), t) == t
  {
  }

  /** A composite of one member is that member. */
  lemma MixSingle(t: Track)
    ensures Mix([t]) == t
  {
    assert [t][1..] == [];
  }

  /** A composite of two members is their sample-wise sum, in list order. */
  lemma MixPair(a: Track, b: Track)
    ensures Mix([a, b]) == Add(a, b)
  {
    assert [a, b][1..] == [b];
    MixSingle(b);
  }
}
