/** Duration reconciliation: making the background track exactly as long as
    the video, by looping it when it is shorter and trimming it when it is
    longer. */
module Reconciliation {
  import opened Wrappers
  import opened Signal

  /** How many copies of a background of `b` samples are laid end to end to
      cover a video of `v` samples: one more than the number of whole copies
      that fit. */
  function LoopCount(v: nat, b: nat): nat
    requires b > 0
  {
    v / b + 1
  }

  /** The copies always reach past the end of the video, so cutting the
      repetition at `v` is well defined. */
  lemma LoopCountCovers(v: nat, b: nat)
    requires b > 0
    ensures LoopCount(v, b) * b > v
    ensures (LoopCount(v, b) - 1) * b <= v
  {
    var q := v / b;
    assert q * b + v % b == v;
    assert LoopCount(v, b) * b == q * b + b;
  }

  // ---------------------------------------------------------------------------
  // Arithmetic facts about the loop count and the period of a repetition

  lemma MulMonotone(a: nat, c: nat, b: nat)
    ensures a <= c ==> a * b <= c * b
  {
    if a <= c {
      assert c * b == a * b + (c - a) * b;
    }
  }

  /** Euclidean division is determined by quotient and remainder. */
  lemma DivModUnique(x: nat, b: nat, q: nat, m: nat)
    requires 0 <= m < b
    requires x == q * b + m
    ensures x / b == q
    ensures x % b == m
  {
    var q0 := x / b;
    var m0 := x % b;
    assert q0 * b + m0 == x;
    assert (q0 + 1) * b == q0 * b + b;
    assert (q + 1) * b == q * b + b;
    MulMonotone(q0 + 1, q, b);
    MulMonotone(q + 1, q0, b);
  }

  /** Shifting a position by one whole period keeps its place in the period. */
  lemma ModShift(i: nat, b: nat)
    requires 0 < b <= i
    ensures (i - b) % b == i % b
  {
    var q := (i - b) / b;
    var m := (i - b) % b;
    assert i - b == q * b + m;
    assert i == (q + 1) * b + m;
    DivModUnique(i, b, q + 1, m);
  }

  /** `n` copies of `t`, end to end. */
  function Repeat(t: Track, n: nat): (r: Track)
    ensures |r| == n * |t|
    ensures forall i :: 0 <= i < |r| ==> r[i] == t[i % |t|]
  {
    if n == 0 then []
    else
      var rest := Repeat(t, n - 1);
      assert n * |t| == |t| + (n - 1) * |t|;
      assert forall i :: |t| <= i < |t + rest| ==> (t + rest)[i] == t[i % |t|] by {
        forall i | |t| <= i < |t + rest|
          ensures (t + rest)[i] == t[i % |t|]
        {
          ModShift(i, |t|);
        }
      }
      assert forall i :: 0 <= i < |t| ==> i % |t| == i by {
        forall i | 0 <= i < |t|
          ensures i % |t| == i
        {
          DivModUnique(i, |t|, 0, i);
        }
      }
      t + rest
  }

  /** The background reconciled with a video of `v` samples (main.py, the
      three-way branch on the durations). `None` stands for the
      division by zero that a silent, zero-length background causes in the
      loop-count formula when the video is longer. */
  function Reconcile(bg: Track, v: nat): (r: Option<Track>)
    ensures r.None? <==> |bg| == 0 < v
    ensures r.Some? ==> |r.value| == v
    ensures r.Some? && |bg| > 0 ==> forall i :: 0 <= i < v ==> r.value[i] == bg[i % |bg|]
    ensures v <= |bg| ==> r == Some(bg[..v])
  {
    if |bg| < v then
      if |bg| == 0 then None
      else
        LoopCountCovers(v, |bg|);
        Some(Repeat(bg, LoopCount(v, |bg|))[..v])
    else if |bg| > v then
      PrefixIsPeriodic(bg, v);
      Some(bg[..v])
    else
      assert bg[..v] == bg;
      PrefixIsPeriodic(bg, v);
      Some(bg)
  }

  /** A prefix no longer than the background trivially follows its period. */
  lemma PrefixIsPeriodic(bg: Track, v: nat)
    requires v <= |bg|
    ensures forall i :: 0 <= i < v ==> bg[..v][i] == bg[i % |bg|]
  {
    forall i | 0 <= i < v
      ensures bg[..v][i] == bg[i % |bg|]
    {
      DivModUnique(i, |bg|, 0, i);
    }
  }

  /** When the background is shorter, each full period of the result is
      the whole background. */
  lemma LoopedPeriod(bg: Track, v: nat, k: nat)
    requires 0 < |bg| < v
    requires k < v / |bg|
    ensures (k + 1) * |bg| <= v
    ensures Reconcile(bg, v).value[k * |bg| .. (k + 1) * |bg|] == bg
  {
    var b := |bg|;
    var r := Reconcile(bg, v).value;
    LoopCountCovers(v, b);
    MulMonotone(k + 1, v / b, b);
    assert (k + 1) * b == k * b + b;
    var period := r[k * b .. (k + 1) * b];
    forall j | 0 <= j < b
      ensures period[j] == bg[j]
    {
      assert period[j] == r[k * b + j];
      DivModUnique(k * b + j, b, k, j);
    }
  }

  /** When the background is shorter, what follows the last full period is a
      prefix of the background. */
  lemma LoopedRemainder(bg: Track, v: nat)
    requires 0 < |bg| < v
    ensures (v / |bg|) * |bg| <= v
    ensures Reconcile(bg, v).value[(v / |bg|) * |bg| ..] == bg[..v % |bg|]
  {
    var b := |bg|;
    var q := v / b;
    var r := Reconcile(bg, v).value;
    assert q * b + v % b == v;
    var tail := r[q * b ..];
    forall j | 0 <= j < v % b
      ensures tail[j] == bg[j]
    {
      assert tail[j] == r[q * b + j];
      DivModUnique(q * b + j, b, q, j);
    }
  }
}
