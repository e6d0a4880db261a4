/** Keyframe selection from the animation clock: the render loop turns the
    accumulated time (in seconds) into the current keyframe index
    `(int) floor(time) % 6`, the blend fraction `time - floor(time)`, and
    `eval_bone_transforms` blends towards keyframe `(n + 1) % 6`. */
module FrameClock {

  /** The number of keyframe pose files, `poses(6)`; every `% 6` in the
      evaluation refers to it. */
  const KeyframeCount: int := 6

  /** C++ `%` on `int`: the quotient truncates toward zero, so the remainder
      has the sign of the dividend (Dafny's own `%` never goes negative). */
  function CppMod(a: int, m: int): (r: int)
    requires m > 0
    ensures a >= 0 ==> 0 <= r < m
    ensures a < 0 ==> -m < r <= 0
    ensures a >= 0 ==> r == a % m
  {
    if a >= 0 then a % m else -((-a) % m)
  }

  /** `numpose = (int) floor(time) % 6`. */
  function FrameIndex(time: real): (n: int)
    ensures time >= 0.0 ==> 0 <= n < KeyframeCount
    ensures time >= 0.0 ==> n == time.Floor % KeyframeCount
  {
    CppMod(time.Floor, KeyframeCount)
  }

  /** `ts = time - floor(time)`, the position between two keyframes. */
  function FrameFraction(time: real): (t: real)
    ensures 0.0 <= t < 1.0
    ensures (time - t).Floor as real == time - t
  {
    time - time.Floor as real
  }

  /** `n1 = (n + 1) % 6`, the keyframe blended towards. */
  function NextFrame(n: int): (n1: int)
    ensures 0 <= n < KeyframeCount - 1 ==> n1 == n + 1
    ensures n == KeyframeCount - 1 ==> n1 == 0
    ensures 0 <= n < KeyframeCount ==> 0 <= n1 < KeyframeCount
  {
    CppMod(n + 1, KeyframeCount)
  }

  /** For a non-negative clock, index and fraction recover the time: it is
      a whole number of six-second cycles, plus the keyframe index, plus the
      fraction. */
  lemma TimeDecomposes(time: real)
    requires time >= 0.0
    ensures time == (KeyframeCount * (time.Floor / KeyframeCount) + FrameIndex(time)) as real
                    + FrameFraction(time)
  {
    var f := time.Floor;
    assert f == KeyframeCount * (f / KeyframeCount) + f % KeyframeCount;
  }

  /** One second later the current keyframe is the one `eval_bone_transforms`
      was blending towards, and the fraction is the same. */
  lemma NextSecond(time: real)
    requires time >= 0.0
    ensures FrameIndex(time + 1.0) == NextFrame(FrameIndex(time))
    ensures FrameFraction(time + 1.0) == FrameFraction(time)
  {
    var f := time.Floor;
    assert (time + 1.0).Floor == f + 1;
    var q := f / KeyframeCount;
    assert f == KeyframeCount * q + f % KeyframeCount;
    if f % KeyframeCount == KeyframeCount - 1 {
      assert f + 1 == KeyframeCount * (q + 1);
    } else {
      assert f + 1 == KeyframeCount * q + (f % KeyframeCount + 1);
    }
  }

  /** The clock is never negative in the render loop; were it negative the
      truncating `%` would give a negative index, which is why the range
      guarantee of FrameIndex needs `time >= 0`. */
  lemma NegativeTimeGivesNegativeIndex()
    ensures FrameIndex(-0.5) == -1
  {
    assert (-0.5).Floor == -1;
  }
}
