/** `eval_bone_transforms`: one forward pass over the skeleton that
    overwrites a caller-owned buffer of world poses. A root bone takes its
    pose from the current keyframe; every other bone composes its parent's
    entry of the buffer, as already written in this pass, with its own local
    pose at the current and at the next keyframe, and blends the two results
    with the ease factor 3t^2 - 2t^3.

    The pass is specified twice: Pass is the buffer after the first k loop
    iterations, whatever the parent indices are; World is the recursive
    world pose of a bone, defined when every parent precedes its children.
    The method is proved against Pass, and Pass is proved to agree with World
    on a well-ordered skeleton. */
module Animation {
  import opened Vector
  import opened Quaternion
  import opened BonePose
  import opened FrameClock

  /** A `bone` record: the parent's index (-1 for a root), the bind offset
      and the bind rotation. The evaluation reads only the parent index. */
  datatype Bone = Bone(parentId: int, offset: Vec3, rotation: Quat)

  /** `glm::slerp(x, y, a)`. Its trigonometry and epsilon branches are not
      modelled: the evaluation takes it as a parameter. */
  type Slerp = (Quat, Quat, real) -> Quat

  /** The arguments of one `eval_bone_transforms(bp, poses, bones, n, t)`
      call, besides the buffer: the skeleton, the keyframe poses
      `poses[frame][bone]`, the current keyframe index, the blend fraction,
      and the slerp in use. */
  datatype Inputs = Inputs(bones: seq<Bone>, poses: seq<seq<Pose>>, n: int, t: real, slerp: Slerp)

  predicate IsRoot(b: Bone) {
    b.parentId == -1
  }

  /** The keyframe track is complete: six keyframes, the current index
      names one of them, and every keyframe has a pose for every bone. */
  predicate TrackCovers(bones: seq<Bone>, poses: seq<seq<Pose>>, n: int) {
    && |poses| == KeyframeCount
    && 0 <= n < KeyframeCount
    && (forall f :: 0 <= f < |poses| ==> |bones| <= |poses[f]|)
  }

  /** What the loop needs for every index it reads or writes to be in
      range, for a buffer of `capacity` entries: the track covers the
      skeleton, the skeleton fits the buffer, and every parent index is -1
      or a slot of the buffer. */
  predicate Evaluable(bones: seq<Bone>, poses: seq<seq<Pose>>, n: int, capacity: int) {
    && TrackCovers(bones, poses, n)
    && |bones| <= capacity
    && (forall i :: 0 <= i < |bones| ==> IsRoot(bones[i]) || 0 <= bones[i].parentId < capacity)
  }

  /** Parents are stored before their children, the order the single pass
      relies on. */
  predicate ParentsPrecede(bones: seq<Bone>) {
    forall i :: 0 <= i < |bones| ==> IsRoot(bones[i]) || 0 <= bones[i].parentId < i
  }

  /** The ease factor `3 * t * t - 2 * t * t * t`, computed once per blend
      and shared by the rotation, translation and scale blends. */
  function Smoothstep(t: real): (s: real)
    ensures t == 0.0 ==> s == 0.0
    ensures t == 1.0 ==> s == 1.0
    ensures 0.0 <= t <= 1.0 ==> 0.0 <= s <= 1.0
  {
    SmoothstepBounds(t);
    3.0 * t * t - 2.0 * t * t * t
  }

  lemma SmoothstepBounds(t: real)
    ensures 0.0 <= t <= 1.0 ==> 0.0 <= 3.0 * t * t - 2.0 * t * t * t <= 1.0
  {
    if 0.0 <= t <= 1.0 {
      NonnegProduct(t * t, 3.0 - 2.0 * t);
      assert 3.0 * t * t - 2.0 * t * t * t == t * t * (3.0 - 2.0 * t);
      NonnegProduct((1.0 - t) * (1.0 - t), 1.0 + 2.0 * t);
      assert 1.0 - (3.0 * t * t - 2.0 * t * t * t) == (1.0 - t) * (1.0 - t) * (1.0 + 2.0 * t);
    }
  }

  /** The ease factor never decreases on [0, 1], so a blend moves from the
      current keyframe towards the next one without turning back. */
  lemma SmoothstepMonotone(a: real, b: real)
    requires 0.0 <= a <= b <= 1.0
    ensures Smoothstep(a) <= Smoothstep(b)
  {
    var g := 3.0 * (a + b) - 2.0 * (a * a + a * b + b * b);
    assert Smoothstep(b) - Smoothstep(a) == (b - a) * g;
    GapNonneg(a, b);
    NonnegProduct(b - a, g);
  }

  lemma GapNonneg(a: real, b: real)
    requires 0.0 <= a <= b <= 1.0
    ensures 0.0 <= 3.0 * (a + b) - 2.0 * (a * a + a * b + b * b)
  {
    ProductAtMost(a, a);
    ProductAtMost(b, b);
    ProductAtMost(a, b);
    ProductAtMost(b, a);
    LinearGap(a, b, a * a, a * b, b * b);
  }

  lemma LinearGap(a: real, b: real, aa: real, ab: real, bb: real)
    requires aa <= a && bb <= b && ab <= a && ab <= b
    ensures 0.0 <= 3.0 * (a + b) - 2.0 * (aa + ab + bb)
  {
  }

  lemma NonnegProduct(x: real, y: real)
    requires 0.0 <= x && 0.0 <= y
    ensures 0.0 <= x * y
  {
  }

  lemma ProductAtMost(x: real, y: real)
    requires 0.0 <= x && y <= 1.0
    ensures x * y <= x
  {
    NonnegProduct(x, 1.0 - y);
    assert x * (1.0 - y) == x - x * y;
  }

  /** `glm::mix(x, y, s)` on floats: `x * (1 - s) + y * s`. */
  function MixScalar(x: real, y: real, s: real): (r: real)
    ensures s == 0.0 ==> r == x
    ensures s == 1.0 ==> r == y
    ensures 0.0 <= s <= 1.0 && x <= y ==> x <= r <= y
    ensures 0.0 <= s <= 1.0 && y <= x ==> y <= r <= x
  {
    var r := x * (1.0 - s) + y * s;
    MixBetween(x, y, s, r);
    r
  }

  lemma MixBetween(x: real, y: real, s: real, r: real)
    requires r == x * (1.0 - s) + y * s
    ensures 0.0 <= s <= 1.0 && x <= y ==> x <= r <= y
    ensures 0.0 <= s <= 1.0 && y <= x ==> y <= r <= x
  {
    if 0.0 <= s <= 1.0 && x <= y {
      NonnegProduct(y - x, s);
      NonnegProduct(y - x, 1.0 - s);
      assert r - x == (y - x) * s;
      assert y - r == (y - x) * (1.0 - s);
    }
    if 0.0 <= s <= 1.0 && y <= x {
      NonnegProduct(x - y, s);
      NonnegProduct(x - y, 1.0 - s);
      assert x - r == (x - y) * s;
      assert r - y == (x - y) * (1.0 - s);
    }
  }

  /** The blend of two candidate world poses: slerp on the rotations and
      mix on the translations and scales, all with the same factor. */
  function Blend(p0: Pose, p1: Pose, s: real, slerp: Slerp): (r: Pose)
    ensures r.rotation == slerp(p0.rotation, p1.rotation, s)
    ensures s == 0.0 ==> r.scale == p0.scale && r.translation == p0.translation
    ensures s == 1.0 ==> r.scale == p1.scale && r.translation == p1.translation
  {
    Pose(slerp(p0.rotation, p1.rotation, s),
         MixScalar(p0.scale, p1.scale, s),
         Mix(p0.translation, p1.translation, s))
  }

  /** The value one loop iteration writes to `bp[i]`, reading the buffer as
      it stands when the iteration starts. */
  function EvalBone(bp: seq<Pose>, inp: Inputs, i: int): Pose
    requires Evaluable(inp.bones, inp.poses, inp.n, |bp|)
    requires 0 <= i < |inp.bones|
  {
    var b := inp.bones[i];
    if IsRoot(b) then inp.poses[inp.n][i]
    else
      var parent := bp[b.parentId];
      Blend(Compose(parent, inp.poses[inp.n][i]),
            Compose(parent, inp.poses[NextFrame(inp.n)][i]),
            Smoothstep(inp.t), inp.slerp)
  }

  /** The buffer after the first k iterations of the loop. */
  function Pass(bp: seq<Pose>, inp: Inputs, k: int): (r: seq<Pose>)
    requires Evaluable(inp.bones, inp.poses, inp.n, |bp|)
    requires 0 <= k <= |inp.bones|
    ensures |r| == |bp|
    decreases k
  {
    if k == 0 then bp
    else
      var before := Pass(bp, inp, k - 1);
      before[k - 1 := EvalBone(before, inp, k - 1)]
  }

  /** A bone's world pose, defined down the hierarchy. */
  function World(inp: Inputs, i: int): Pose
    requires TrackCovers(inp.bones, inp.poses, inp.n) && ParentsPrecede(inp.bones)
    requires 0 <= i < |inp.bones|
    decreases i
  {
    var b := inp.bones[i];
    if IsRoot(b) then inp.poses[inp.n][i]
    else
      var parent := World(inp, b.parentId);
      Blend(Compose(parent, inp.poses[inp.n][i]),
            Compose(parent, inp.poses[NextFrame(inp.n)][i]),
            Smoothstep(inp.t), inp.slerp)
  }

  /** A keyframe's own pose of a bone, composed down the hierarchy with no
      blending at all. */
  function KeyframeWorld(bones: seq<Bone>, poses: seq<seq<Pose>>, f: int, i: int): Pose
    requires TrackCovers(bones, poses, f) && ParentsPrecede(bones)
    requires 0 <= i < |bones|
    decreases i
  {
    if IsRoot(bones[i]) then poses[f][i]
    else Compose(KeyframeWorld(bones, poses, f, bones[i].parentId), poses[f][i])
  }

  /** Slots at or after k have not been written by the first k iterations. */
  lemma {:induction false} PassLeavesRest(bp: seq<Pose>, inp: Inputs, k: int, j: int)
    requires Evaluable(inp.bones, inp.poses, inp.n, |bp|)
    requires 0 <= k <= |inp.bones| && k <= j < |bp|
    ensures Pass(bp, inp, k)[j] == bp[j]
  {
    if k > 0 {
      PassLeavesRest(bp, inp, k - 1, j);
    }
  }

  /** Once iteration j has written slot j, later iterations leave it alone. */
  lemma {:induction false} PassKeepsWritten(bp: seq<Pose>, inp: Inputs, k: int, j: int)
    requires Evaluable(inp.bones, inp.poses, inp.n, |bp|)
    requires 0 <= j < k <= |inp.bones|
    ensures Pass(bp, inp, k)[j] == Pass(bp, inp, j + 1)[j]
  {
    if k > j + 1 {
      PassKeepsWritten(bp, inp, k - 1, j);
    }
  }

  /** Every root bone ends up with the current keyframe's pose, exactly,
      whatever the blend fraction and whatever the other bones' parents. */
  lemma PassRoots(bp: seq<Pose>, inp: Inputs, k: int, j: int)
    requires Evaluable(inp.bones, inp.poses, inp.n, |bp|)
    requires 0 <= j < k <= |inp.bones| && IsRoot(inp.bones[j])
    ensures Pass(bp, inp, k)[j] == inp.poses[inp.n][j]
  {
    PassKeepsWritten(bp, inp, k, j);
  }

  /** When parents precede children, every slot the pass has written holds
      the bone's world pose: the parent a bone reads has already been
      finalised in this pass. */
  lemma {:induction false} PassComputesWorld(bp: seq<Pose>, inp: Inputs, k: int)
    requires Evaluable(inp.bones, inp.poses, inp.n, |bp|) && ParentsPrecede(inp.bones)
    requires 0 <= k <= |inp.bones|
    ensures forall j :: 0 <= j < k ==> Pass(bp, inp, k)[j] == World(inp, j)
  {
    if k > 0 {
      PassComputesWorld(bp, inp, k - 1);
      var before := Pass(bp, inp, k - 1);
      var b := inp.bones[k - 1];
      if !IsRoot(b) {
        assert before[b.parentId] == World(inp, b.parentId);
      }
      assert EvalBone(before, inp, k - 1) == World(inp, k - 1);
    }
  }

  /** Blending starts at the current keyframe: at t = 0 a child's scale
      and translation are exactly those of its parent's world pose times its
      own pose in keyframe n, whatever slerp does. */
  lemma ChildAtBlendStart(inp: Inputs, i: int)
    requires TrackCovers(inp.bones, inp.poses, inp.n) && ParentsPrecede(inp.bones)
    requires 0 <= i < |inp.bones| && !IsRoot(inp.bones[i]) && inp.t == 0.0
    ensures var c := Compose(World(inp, inp.bones[i].parentId), inp.poses[inp.n][i]);
            World(inp, i).scale == c.scale && World(inp, i).translation == c.translation
  {
  }

  /** With a slerp that returns its first argument at 0 (as `glm::slerp`
      does), the evaluated pose at t = 0 is keyframe n composed down the
      hierarchy, with no trace of keyframe n + 1. */
  lemma {:induction false} WorldAtKeyframe(inp: Inputs, i: int)
    requires TrackCovers(inp.bones, inp.poses, inp.n) && ParentsPrecede(inp.bones)
    requires 0 <= i < |inp.bones| && inp.t == 0.0
    requires forall a, b :: inp.slerp(a, b, 0.0) == a
    ensures World(inp, i) == KeyframeWorld(inp.bones, inp.poses, inp.n, i)
    decreases i
  {
    if !IsRoot(inp.bones[i]) {
      WorldAtKeyframe(inp, inp.bones[i].parentId);
    }
  }

  /** What `glm::slerp(x, y, 1)` returns. glm takes the short arc: when
      dot(x, y) < 0 it interpolates towards -y instead of y, so at factor 1
      the result is y or -y, which are the same rotation. */
  ghost predicate EndsAtTarget(slerp: Slerp) {
    forall a, b :: slerp(a, b, 1.0) == b || slerp(a, b, 1.0) == QScale(-1.0, b)
  }

  /** Towards the end of a second the blend reaches keyframe n + 1 for
      every child, but a root bone is never blended: it keeps keyframe n
      until the index changes. So the pose at t = 1 is keyframe n + 1
      composed down the hierarchy (up to the sign of each rotation, which
      glm's short-arc slerp may flip) exactly when every root bone has the
      same pose in both keyframes; otherwise the skeleton jumps at the
      boundary. */
  lemma WorldAtBlendEnd(inp: Inputs)
    requires TrackCovers(inp.bones, inp.poses, inp.n) && ParentsPrecede(inp.bones)
    requires inp.t == 1.0 && EndsAtTarget(inp.slerp)
    ensures TrackCovers(inp.bones, inp.poses, NextFrame(inp.n))
    ensures ReachesNextKeyframe(inp) <==> RootsAgree(inp.bones, inp.poses, inp.n, NextFrame(inp.n))
  {
    var n1 := NextFrame(inp.n);
    if RootsAgree(inp.bones, inp.poses, inp.n, n1) {
      forall i | 0 <= i < |inp.bones|
        ensures SameUpToSign(World(inp, i), KeyframeWorld(inp.bones, inp.poses, n1, i))
      {
        WorldAtNextKeyframe(inp, i);
      }
    } else {
      var r :| 0 <= r < |inp.bones| && IsRoot(inp.bones[r]) && !SameUpToSign(inp.poses[inp.n][r], inp.poses[n1][r]);
      assert !SameUpToSign(World(inp, r), KeyframeWorld(inp.bones, inp.poses, n1, r));
    }
  }

  /** Every bone's evaluated pose is keyframe n + 1 composed down the
      hierarchy, up to the sign of its rotation. */
  predicate ReachesNextKeyframe(inp: Inputs)
    requires TrackCovers(inp.bones, inp.poses, inp.n) && ParentsPrecede(inp.bones)
  {
    forall i :: 0 <= i < |inp.bones| ==>
      SameUpToSign(World(inp, i), KeyframeWorld(inp.bones, inp.poses, NextFrame(inp.n), i))
  }

  /** Every root bone has the same pose in keyframes f and g, up to the sign
      of its rotation. */
  predicate RootsAgree(bones: seq<Bone>, poses: seq<seq<Pose>>, f: int, g: int)
    requires TrackCovers(bones, poses, f) && TrackCovers(bones, poses, g)
  {
    forall i :: 0 <= i < |bones| && IsRoot(bones[i]) ==> SameUpToSign(poses[f][i], poses[g][i])
  }

  /** With the roots agreeing, every bone at t = 1 is keyframe n + 1
      composed down the hierarchy, up to the sign of its rotation, and so
      moves every point exactly as keyframe n + 1 does. */
  lemma {:induction false} WorldAtNextKeyframe(inp: Inputs, i: int)
    requires TrackCovers(inp.bones, inp.poses, inp.n) && ParentsPrecede(inp.bones)
    requires 0 <= i < |inp.bones| && inp.t == 1.0 && EndsAtTarget(inp.slerp)
    requires RootsAgree(inp.bones, inp.poses, inp.n, NextFrame(inp.n))
    ensures SameUpToSign(World(inp, i), KeyframeWorld(inp.bones, inp.poses, NextFrame(inp.n), i))
    ensures forall v :: Apply(World(inp, i), v) == Apply(KeyframeWorld(inp.bones, inp.poses, NextFrame(inp.n), i), v)
    decreases i
  {
    var n1 := NextFrame(inp.n);
    var target := KeyframeWorld(inp.bones, inp.poses, n1, i);
    if !IsRoot(inp.bones[i]) {
      var parent := inp.bones[i].parentId;
      WorldAtNextKeyframe(inp, parent);
      var reached := Compose(World(inp, parent), inp.poses[n1][i]);
      assert Smoothstep(inp.t) == 1.0;
      assert SameUpToSign(World(inp, i), reached);
      ComposeUpToSign(World(inp, parent), KeyframeWorld(inp.bones, inp.poses, n1, parent), inp.poses[n1][i]);
      SameUpToSignTrans(World(inp, i), reached, target);
    }
    forall v
      ensures Apply(World(inp, i), v) == Apply(target, v)
    {
      SameUpToSignApply(World(inp, i), target, v);
    }
  }

  /** The size of the `bone_transforms` buffer and of the shader's bone
      uniform arrays. */
  const MaxBones: int := 61

  /** The buffer is created once as 61 default poses and only its first
      `bones.size()` entries are ever written, so every later slot still
      holds the default pose (the identity transform) when uploaded. */
  lemma UnusedSlotsStayDefault(inp: Inputs, j: int)
    requires Evaluable(inp.bones, inp.poses, inp.n, MaxBones)
    requires |inp.bones| <= j < MaxBones
    ensures Pass(seq(MaxBones, _ => Default), inp, |inp.bones|)[j] == Default
  {
    PassLeavesRest(seq(MaxBones, _ => Default), inp, |inp.bones|, j);
  }

  /** Writes `bp[i]` for every bone i, in index order, exactly as
      `eval_bone_transforms` does. */
  method EvalBoneTransforms(bp: array<Pose>, poses: seq<seq<Pose>>, bones: seq<Bone>, n: int, t: real, slerp: Slerp)
    requires Evaluable(bones, poses, n, bp.Length)
    modifies bp
    ensures bp[..] == Pass(old(bp[..]), Inputs(bones, poses, n, t, slerp), |bones|)
    ensures forall i :: 0 <= i < |bones| && IsRoot(bones[i]) ==> bp[i] == poses[n][i]
    ensures forall i :: |bones| <= i < bp.Length ==> bp[i] == old(bp[i])
    ensures ParentsPrecede(bones) ==>
              forall i :: 0 <= i < |bones| ==> bp[i] == World(Inputs(bones, poses, n, t, slerp), i)
  {
    ghost var inp := Inputs(bones, poses, n, t, slerp);
    var n1 := NextFrame(n);
    var res := Default;
    var i := 0;
    while i < |bones|
      invariant 0 <= i <= |bones|
      invariant bp[..] == Pass(old(bp[..]), inp, i)
    {
      if IsRoot(bones[i]) {
        bp[i] := poses[n][i];
      } else {
        var p0 := Compose(bp[bones[i].parentId], poses[n][i]);
        var p1 := Compose(bp[bones[i].parentId], poses[n1][i]);
        res := res.(rotation := slerp(p0.rotation, p1.rotation, Smoothstep(t)));
        res := res.(translation := Mix(p0.translation, p1.translation, Smoothstep(t)));
        res := res.(scale := MixScalar(p0.scale, p1.scale, Smoothstep(t)));
        bp[i] := res;
      }
      i := i + 1;
    }
    forall j | 0 <= j < |bones| && IsRoot(bones[j]) ensures bp[j] == poses[n][j] {
      PassRoots(old(bp[..]), inp, |bones|, j);
    }
    forall j | |bones| <= j < bp.Length ensures bp[j] == old(bp[j]) {
      PassLeavesRest(old(bp[..]), inp, |bones|, j);
    }
    if ParentsPrecede(bones) {
      PassComputesWorld(old(bp[..]), inp, |bones|);
    }
  }
}
