/** The per-frame animation step of the render loop: advance the clock by
    the frame's duration, pick the keyframe and the blend fraction, evaluate
    the bone poses into the persistent 61-entry buffer, and upload the
    buffer to the shader's bone uniforms. */
module Render {
  import opened BonePose
  import opened FrameClock
  import opened Animation
  import opened Shader

  class Animator {
    /** The skeleton and the six keyframes, as loaded at start-up. */
    const bones: seq<Bone>
    const poses: seq<seq<Pose>>
    const slerp: Slerp
    /** `bone_transforms`, allocated once with 61 default poses. */
    const transforms: array<Pose>
    /** The accumulated time in seconds. */
    var time: real

    /** The buffer has one slot per uniform, every keyframe index can be
        evaluated into it, the clock is not negative, and the slots past the
        skeleton still hold the default pose. */
    predicate Valid()
      reads this, transforms
    {
      && transforms.Length == MaxBones
      && (forall n :: 0 <= n < KeyframeCount ==> Evaluable(bones, poses, n, MaxBones))
      && time >= 0.0
      && (forall j :: |bones| <= j < MaxBones ==> transforms[j] == Default)
    }

    /** The inputs `eval_bone_transforms` receives at the current time. */
    function CurrentInputs(): (inp: Inputs)
      reads this
      ensures time >= 0.0 ==> 0 <= inp.n < KeyframeCount && 0.0 <= inp.t < 1.0
    {
      Inputs(bones, poses, FrameIndex(time), FrameFraction(time), slerp)
    }

    constructor (bones: seq<Bone>, poses: seq<seq<Pose>>, slerp: Slerp)
      requires forall n :: 0 <= n < KeyframeCount ==> Evaluable(bones, poses, n, MaxBones)
      ensures Valid()
      ensures this.bones == bones && this.poses == poses && this.slerp == slerp
      ensures time == 0.0
      ensures fresh(transforms) && transforms[..] == seq(MaxBones, _ => Default)
    {
      this.bones := bones;
      this.poses := poses;
      this.slerp := slerp;
      transforms := new Pose[MaxBones](_ => Default);
      time := 0.0;
    }

    /** One frame: `time += dt`, evaluate at `floor(time) % 6` and
        `time - floor(time)`, then upload every slot. */
    method Frame(dt: real) returns (u: Uniforms)
      requires Valid() && dt >= 0.0
      modifies this, transforms
      ensures Valid()
      ensures time == old(time) + dt
      ensures transforms[..] == Pass(old(transforms[..]), CurrentInputs(), |bones|)
      ensures ParentsPrecede(bones) ==>
                forall i :: 0 <= i < |bones| ==> transforms[i] == World(CurrentInputs(), i)
      ensures u == UniformsOf(transforms[..])
    {
      time := time + dt;
      var numpose := FrameIndex(time);
      var ts := FrameFraction(time);
      EvalBoneTransforms(transforms, poses, bones, numpose, ts, slerp);
      u := UploadBones(transforms);
    }
  }
}
