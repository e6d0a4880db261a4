/** The skinning half of the vertex shader and the per-frame upload that
    feeds it. The shader stores a quaternion in a `vec4` with the scalar
    part in the first slot (`.x`) and the vector part in `.yzw`; the render
    loop uploads each pose's rotation as (w, x, y, z) to match. Every shader
    quaternion routine is shown to be the CPU-side Hamilton algebra read
    through that layout, so the laws proved for `glm::quat` carry over. */
module Shader {
  import opened Vector
  import opened Quaternion
  import opened BonePose

  /** A GLSL `vec4`, named by its slots. */
  datatype Vec4 = Vec4(x: real, y: real, z: real, w: real)

  /** `v.yzw`. */
  function Yzw(q: Vec4): Vec3 {
    Vec3(q.y, q.z, q.w)
  }

  /** The constructor `vec4(s, v)`. */
  function Vec4Of(s: real, v: Vec3): Vec4 {
    Vec4(s, v.x, v.y, v.z)
  }

  /** `quat_mult`: scalar product minus the dot product of the vector
      parts, and the scalar-weighted vector parts plus their cross product. */
  function QuatMult(q1: Vec4, q2: Vec4): Vec4 {
    Vec4Of(q1.x * q2.x - Dot(Yzw(q1), Yzw(q2)),
           Add(Add(Scale(q1.x, Yzw(q2)), Scale(q2.x, Yzw(q1))), Cross(Yzw(q1), Yzw(q2))))
  }

  /** `quat_conj`: negate the vector part. */
  function QuatConj(q: Vec4): Vec4 {
    Vec4Of(q.x, Neg(Yzw(q)))
  }

  /** `quat_rotate`: the vector part of q * (0, v) * conj(q). */
  function QuatRotate(q: Vec4, v: Vec3): Vec3 {
    Yzw(QuatMult(q, QuatMult(Vec4Of(0.0, v), QuatConj(q))))
  }

  /** The `glUniform4f(loc, r.w, r.x, r.y, r.z)` argument order: the
      scalar part lands in the shader's `.x`. */
  function UploadRotation(q: Quat): (r: Vec4)
    ensures r.x == q.w && Yzw(r) == Im(q)
  {
    Vec4(q.w, q.x, q.y, q.z)
  }

  /** How the shader reads a `vec4` back as a quaternion. */
  function ShaderQuat(r: Vec4): (q: Quat)
    ensures q.w == r.x && Im(q) == Yzw(r)
  {
    Quat(r.x, r.y, r.z, r.w)
  }

  /** The upload loses nothing: it is a bijection between quaternions and
      `vec4` values. */
  lemma UploadRoundTrip(q: Quat, r: Vec4)
    ensures ShaderQuat(UploadRotation(q)) == q
    ensures UploadRotation(ShaderQuat(r)) == r
  {
  }

  /** `quat_mult` on uploaded rotations is the Hamilton product. */
  lemma QuatMultIsMul(a: Quat, b: Quat)
    ensures QuatMult(UploadRotation(a), UploadRotation(b)) == UploadRotation(Mul(a, b))
  {
  }

  /** `quat_conj` on an uploaded rotation is the conjugate. */
  lemma QuatConjIsConj(q: Quat)
    ensures QuatConj(UploadRotation(q)) == UploadRotation(Conj(q))
  {
  }

  /** `quat_rotate` on an uploaded rotation is exactly the rotation the
      CPU side composes poses with. */
  lemma QuatRotateIsRotate(q: Quat, v: Vec3)
    ensures QuatRotate(UploadRotation(q), v) == Rotate(q, v)
  {
    QuatConjIsConj(q);
    assert Vec4Of(0.0, v) == UploadRotation(Pure(v));
    QuatMultIsMul(Pure(v), Conj(q));
    QuatMultIsMul(q, Mul(Pure(v), Conj(q)));
  }

  /** `vec4(1, 0, 0, 0)` is a two-sided identity for `quat_mult`. */
  lemma QuatMultIdentity(r: Vec4)
    ensures QuatMult(Vec4(1.0, 0.0, 0.0, 0.0), r) == r
    ensures QuatMult(r, Vec4(1.0, 0.0, 0.0, 0.0)) == r
  {
    var q := ShaderQuat(r);
    QuatMultIsMul(Identity, q);
    QuatMultIsMul(q, Identity);
    MulIdentity(q);
  }

  /** `quat_mult` is associative. */
  lemma QuatMultAssoc(a: Vec4, b: Vec4, c: Vec4)
    ensures QuatMult(QuatMult(a, b), c) == QuatMult(a, QuatMult(b, c))
  {
    var qa, qb, qc := ShaderQuat(a), ShaderQuat(b), ShaderQuat(c);
    QuatMultIsMul(qa, qb);
    QuatMultIsMul(Mul(qa, qb), qc);
    QuatMultIsMul(qb, qc);
    QuatMultIsMul(qa, Mul(qb, qc));
    MulAssoc(qa, qb, qc);
  }

  /** `quat_conj` is an involution and reverses products. */
  lemma QuatConjLaws(a: Vec4, b: Vec4)
    ensures QuatConj(QuatConj(a)) == a
    ensures QuatConj(QuatMult(a, b)) == QuatMult(QuatConj(b), QuatConj(a))
  {
    var qa, qb := ShaderQuat(a), ShaderQuat(b);
    QuatMultIsMul(qa, qb);
    QuatConjIsConj(Mul(qa, qb));
    QuatConjIsConj(qa);
    QuatConjIsConj(qb);
    QuatMultIsMul(Conj(qb), Conj(qa));
    ConjMul(qa, qb);
  }

  /** Rotating by the identity leaves a vector alone. */
  lemma QuatRotateIdentity(v: Vec3)
    ensures QuatRotate(Vec4(1.0, 0.0, 0.0, 0.0), v) == v
  {
    QuatRotateIsRotate(Identity, v);
    RotateIdentity(v);
  }

  /** `quat_rotate` is linear in the vector, and so fixes the zero vector. */
  lemma QuatRotateLinear(r: Vec4, u: Vec3, v: Vec3, k: real)
    ensures QuatRotate(r, Add(u, v)) == Add(QuatRotate(r, u), QuatRotate(r, v))
    ensures QuatRotate(r, Scale(k, v)) == Scale(k, QuatRotate(r, v))
    ensures QuatRotate(r, Zero) == Zero
  {
    var q := ShaderQuat(r);
    QuatRotateIsRotate(q, Zero);
    RotateZero(q);
    QuatRotateIsRotate(q, Add(u, v));
    QuatRotateIsRotate(q, u);
    QuatRotateIsRotate(q, v);
    QuatRotateIsRotate(q, Scale(k, v));
    RotateAdd(q, u, v);
    RotateScale(q, k, v);
  }

  /** Rotating by a product is rotating by the right factor, then the
      left. */
  lemma QuatRotateMult(a: Vec4, b: Vec4, v: Vec3)
    ensures QuatRotate(QuatMult(a, b), v) == QuatRotate(a, QuatRotate(b, v))
  {
    var qa, qb := ShaderQuat(a), ShaderQuat(b);
    QuatMultIsMul(qa, qb);
    QuatRotateIsRotate(Mul(qa, qb), v);
    QuatRotateIsRotate(qb, v);
    QuatRotateIsRotate(qa, Rotate(qb, v));
    RotateMul(qa, qb, v);
  }

  /** Why the upload order matters: `glm::quat` keeps its components in
      memory as (x, y, z, w), and uploading them in that order would hand
      the shader the identity rotation as `vec4(0, 0, 0, 1)`, which the
      shader reads as a half turn about the z axis. */
  lemma MemoryOrderUploadIsNotIdentity(q: Quat, v: Vec3)
    requires q == Identity
    ensures QuatRotate(Vec4(q.x, q.y, q.z, q.w), v) == Vec3(-v.x, -v.y, v.z)
  {
    var halfTurn := Quat(q.x, q.y, q.z, q.w);
    assert Vec4(q.x, q.y, q.z, q.w) == UploadRotation(halfTurn);
    UploadedHalfTurn(halfTurn, v);
  }

  /** The shader applies an uploaded half turn as the half turn itself. */
  lemma UploadedHalfTurn(q: Quat, v: Vec3)
    requires q == Quat(0.0, 0.0, 0.0, 1.0)
    ensures QuatRotate(UploadRotation(q), v) == Vec3(-v.x, -v.y, v.z)
  {
    QuatRotateIsRotate(q, v);
    HalfTurn(q, v);
  }

  /** The unit quaternion (0, 0, 0, 1) is the half turn about the z axis. */
  lemma HalfTurn(q: Quat, v: Vec3)
    requires q == Quat(0.0, 0.0, 0.0, 1.0)
    ensures Rotate(q, v) == Vec3(-v.x, -v.y, v.z)
  {
    assert Mul(Pure(v), Conj(q)) == Quat(v.z, -v.y, v.x, 0.0);
  }

  /** The three bone uniform arrays, `bone_translation`, `bone_rotation`
      and `bone_scale`. */
  datatype Uniforms = Uniforms(translation: seq<Vec3>, rotation: seq<Vec4>, scale: seq<real>)

  /** The uniform arrays hold `count` entries each. */
  predicate Sized(u: Uniforms, count: int) {
    |u.translation| == count && |u.rotation| == count && |u.scale| == count
  }

  /** What the upload loop leaves in the uniforms for a buffer of poses. */
  function UniformsOf(bp: seq<Pose>): (u: Uniforms)
    ensures Sized(u, |bp|)
  {
    Uniforms(seq(|bp|, i requires 0 <= i < |bp| => bp[i].translation),
             seq(|bp|, i requires 0 <= i < |bp| => UploadRotation(bp[i].rotation)),
             seq(|bp|, i requires 0 <= i < |bp| => bp[i].scale))
  }

  /** The uniforms determine the poses: a pose can be read back from each
      slot. */
  lemma UniformsDeterminePoses(bp: seq<Pose>, i: int)
    requires 0 <= i < |bp|
    ensures var u := UniformsOf(bp);
            Pose(ShaderQuat(u.rotation[i]), u.scale[i], u.translation[i]) == bp[i]
  {
  }

  /** The loop after `eval_bone_transforms`: for every slot of the buffer,
      upload the scale, the translation and the rotation in (w, x, y, z)
      order. */
  method UploadBones(bp: array<Pose>) returns (u: Uniforms)
    ensures u == UniformsOf(bp[..])
  {
    var translation, rotation, scale := [], [], [];
    var i := 0;
    while i < bp.Length
      invariant 0 <= i <= bp.Length
      invariant |translation| == i && |rotation| == i && |scale| == i
      invariant forall j :: 0 <= j < i ==> translation[j] == bp[j].translation
      invariant forall j :: 0 <= j < i ==> rotation[j] == UploadRotation(bp[j].rotation)
      invariant forall j :: 0 <= j < i ==> scale[j] == bp[j].scale
    {
      scale := scale + [bp[i].scale];
      translation := translation + [bp[i].translation];
      rotation := rotation + [UploadRotation(bp[i].rotation)];
      i := i + 1;
    }
    u := Uniforms(translation, rotation, scale);
  }

  /** The two `in_bone_id` / `in_bone_weight` attributes of a vertex, as the
      shader sees them. */
  datatype Binding = Binding(idX: int, idY: int, weightX: real, weightY: real)

  /** Both ids index the 61-entry uniform arrays. */
  predicate BindsInRange(a: Binding, count: int) {
    0 <= a.idX < count && 0 <= a.idY < count
  }

  /** One bone's contribution before weighting:
      `bone_scale[id] * quat_rotate(bone_rotation[id], pos) + bone_translation[id]`. */
  function BoneTerm(u: Uniforms, id: int, pos: Vec3): Vec3
    requires Sized(u, |u.scale|) && 0 <= id < |u.scale|
  {
    Add(Scale(u.scale[id], QuatRotate(u.rotation[id], pos)), u.translation[id])
  }

  /** `transform_bone`: the weighted sum of the two bones' transforms. */
  function TransformBone(u: Uniforms, a: Binding, pos: Vec3): Vec3
    requires Sized(u, |u.scale|) && BindsInRange(a, |u.scale|)
  {
    Add(Scale(a.weightX, BoneTerm(u, a.idX, pos)), Scale(a.weightY, BoneTerm(u, a.idY, pos)))
  }

  /** `transform_bone_normal`: the same sum without the translations. */
  function TransformBoneNormal(u: Uniforms, a: Binding, norm: Vec3): Vec3
    requires Sized(u, |u.scale|) && BindsInRange(a, |u.scale|)
  {
    Add(Scale(a.weightX, Scale(u.scale[a.idX], QuatRotate(u.rotation[a.idX], norm))),
        Scale(a.weightY, Scale(u.scale[a.idY], QuatRotate(u.rotation[a.idY], norm))))
  }

  /** On uploaded poses, the skinned position is the weighted blend of the
      two bones' world poses applied to the bind-pose position. */
  lemma TransformBoneBlendsPoses(bp: seq<Pose>, a: Binding, pos: Vec3)
    requires BindsInRange(a, |bp|)
    ensures TransformBone(UniformsOf(bp), a, pos)
         == Add(Scale(a.weightX, Apply(bp[a.idX], pos)), Scale(a.weightY, Apply(bp[a.idY], pos)))
  {
    QuatRotateIsRotate(bp[a.idX].rotation, pos);
    QuatRotateIsRotate(bp[a.idY].rotation, pos);
  }

  /** A vertex bound to one bone with full weight moves exactly as that
      bone's world pose maps it. */
  lemma TransformBoneSingle(bp: seq<Pose>, a: Binding, pos: Vec3)
    requires BindsInRange(a, |bp|) && a.weightX == 1.0 && a.weightY == 0.0
    ensures TransformBone(UniformsOf(bp), a, pos) == Apply(bp[a.idX], pos)
  {
    TransformBoneBlendsPoses(bp, a, pos);
  }

  /** A vertex whose bones both hold the default pose, with weights summing
      to one, stays where it is: the 61 - bones.size() slots that evaluation
      never writes act as the identity. */
  lemma TransformBoneAtDefault(bp: seq<Pose>, a: Binding, pos: Vec3)
    requires BindsInRange(a, |bp|) && bp[a.idX] == Default && bp[a.idY] == Default
    requires a.weightX + a.weightY == 1.0
    ensures TransformBone(UniformsOf(bp), a, pos) == pos
  {
    TransformBoneBlendsPoses(bp, a, pos);
    ApplyDefault(pos);
  }

  /** The normal transform is the position transform minus the weighted
      translations: normals are rotated and scaled but never moved. */
  lemma NormalDropsTranslation(u: Uniforms, a: Binding, v: Vec3)
    requires Sized(u, |u.scale|) && BindsInRange(a, |u.scale|)
    ensures TransformBoneNormal(u, a, v)
         == Sub(TransformBone(u, a, v),
                Add(Scale(a.weightX, u.translation[a.idX]), Scale(a.weightY, u.translation[a.idY])))
  {
    ScaleAdd(a.weightX, Scale(u.scale[a.idX], QuatRotate(u.rotation[a.idX], v)), u.translation[a.idX]);
    ScaleAdd(a.weightY, Scale(u.scale[a.idY], QuatRotate(u.rotation[a.idY], v)), u.translation[a.idY]);
  }
}
