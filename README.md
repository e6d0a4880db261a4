# MixamoRenderer skeletal animation, modelled in Dafny

MixamoRenderer draws a skinned human mesh and animates it from six keyframe
poses. This project models the animation core of that program:

- the bone pose algebra (`bone_pose` and its `operator*`) over the `glm::quat`
  Hamilton product;
- `eval_bone_transforms`, the single pass that turns keyframe poses into world
  poses in a 61-entry buffer, blending keyframes `n` and `(n + 1) % 6` with the
  ease factor `3t² − 2t³`;
- the render loop's keyframe clock (`floor(time) % 6` and `time - floor(time)`),
  the evaluation it drives, and the upload of every pose to the bone uniforms as
  (scale, translation, rotation in (w, x, y, z) order);
- the vertex shader's quaternion routines (`quat_mult`, `quat_conj`,
  `quat_rotate`) and its two skinning functions (`transform_bone`,
  `transform_bone_normal`), fed by the 28-byte vertex record's byte ids and
  normalised byte weights.

`main.cpp` and `src/main.cpp` hold the same `bone_pose`, `operator*` and
`eval_bone_transforms` text (lines 222-253 and 50-81 respectively) and the same
frame step (558-566 and 369-378). The table cites `src/main.cpp`.

Reals stand for floats. `glm::slerp` is a parameter of the evaluation: any
function of two quaternions and a factor. The lemmas that need slerp's endpoint
values say so in their preconditions, in the form `glm::slerp` meets. At factor 0
it returns its first argument. At factor 1 it returns its second argument y, or
−y when the dot product of the two is negative, because glm takes the short arc.
Since y and −y are the same rotation, the t = 1 results hold up to that sign.

Modules: `Vector` (vector.dfy), `Quaternion` (quaternion.dfy), `BonePose`
(pose.dfy), `FrameClock` (frame.dfy), `Animation` (animation.dfy), `Shader`
(shader.dfy), `VertexFormat` (vertex.dfy), `Render` (render.dfy).

Two specifications of the evaluation are proved to agree:

- `Animation.Pass` is the buffer after the first k loop iterations. It holds
  for any in-range parent index (-1 or a buffer slot), including a parent
  stored after its child, which reads the previous frame's value.
- `Animation.World` is the recursive world pose of a bone. It holds when every
  parent precedes its children.

The method is proved against `Pass`. `Pass` is proved equal to `World` on a
well-ordered skeleton.

## Model

| member | source | states |
|---|---|---|
| Quaternion.Mul | src/main.cpp:59 | the Hamilton product `p1.rotation * p2.rotation` on `glm::quat` (w, x, y, z); its laws are the lemmas below |
| Quaternion.Conj | include/shader_sources.h:32-35 | the conjugate (w, −x, −y, −z), the CPU counterpart of `quat_conj` |
| Quaternion.Rotate | src/main.cpp:59 | `glm::rotate(q, v)` as the sandwich q·(0, v)·conj(q); its laws are the Rotate lemmas below |
| Quaternion.MulIdentity | include/shader_sources.h:27-30 | (1, 0, 0, 0) is a two-sided identity of the Hamilton product that `glm::quat` `*` and `quat_mult` compute |
| Quaternion.MulAssoc | src/main.cpp:57-60 | the Hamilton product `p1.rotation * p2.rotation` is associative |
| Quaternion.ConjInvolution | include/shader_sources.h:32-35 | conjugating twice gives back the quaternion |
| Quaternion.ConjMul | include/shader_sources.h:32-35 | the conjugate of a product is the product of the conjugates in reverse order |
| Quaternion.SandwichIsPure | include/shader_sources.h:37-40 | q·(0, v)·conj(q) has zero scalar part, so taking `.yzw` loses nothing |
| Quaternion.RotateIdentity | include/shader_sources.h:37-40 | rotating by the identity quaternion leaves every vector unchanged |
| Quaternion.RotateZero | include/shader_sources.h:37-40 | rotation maps the zero vector to itself |
| Quaternion.RotateAdd | include/shader_sources.h:37-40 | rotation distributes over vector addition |
| Quaternion.RotateScale | include/shader_sources.h:37-40 | rotation commutes with scaling by a real |
| Quaternion.RotateNegated | src/main.cpp:59 | q and −q rotate every vector the same way |
| Quaternion.RotateMul | include/shader_sources.h:37-40 | rotating by a·b is rotating by b and then by a |
| Quaternion.MulAddLeft | include/shader_sources.h:27-30 | the product distributes over a sum on the left |
| Quaternion.MulAddRight | include/shader_sources.h:27-30 | the product distributes over a sum on the right |
| Quaternion.MulScaleLeft | include/shader_sources.h:27-30 | a real factor on the left operand moves out of the product |
| Quaternion.ScalarCommutes | include/shader_sources.h:27-30 | multiplying by the real quaternion (k, 0, 0, 0) on either side scales every component by k |
| Quaternion.MulScaleRight | include/shader_sources.h:27-30 | a real factor on the right operand moves out of the product |
| BonePose.Compose | src/main.cpp:57-60 | `operator*`: rotations and scales multiply, and p2's translation is rotated and scaled into p1's frame and offset by p1's translation |
| BonePose.Apply | include/shader_sources.h:44 | the point map of a pose, scale·rotate(v) + translation, which `transform_bone` applies per bone |
| BonePose.SameUpToSignApply | include/shader_sources.h:44 | two poses that differ only in the sign of the rotation move every point identically |
| BonePose.ComposeUpToSign | src/main.cpp:57-60 | `operator*` with parents that differ only in the rotation's sign gives children that differ only in the rotation's sign |
| BonePose.ApplyDefault | src/main.cpp:50-55 | a default-constructed pose maps every point to itself |
| BonePose.DefaultIsIdentity | src/main.cpp:50-60 | the default `bone_pose` is a left and a right identity of `operator*` |
| BonePose.ComposeApply | src/main.cpp:57-60 | applying `p1 * p2` to a point is applying p2 and then p1 |
| BonePose.ComposeAssoc | src/main.cpp:57-60 | `operator*` is associative |
| FrameClock.CppMod | src/main.cpp:369 | C++ `%` with a positive divisor: in [0, m) and equal to the Euclidean remainder for a non-negative dividend, in (-m, 0] for a negative one |
| FrameClock.FrameIndex | src/main.cpp:369 | for a non-negative clock the keyframe index is `floor(time) mod 6`, in [0, 6) |
| FrameClock.FrameFraction | src/main.cpp:370 | the blend fraction is in [0, 1) and is what remains after removing a whole number from the time |
| FrameClock.NextFrame | src/main.cpp:66 | `(n + 1) % 6` is n + 1 for n < 5, wraps 5 to 0, and stays in [0, 6) |
| FrameClock.TimeDecomposes | src/main.cpp:369-370 | the time is a whole number of six-second cycles, plus the index, plus the fraction |
| FrameClock.NextSecond | src/main.cpp:369-370 | one second later the index is the keyframe the blend was heading to, and the fraction is unchanged |
| FrameClock.NegativeTimeGivesNegativeIndex | src/main.cpp:369 | with a negative clock the truncating `%` gives index -1 at time -0.5 |
| Vector.Mix | src/main.cpp:77 | `glm::mix` on `vec3`: a at factor 0, b at factor 1, and a whenever a = b |
| Animation.Smoothstep | src/main.cpp:76-78 | the ease factor is 0 at t = 0, 1 at t = 1, and within [0, 1] on [0, 1] |
| Animation.SmoothstepBounds | src/main.cpp:76 | 3t² − 2t³ lies in [0, 1] for t in [0, 1] |
| Animation.SmoothstepMonotone | src/main.cpp:76-78 | the ease factor never decreases on [0, 1] |
| Animation.MixScalar | src/main.cpp:78 | `glm::mix` on floats gives x at 0 and y at 1, and on [0, 1] stays between x and y whichever of the two is larger |
| Animation.MixBetween | src/main.cpp:78 | a mix with a factor in [0, 1] lies between its end points, for a rising (x ≤ y) and a falling (y ≤ x) blend alike |
| Animation.Blend | src/main.cpp:76-79 | the rotation is slerp of the two rotations, and the scale and translation are those of the first pose at factor 0 and of the second at factor 1 |
| Animation.EvalBone | src/main.cpp:69-79 | one loop iteration's value: a root's keyframe-n pose, otherwise the blend of parent·pose at keyframes n and n + 1 |
| Animation.World | src/main.cpp:62-81 | the recursive world pose: the same value with the parent's own world pose in place of the buffer entry |
| Animation.KeyframeWorld | src/main.cpp:73-74 | a keyframe's poses composed down the hierarchy with `operator*`, with no blending |
| Animation.Pass | src/main.cpp:68-80 | the first k iterations leave the buffer length unchanged |
| Animation.PassLeavesRest | src/main.cpp:68 | slots at or after k are not written by the first k iterations |
| Animation.PassKeepsWritten | src/main.cpp:68-80 | once iteration j has written slot j, later iterations leave it alone |
| Animation.PassRoots | src/main.cpp:69-72 | every root bone ends with exactly the current keyframe's pose |
| Animation.PassComputesWorld | src/main.cpp:68-80 | when parents precede children, each written slot holds the bone's recursive world pose |
| Animation.ChildAtBlendStart | src/main.cpp:73-79 | at t = 0 a child's scale and translation are those of its parent's world pose times its own keyframe-n pose |
| Animation.WorldAtKeyframe | src/main.cpp:62-81 | with a slerp that returns its first argument at 0, the pose at t = 0 is keyframe n composed down the hierarchy |
| Animation.WorldAtBlendEnd | src/main.cpp:66-81 | for any slerp that returns y or −y at factor 1, as `glm::slerp` does with its short-arc sign flip: at t = 1 every bone's pose is keyframe n + 1 composed down the hierarchy, up to the sign of its rotation, exactly when every root has the same pose in both keyframes, up to the sign of its rotation |
| Animation.WorldAtNextKeyframe | src/main.cpp:66-81 | for any slerp that returns y or −y at factor 1, as `glm::slerp` does: if the roots agree between the two keyframes, each bone's pose at t = 1 is keyframe n + 1 composed down the hierarchy up to the sign of its rotation, and it moves every point exactly as that pose does |
| Animation.UnusedSlotsStayDefault | src/main.cpp:184 | in the buffer created as 61 default poses, every slot past the skeleton still holds the default pose after the pass |
| Animation.EvalBoneTransforms | src/main.cpp:62-81 | the buffer after the loop equals Pass; roots hold the current keyframe; slots past the skeleton are unchanged; with parents first, every bone holds its world pose |
| Shader.UploadRotation | src/main.cpp:377 | the scalar part goes to `.x` and the vector part to `.yzw` |
| Shader.ShaderQuat | include/shader_sources.h:29 | the shader's `.x` is the scalar part and `.yzw` the vector part |
| Shader.UploadRoundTrip | src/main.cpp:377 | the upload order and the shader's reading are inverse bijections |
| Shader.QuatMult | include/shader_sources.h:27-30 | `quat_mult` as written: scalar product minus the dot product, and the weighted vector parts plus the cross product |
| Shader.QuatConj | include/shader_sources.h:32-35 | `quat_conj`: the vector part negated |
| Shader.QuatRotate | include/shader_sources.h:37-40 | `quat_rotate`: the `.yzw` of q·(0, v)·conj(q) built from `quat_mult` and `quat_conj` |
| Shader.QuatMultIsMul | include/shader_sources.h:27-30 | `quat_mult` on uploaded rotations is the Hamilton product |
| Shader.QuatConjIsConj | include/shader_sources.h:32-35 | `quat_conj` on an uploaded rotation is the conjugate |
| Shader.QuatRotateIsRotate | include/shader_sources.h:37-40 | `quat_rotate` on an uploaded rotation is the rotation `operator*` uses on the CPU |
| Shader.QuatMultIdentity | include/shader_sources.h:27-30 | `vec4(1, 0, 0, 0)` is a two-sided identity of `quat_mult` |
| Shader.QuatMultAssoc | include/shader_sources.h:27-30 | `quat_mult` is associative |
| Shader.QuatConjLaws | include/shader_sources.h:27-35 | `quat_conj` is an involution and reverses `quat_mult` products |
| Shader.QuatRotateIdentity | include/shader_sources.h:37-40 | `quat_rotate` by `vec4(1, 0, 0, 0)` is the identity |
| Shader.QuatRotateLinear | include/shader_sources.h:37-40 | `quat_rotate` is linear in the vector and maps zero to zero |
| Shader.QuatRotateMult | include/shader_sources.h:27-40 | rotating by `quat_mult(a, b)` is rotating by b and then by a |
| Shader.MemoryOrderUploadIsNotIdentity | src/main.cpp:377 | uploading glm's memory order (x, y, z, w) would turn the identity into a half turn about z: every v goes to (−v.x, −v.y, v.z) |
| Shader.UploadedHalfTurn | include/shader_sources.h:37-40 | `quat_rotate` on the uploaded (0, 0, 0, 1) sends every v to (−v.x, −v.y, v.z) |
| Shader.HalfTurn | include/shader_sources.h:37-40 | the unit quaternion (0, 0, 0, 1) rotates every v to (−v.x, −v.y, v.z) |
| Shader.UniformsOf | src/main.cpp:374-378 | the uploaded arrays have one entry per buffer slot |
| Shader.UniformsDeterminePoses | src/main.cpp:374-378 | every pose can be read back from its uniform slot |
| Shader.UploadBones | src/main.cpp:374-378 | the upload loop leaves each slot's scale, translation and (w, x, y, z) rotation in the uniforms |
| Shader.TransformBone | include/shader_sources.h:42-48 | `transform_bone`: the two bones' scale·rotate + translation, weighted and summed |
| Shader.TransformBoneNormal | include/shader_sources.h:50-56 | `transform_bone_normal`: the same sum without the translations |
| Shader.TransformBoneBlendsPoses | include/shader_sources.h:42-48 | on uploaded poses, `transform_bone` is the weighted sum of the two bones' poses applied to the position |
| Shader.TransformBoneSingle | include/shader_sources.h:42-48 | with weights (1, 0) `transform_bone` is the first bone's scale·rotate + translation |
| Shader.TransformBoneAtDefault | include/shader_sources.h:42-48 | with both bones at the default pose and weights summing to 1, the position is unchanged |
| Shader.NormalDropsTranslation | include/shader_sources.h:42-56 | `transform_bone_normal` is `transform_bone` minus the weighted translations |
| VertexFormat.NormalizedWeight | src/main.cpp:205 | a normalised weight byte lies in [0, 1], is 0 only for byte 0 and 1 only for byte 255 |
| VertexFormat.BindingOf | src/main.cpp:203-205 | the shader gets the id bytes as integers and the weight bytes normalised |
| VertexFormat.AttributesMatchVertex | src/main.cpp:199-205 | each of the four attribute pointers reads one field of `struct vertex` in declaration order, with that field's type and count, at the field's offset in a padding-free layout, and that layout is the 28 bytes the `static_assert` checks |
| VertexFormat.BonesInRangeBinds | include/shader_sources.h:15-21 | a vertex's ids index the 61-entry uniform arrays exactly when both id bytes are below 61 |
| VertexFormat.WeightsSumToOne | src/main.cpp:205 | weight bytes summing to 255 are exactly the vertices whose shader weights sum to 1 |
| VertexFormat.SkinnedPosition | include/shader_sources.h:60 | `transform_bone(in_position)` over the uploaded poses and the vertex's bound ids and weights |
| VertexFormat.RigidVertex | include/shader_sources.h:42-48 | a vertex weighted (255, 0) follows its first bone's pose rigidly |
| VertexFormat.VertexAtRest | include/shader_sources.h:42-48 | a vertex with weights summing to 255 and both bones at the default pose stays at its bind position |
| Render.Animator.CurrentInputs | src/main.cpp:369-372 | for a non-negative clock the evaluation receives a keyframe index in [0, 6) and a fraction in [0, 1) |
| Render.Animator.constructor | src/main.cpp:184 | the buffer starts as 61 default poses and the clock at 0 |
| Render.Animator.Frame | src/main.cpp:324-378 | one frame advances the clock by dt, leaves the buffer equal to Pass at the new index and fraction, keeps the untouched slots at the default pose, and uploads exactly the buffer |

## Left out

- SDL windowing, input and the camera, and all OpenGL setup, draw and texture calls are not modelled. Of the uniform calls, only what the bone upload stores is modelled.
- Reading `human.bin`, `bones.bin` and the pose files is not modelled. The model takes the skeleton and the six keyframes as given. Only the vertex record's layout is kept.
- `save_texture`, `src/model.cpp`, `include/model.h`, the error helpers and the fragment shader's lighting are not part of this model.
- The rest of the vertex shader's `main` (the model, view and projection products and `normalize`) is not modelled.
- Animation.Blend: `glm::slerp` is a parameter, so its own behaviour is not modelled. That covers its shortest-path sign flip, its near-parallel fallback to linear interpolation, and its trigonometry. Only the rotation's dependence on the two rotations and the shared factor is stated.
- Quaternion.Rotate: `glm::rotate(q, v)` is modelled as the sandwich q·(0, v)·conj(q), which is the map `quat_rotate` computes. glm's closed form agrees with the sandwich only for unit quaternions, so every rotation that reaches `glm::rotate` is assumed to be unit: the keyframe rotations and, for a non-root parent, the slerp result stored in its buffer slot. glm's near-parallel fallback to linear `mix` meets this only to within its epsilon.
- Floats are exact reals. IEEE rounding, the float clock losing precision over long runs, and the `(int)` cast overflowing for huge times are not modelled.
- Render.Animator.Frame: `dt` comes from `std::chrono::high_resolution_clock` and is a parameter. The model requires it to be non-negative, i.e. it assumes the clock never runs backwards. The standard does not promise that for this clock, which may be the system clock. A negative total time would give a negative keyframe index (FrameClock.NegativeTimeGivesNegativeIndex) and a read of `poses[-1]`.
- Animation.EvalBoneTransforms requires what the C++ leaves to its inputs. The skeleton must fit the 61-slot buffer, every parent index must be -1 or a buffer slot, and the current keyframe must exist. Reading out of range is undefined behaviour in the source, so it is not modelled.
- The loader sizes every keyframe to exactly the bone count. The model only requires each keyframe to have a pose for every bone.
- The bone record's `offset` and `rotation` fields are carried but never read by the evaluation, as in the source.
