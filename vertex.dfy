/** The 28-byte `vertex` record of the mesh and how its bone attributes
    reach the vertex shader: two unsigned-byte bone ids read as integers
    (`in_bone_id`) and two unsigned-byte weights normalised to [0, 1]
    (`in_bone_weight`). */
module VertexFormat {
  import opened Vector
  import opened BonePose
  import opened Shader

  /** The bone uniform arrays have 61 entries. */
  const UniformSlots: int := 61

  newtype Byte = b: int | 0 <= b < 256

  datatype Vertex = Vertex(position: Vec3, normal: Vec3, boneIds: (Byte, Byte), boneWeights: (Byte, Byte))

  /** `GL_UNSIGNED_BYTE` with normalisation on: the byte divided by 255. */
  function NormalizedWeight(b: Byte): (w: real)
    ensures 0.0 <= w <= 1.0
    ensures w == 0.0 <==> b == 0
    ensures w == 1.0 <==> b == 255
  {
    b as real / 255.0
  }

  /** The attributes the shader receives for a vertex. */
  function BindingOf(v: Vertex): (a: Binding)
    ensures a.idX == v.boneIds.0 as int && a.idY == v.boneIds.1 as int
    ensures a.weightX == NormalizedWeight(v.boneWeights.0) && a.weightY == NormalizedWeight(v.boneWeights.1)
  {
    Binding(v.boneIds.0 as int, v.boneIds.1 as int,
            NormalizedWeight(v.boneWeights.0), NormalizedWeight(v.boneWeights.1))
  }

  /** The scalar types of the record's fields and of the attribute
      components: `float` (`GL_FLOAT`) and `std::uint8_t`
      (`GL_UNSIGNED_BYTE`). */
  datatype Scalar = Float | UnsignedByte

  function SizeOf(s: Scalar): nat {
    match s
    case Float => 4
    case UnsignedByte => 1
  }

  /** A run of `count` scalars of one type: a struct field, or the format
      of a vertex attribute. */
  datatype Field = Field(count: nat, scalar: Scalar)

  function FieldSize(f: Field): nat {
    f.count * SizeOf(f.scalar)
  }

  /** `struct vertex` in declaration order, the fields of Vertex:
      `glm::vec3 position`, `glm::vec3 normal`, `std::uint8_t bone_ids[2]`
      and `std::uint8_t bone_weights[2]`. */
  const VertexFields: seq<Field> :=
    [Field(3, Float), Field(3, Float), Field(2, UnsignedByte), Field(2, UnsignedByte)]

  /** One `glVertexAttrib(I)Pointer` call: the attribute's format and its
      byte offset in the record. */
  datatype Attribute = Attribute(format: Field, offset: nat)

  /** Attribute locations 0 to 3 as the mesh set-up configures them. */
  const Attributes: seq<Attribute> :=
    [Attribute(Field(3, Float), 0), Attribute(Field(3, Float), 12),
     Attribute(Field(2, UnsignedByte), 24), Attribute(Field(2, UnsignedByte), 26)]

  /** `static_assert(sizeof(vertex) == 28)`. */
  const VertexSize: nat := 28

  /** The bytes taken by a run of fields laid out back to back. */
  function TotalSize(fields: seq<Field>): nat {
    if fields == [] then 0 else TotalSize(fields[..|fields| - 1]) + FieldSize(fields[|fields| - 1])
  }

  /** Where field i starts when no padding separates the fields. */
  function PackedOffset(fields: seq<Field>, i: int): nat
    requires 0 <= i <= |fields|
  {
    TotalSize(fields[..i])
  }

  /** Each attribute reads exactly one field of the record, in declaration
      order, with that field's type and count, starting where the field
      starts in a padding-free layout; and that layout is 28 bytes, the
      size the `static_assert` checks. */
  lemma AttributesMatchVertex()
    ensures |Attributes| == |VertexFields|
    ensures forall i :: 0 <= i < |Attributes| ==>
              Attributes[i].format == VertexFields[i] && Attributes[i].offset == PackedOffset(VertexFields, i)
    ensures TotalSize(VertexFields) == VertexSize
  {
    var f := VertexFields;
    assert f[..1][..0] == [] && f[..2][..1] == f[..1] && f[..3][..2] == f[..2] && f[..4][..3] == f[..3];
    assert PackedOffset(f, 0) == 0;
    assert PackedOffset(f, 1) == 12;
    assert PackedOffset(f, 2) == 24;
    assert PackedOffset(f, 3) == 26;
    assert f[..4] == f;
  }

  /** A byte can name bone 255, but the uniform arrays stop at 60: the
      shader only reads defined uniforms when both ids are below 61. */
  predicate BonesInRange(v: Vertex) {
    v.boneIds.0 as int < UniformSlots && v.boneIds.1 as int < UniformSlots
  }

  lemma BonesInRangeBinds(v: Vertex)
    ensures BonesInRange(v) <==> BindsInRange(BindingOf(v), UniformSlots)
  {
  }

  /** Weight bytes summing to 255 become shader weights summing to one. */
  lemma WeightsSumToOne(v: Vertex)
    ensures v.boneWeights.0 as int + v.boneWeights.1 as int == 255
        <==> BindingOf(v).weightX + BindingOf(v).weightY == 1.0
  {
  }

  /** The skinned position of a vertex over the 61 uploaded poses. */
  function SkinnedPosition(bp: seq<Pose>, v: Vertex): Vec3
    requires |bp| == UniformSlots && BonesInRange(v)
  {
    TransformBone(UniformsOf(bp), BindingOf(v), v.position)
  }

  /** A vertex weighted (255, 0) follows its first bone rigidly. */
  lemma RigidVertex(bp: seq<Pose>, v: Vertex)
    requires |bp| == UniformSlots && BonesInRange(v)
    requires v.boneWeights == (255, 0)
    ensures SkinnedPosition(bp, v) == Apply(bp[v.boneIds.0], v.position)
  {
    TransformBoneSingle(bp, BindingOf(v), v.position);
  }

  /** A vertex whose weights sum to 255 and whose bones both hold the
      default pose is drawn at its bind position. */
  lemma VertexAtRest(bp: seq<Pose>, v: Vertex)
    requires |bp| == UniformSlots && BonesInRange(v)
    requires v.boneWeights.0 as int + v.boneWeights.1 as int == 255
    requires bp[v.boneIds.0] == Default && bp[v.boneIds.1] == Default
    ensures SkinnedPosition(bp, v) == v.position
  {
    WeightsSumToOne(v);
    TransformBoneAtDefault(bp, BindingOf(v), v.position);
  }
}
