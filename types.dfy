/** The schema data model of `src/types.rs`, with the fields the parser of
    `src/parser.rs` fills in (set names and ids, binding layouts, buffer
    descriptor types) and the module root `PlayoutModule` of `src/lib.rs`.

    `ShaderStages` is a `bitflags` value in the source; here it is the set of
    stage tags it holds, and `StageBits` is the bit pattern.  The lemmas below
    show that the two views carry the same information, so that comparing two
    flag values (`!=`, `is_empty`) is comparing the sets. */
module Types {
  import opened Outcomes

  const U32_LIMIT: nat := 0x1_0000_0000

  /** Rust's `u32`. */
  type u32 = n: nat | n < U32_LIMIT

  // ---------------------------------------------------------------------
  // Shader stages
  // ---------------------------------------------------------------------

  datatype Stage =
    | Vertex | TessellationControl | TessellationEvaluation | Geometry
    | Fragment | Compute | Raygen | AnyHit | ClosestHit | Miss
    | Intersection | Callable | Task | Mesh

  /** The flag constants in declaration order; `Task` and `Mesh` come last. */
  const DeclaredStages: seq<Stage> := [
    Vertex, TessellationControl, TessellationEvaluation, Geometry, Fragment,
    Compute, Raygen, AnyHit, ClosestHit, Miss, Intersection, Callable, Task, Mesh
  ]

  /** Position of a stage in the declaration order. */
  function DeclIndex(s: Stage): (i: nat)
    ensures i < |DeclaredStages| && DeclaredStages[i] == s
  {
    match s
    case Vertex => 0
    case TessellationControl => 1
    case TessellationEvaluation => 2
    case Geometry => 3
    case Fragment => 4
    case Compute => 5
    case Raygen => 6
    case AnyHit => 7
    case ClosestHit => 8
    case Miss => 9
    case Intersection => 10
    case Callable => 11
    case Task => 12
    case Mesh => 13
  }

  /** The constant's name, as written in the schema and as emitted by `iter_names`
      (the source spells the tessellation stages `TELLESLATION_…`). */
  function StageName(s: Stage): string
  {
    match s
    case Vertex => "VERTEX"
    case TessellationControl => "TELLESLATION_CONTROL"
    case TessellationEvaluation => "TELLESLATION_EVALUATION"
    case Geometry => "GEOMETRY"
    case Fragment => "FRAGMENT"
    case Compute => "COMPUTE"
    case Raygen => "RAYGEN"
    case AnyHit => "ANY_HIT"
    case ClosestHit => "CLOSEST_HIT"
    case Miss => "MISS"
    case Intersection => "INTERSECTION"
    case Callable => "CALLABLE"
    case Task => "TASK"
    case Mesh => "MESH"
  }

  /** The constant's value. */
  function StageBit(s: Stage): bv32
  {
    match s
    case Vertex => 0x1
    case TessellationControl => 0x2
    case TessellationEvaluation => 0x4
    case Geometry => 0x8
    case Fragment => 0x10
    case Compute => 0x20
    case Raygen => 0x100
    case AnyHit => 0x200
    case ClosestHit => 0x400
    case Miss => 0x800
    case Intersection => 0x1000
    case Callable => 0x2000
    case Task => 0x40
    case Mesh => 0x80
  }

  type ShaderStages = set<Stage>

  /** The union of the bits of the members of `s` declared at position `k` or later. */
  function BitsFrom(s: ShaderStages, k: nat): bv32
    requires k <= |DeclaredStages|
    decreases |DeclaredStages| - k
  {
    if k == |DeclaredStages| then 0
    else (if DeclaredStages[k] in s then StageBit(DeclaredStages[k]) else 0) | BitsFrom(s, k + 1)
  }

  /** The `u32` a `ShaderStages` value holds: the union of its members' bits. */
  function StageBits(s: ShaderStages): bv32
  {
    BitsFrom(s, 0)
  }

  /** Every constant is one bit of 0x1..0x2000, and no two share a bit. */
  lemma StageBitsAreDistinctSingleBits(s: Stage, t: Stage)
    ensures StageBit(s) != 0 && StageBit(s) & (StageBit(s) - 1) == 0
    ensures 0x1 <= StageBit(s) <= 0x2000
    ensures s != t ==> StageBit(s) & StageBit(t) == 0
  {
  }

  /** Bit order is not declaration order: `Task` and `Mesh` are declared last,
      but their bits lie between `Compute` and `Raygen`. */
  lemma TaskAndMeshBitsLieBetweenComputeAndRaygen()
    ensures StageBit(Compute) < StageBit(Task) < StageBit(Mesh) < StageBit(Raygen)
    ensures DeclIndex(Task) == |DeclaredStages| - 2 && DeclIndex(Mesh) == |DeclaredStages| - 1
    ensures DeclIndex(Raygen) < DeclIndex(Task)
  {
  }

  lemma DeclIndexInverse(k: nat)
    requires k < |DeclaredStages|
    ensures DeclIndex(DeclaredStages[k]) == k
  {
  }

  lemma {:induction false} BitsFromMembership(s: ShaderStages, k: nat, t: Stage)
    requires k <= |DeclaredStages|
    ensures (BitsFrom(s, k) & StageBit(t) != 0) <==> (t in s && k <= DeclIndex(t))
    ensures BitsFrom(s, k) < 0x4000
    decreases |DeclaredStages| - k
  {
    if k < |DeclaredStages| {
      BitsFromMembership(s, k + 1, t);
      var u := DeclaredStages[k];
      DeclIndexInverse(k);
      StageBitsAreDistinctSingleBits(u, t);
    }
  }

  /** A flag value contains a stage exactly when the set does. */
  lemma StageBitsMembership(s: ShaderStages, t: Stage)
    ensures (StageBits(s) & StageBit(t) != 0) <==> t in s
    ensures StageBits(s) < 0x4000
  {
    BitsFromMembership(s, 0, t);
  }

  /** Two flag values are equal exactly when they hold the same stages, and a
      value is empty exactly when it holds none: the source's `!=` and
      `is_empty()` on `ShaderStages` are set inequality and set emptiness. */
  lemma StageBitsFaithful(a: ShaderStages, b: ShaderStages)
    ensures StageBits(a) == StageBits(b) <==> a == b
    ensures StageBits(a) == 0 <==> a == {}
    ensures StageBits(a) < 0x4000
  {
    StageBitsMembership(a, Vertex);
    if StageBits(a) == StageBits(b) {
      SameBitsSameStages(a, b);
    }
    EmptyBits(a);
  }

  lemma SameBitsSameStages(a: ShaderStages, b: ShaderStages)
    requires StageBits(a) == StageBits(b)
    ensures a == b
  {
    forall t: Stage ensures t in a <==> t in b {
      SameBitsSameStage(a, b, t);
    }
  }

  lemma SameBitsSameStage(a: ShaderStages, b: ShaderStages, t: Stage)
    requires StageBits(a) == StageBits(b)
    ensures t in a <==> t in b
  {
    StageBitsMembership(a, t);
    StageBitsMembership(b, t);
  }

  lemma EmptyBits(a: ShaderStages)
    ensures StageBits(a) == 0 <==> a == {}
  {
    if a == {} {
      NoBitsFrom(a, 0);
    } else {
      var t :| t in a;
      StageBitsMembership(a, t);
    }
  }

  lemma {:induction false} NoBitsFrom(s: ShaderStages, k: nat)
    requires k <= |DeclaredStages| && s == {}
    ensures BitsFrom(s, k) == 0
    decreases |DeclaredStages| - k
  {
    if k < |DeclaredStages| {
      NoBitsFrom(s, k + 1);
    }
  }

  // ---------------------------------------------------------------------
  // Image formats
  // ---------------------------------------------------------------------

  datatype ImageFormat =
    | RGBA32_Float | RGBA16_Float | RG32_Float | RG16_Float | R11G11B10_Float | R32_Float | R16_Float
    | RGBA16_UNorm | RGB10A2_UNorm | RBGA8_UNorm | RG16_UNorm | RG8_UNorm | R16_UNorm | R8_UNorm
    | RGBA16_SNorm | RBGA8_SNorm | RG16_SNorm | RG8_SNorm | R16_SNorm | R8_SNorm
    | RGBA32_SInt | RGBA16_SInt | RGBA8_SInt | RG32_SInt | RG16_SInt | RG8_SInt | R32_SInt | R16_SInt | R8_SInt
    | RGBA32_UInt | RGBA16_UInt | RGB10A2_UInt | RGBA8_UInt | RG32_UInt | RG16_UInt | RG8_UInt | R32_UInt | R16_UInt | R8_UInt

  /** The kind of texel data, named by each variant's suffix. */
  datatype DataMode = Float | UNorm | SNorm | SInt | UInt

  const FormatCount := 39

  /** The variant at a position of the declaration order. */
  function FormatAt(i: nat): ImageFormat
    requires i < FormatCount
  {
    if i == 0 then RGBA32_Float
    else if i == 1 then RGBA16_Float
    else if i == 2 then RG32_Float
    else if i == 3 then RG16_Float
    else if i == 4 then R11G11B10_Float
    else if i == 5 then R32_Float
    else if i == 6 then R16_Float
    else if i == 7 then RGBA16_UNorm
    else if i == 8 then RGB10A2_UNorm
    else if i == 9 then RBGA8_UNorm
    else if i == 10 then RG16_UNorm
    else if i == 11 then RG8_UNorm
    else if i == 12 then R16_UNorm
    else if i == 13 then R8_UNorm
    else if i == 14 then RGBA16_SNorm
    else if i == 15 then RBGA8_SNorm
    else if i == 16 then RG16_SNorm
    else if i == 17 then RG8_SNorm
    else if i == 18 then R16_SNorm
    else if i == 19 then R8_SNorm
    else if i == 20 then RGBA32_SInt
    else if i == 21 then RGBA16_SInt
    else if i == 22 then RGBA8_SInt
    else if i == 23 then RG32_SInt
    else if i == 24 then RG16_SInt
    else if i == 25 then RG8_SInt
    else if i == 26 then R32_SInt
    else if i == 27 then R16_SInt
    else if i == 28 then R8_SInt
    else if i == 29 then RGBA32_UInt
    else if i == 30 then RGBA16_UInt
    else if i == 31 then RGB10A2_UInt
    else if i == 32 then RGBA8_UInt
    else if i == 33 then RG32_UInt
    else if i == 34 then RG16_UInt
    else if i == 35 then RG8_UInt
    else if i == 36 then R32_UInt
    else if i == 37 then R16_UInt
    else R8_UInt
  }

  /** The variant's identifier, as the schema spells it. */
  function FormatName(f: ImageFormat): string
  {
    match f
    case RGBA32_Float => "RGBA32_Float"
    case RGBA16_Float => "RGBA16_Float"
    case RG32_Float => "RG32_Float"
    case RG16_Float => "RG16_Float"
    case R11G11B10_Float => "R11G11B10_Float"
    case R32_Float => "R32_Float"
    case R16_Float => "R16_Float"
    case RGBA16_UNorm => "RGBA16_UNorm"
    case RGB10A2_UNorm => "RGB10A2_UNorm"
    case RBGA8_UNorm => "RBGA8_UNorm"
    case RG16_UNorm => "RG16_UNorm"
    case RG8_UNorm => "RG8_UNorm"
    case R16_UNorm => "R16_UNorm"
    case R8_UNorm => "R8_UNorm"
    case RGBA16_SNorm => "RGBA16_SNorm"
    case RBGA8_SNorm => "RBGA8_SNorm"
    case RG16_SNorm => "RG16_SNorm"
    case RG8_SNorm => "RG8_SNorm"
    case R16_SNorm => "R16_SNorm"
    case R8_SNorm => "R8_SNorm"
    case RGBA32_SInt => "RGBA32_SInt"
    case RGBA16_SInt => "RGBA16_SInt"
    case RGBA8_SInt => "RGBA8_SInt"
    case RG32_SInt => "RG32_SInt"
    case RG16_SInt => "RG16_SInt"
    case RG8_SInt => "RG8_SInt"
    case R32_SInt => "R32_SInt"
    case R16_SInt => "R16_SInt"
    case R8_SInt => "R8_SInt"
    case RGBA32_UInt => "RGBA32_UInt"
    case RGBA16_UInt => "RGBA16_UInt"
    case RGB10A2_UInt => "RGB10A2_UInt"
    case RGBA8_UInt => "RGBA8_UInt"
    case RG32_UInt => "RG32_UInt"
    case RG16_UInt => "RG16_UInt"
    case RG8_UInt => "RG8_UInt"
    case R32_UInt => "R32_UInt"
    case R16_UInt => "R16_UInt"
    case R8_UInt => "R8_UInt"
  }

  /** Position of a variant in declaration order. */
  function FormatIndex(f: ImageFormat): (i: nat)
    ensures i < FormatCount && FormatAt(i) == f
  {
    match f
    case RGBA32_Float => 0
    case RGBA16_Float => 1
    case RG32_Float => 2
    case RG16_Float => 3
    case R11G11B10_Float => 4
    case R32_Float => 5
    case R16_Float => 6
    case RGBA16_UNorm => 7
    case RGB10A2_UNorm => 8
    case RBGA8_UNorm => 9
    case RG16_UNorm => 10
    case RG8_UNorm => 11
    case R16_UNorm => 12
    case R8_UNorm => 13
    case RGBA16_SNorm => 14
    case RBGA8_SNorm => 15
    case RG16_SNorm => 16
    case RG8_SNorm => 17
    case R16_SNorm => 18
    case R8_SNorm => 19
    case RGBA32_SInt => 20
    case RGBA16_SInt => 21
    case RGBA8_SInt => 22
    case RG32_SInt => 23
    case RG16_SInt => 24
    case RG8_SInt => 25
    case R32_SInt => 26
    case R16_SInt => 27
    case R8_SInt => 28
    case RGBA32_UInt => 29
    case RGBA16_UInt => 30
    case RGB10A2_UInt => 31
    case RGBA8_UInt => 32
    case RG32_UInt => 33
    case RG16_UInt => 34
    case RG8_UInt => 35
    case R32_UInt => 36
    case R16_UInt => 37
    case R8_UInt => 38
  }

  /** The data mode a variant's name ends in. */
  function DataModeOf(f: ImageFormat): DataMode
  {
    if FormatIndex(f) < 7 then Float
    else if FormatIndex(f) < 14 then UNorm
    else if FormatIndex(f) < 20 then SNorm
    else if FormatIndex(f) < 29 then SInt
    else UInt
  }

  function ModeSuffix(m: DataMode): string
  {
    match m
    case Float => "_Float"
    case UNorm => "_UNorm"
    case SNorm => "_SNorm"
    case SInt => "_SInt"
    case UInt => "_UInt"
  }

  predicate EndsWith(s: string, suffix: string)
  {
    |suffix| <= |s| && s[|s| - |suffix|..] == suffix
  }

  /** The enumeration has exactly 39 variants: the declaration order is a
      bijection between them and 0..38.  They fall into five blocks of 7 Float,
      7 UNorm, 6 SNorm, 9 SInt and 10 UInt formats, and each block is the set
      of variants whose name ends in that block's suffix. */
  lemma FormatBlocks(i: nat, f: ImageFormat)
    requires i < FormatCount
    ensures FormatIndex(FormatAt(i)) == i && FormatAt(FormatIndex(f)) == f
    ensures DataModeOf(f) == Float <==> 0 <= FormatIndex(f) < 7
    ensures DataModeOf(f) == UNorm <==> 7 <= FormatIndex(f) < 14
    ensures DataModeOf(f) == SNorm <==> 14 <= FormatIndex(f) < 20
    ensures DataModeOf(f) == SInt <==> 20 <= FormatIndex(f) < 29
    ensures DataModeOf(f) == UInt <==> 29 <= FormatIndex(f) < FormatCount
    ensures EndsWith(FormatName(f), ModeSuffix(DataModeOf(f)))
  {
    FormatIndexInverse(i);
    FormatNameSuffix(f);
  }

  lemma FormatIndexInverse(i: nat)
    requires i < FormatCount
    ensures FormatIndex(FormatAt(i)) == i
  {
  }

  lemma FormatNameSuffix(f: ImageFormat)
    ensures EndsWith(FormatName(f), ModeSuffix(DataModeOf(f)))
  {
    var i := FormatIndex(f);
    if i < 4 { FloatNamesLow(f); }
    else if i < 7 { FloatNamesHigh(f); }
    else if i < 11 { UNormNamesLow(f); }
    else if i < 14 { UNormNamesHigh(f); }
    else if i < 17 { SNormNamesLow(f); }
    else if i < 20 { SNormNamesHigh(f); }
    else if i < 23 { SIntNamesLow(f); }
    else if i < 26 { SIntNamesMid(f); }
    else if i < 29 { SIntNamesHigh(f); }
    else if i < 32 { UIntNamesLow(f); }
    else if i < 35 { UIntNamesMid(f); }
    else { UIntNamesHigh(f); }
  }

  // The name checks go a few variants at a time, to keep each proof small.

  lemma FloatNamesLow(f: ImageFormat)
    requires 0 <= FormatIndex(f) < 4
    ensures EndsWith(FormatName(f), ModeSuffix(DataModeOf(f)))
  {
  }

  lemma FloatNamesHigh(f: ImageFormat)
    requires 4 <= FormatIndex(f) < 7
    ensures EndsWith(FormatName(f), ModeSuffix(DataModeOf(f)))
  {
  }

  lemma UNormNamesLow(f: ImageFormat)
    requires 7 <= FormatIndex(f) < 11
    ensures EndsWith(FormatName(f), ModeSuffix(DataModeOf(f)))
  {
  }

  lemma UNormNamesHigh(f: ImageFormat)
    requires 11 <= FormatIndex(f) < 14
    ensures EndsWith(FormatName(f), ModeSuffix(DataModeOf(f)))
  {
  }

  lemma SNormNamesLow(f: ImageFormat)
    requires 14 <= FormatIndex(f) < 17
    ensures EndsWith(FormatName(f), ModeSuffix(DataModeOf(f)))
  {
  }

  lemma SNormNamesHigh(f: ImageFormat)
    requires 17 <= FormatIndex(f) < 20
    ensures EndsWith(FormatName(f), ModeSuffix(DataModeOf(f)))
  {
  }

  lemma SIntNamesLow(f: ImageFormat)
    requires 20 <= FormatIndex(f) < 23
    ensures EndsWith(FormatName(f), ModeSuffix(DataModeOf(f)))
  {
  }

  lemma SIntNamesMid(f: ImageFormat)
    requires 23 <= FormatIndex(f) < 26
    ensures EndsWith(FormatName(f), ModeSuffix(DataModeOf(f)))
  {
  }

  lemma SIntNamesHigh(f: ImageFormat)
    requires 26 <= FormatIndex(f) < 29
    ensures EndsWith(FormatName(f), ModeSuffix(DataModeOf(f)))
  {
  }

  lemma UIntNamesLow(f: ImageFormat)
    requires 29 <= FormatIndex(f) < 32
    ensures EndsWith(FormatName(f), ModeSuffix(DataModeOf(f)))
  {
  }

  lemma UIntNamesMid(f: ImageFormat)
    requires 32 <= FormatIndex(f) < 35
    ensures EndsWith(FormatName(f), ModeSuffix(DataModeOf(f)))
  {
  }

  lemma UIntNamesHigh(f: ImageFormat)
    requires 35 <= FormatIndex(f) < 39
    ensures EndsWith(FormatName(f), ModeSuffix(DataModeOf(f)))
  {
  }

  // ---------------------------------------------------------------------
  // Types of fields and buffers
  // ---------------------------------------------------------------------

  /** `PrimitiveTypeSingle`. */
  datatype Scalar = U8 | U16 | U32 | U64 | I8 | I16 | I32 | I64 | Bool | F16 | F32 | F64

  datatype PrimitiveType =
    | Single(scalar: Scalar)
    | Vec(scalar: Scalar, length: nat)
    | Mat(scalar: Scalar, rows: nat, columns: nat)

  /** A field type; `Path` names a data struct, resolved later. */
  datatype Type =
    | Primitive(prim: PrimitiveType)
    | Array(elem: Type, size: u32)
    | Slice(elem: Type)
    | Path(name: string)

  datatype Field = Field(ident: Option<string>, ty: Type)

  datatype DataStruct = DataStruct(ident: string, fields: seq<Field>)

  // ---------------------------------------------------------------------
  // Descriptor sets
  // ---------------------------------------------------------------------

  datatype DescriptorType =
    | Sampler
    | StorageImage(format: ImageFormat)
    | SampledImage
    | UniformBuffer(ty: Type)
    | StorageBuffer(ty: Type)
    | AccelerationStructure

  /** `same_type_as`: the variant tags agree, whatever the payload. */
  predicate SameTypeAs(a: DescriptorType, b: DescriptorType)
  {
    match (a, b)
    case (Sampler, Sampler) => true
    case (StorageImage(_), StorageImage(_)) => true
    case (SampledImage, SampledImage) => true
    case (UniformBuffer(_), UniformBuffer(_)) => true
    case (StorageBuffer(_), StorageBuffer(_)) => true
    case (AccelerationStructure, AccelerationStructure) => true
    case _ => false
  }

  datatype Binding = Binding(
    ident: string,
    binding: u32,
    stages: ShaderStages,
    descriptorType: DescriptorType,
    descriptorCount: u32,
    layout: Option<string>)

  datatype SetLayout = SetLayout(name: string, setId: u32, bindings: seq<Binding>)

  datatype PushConstantField = PushConstantField(field: Field, stages: ShaderStages)

  datatype PushConstantsLayout = PushConstantsLayout(name: string, fields: seq<PushConstantField>)

  datatype PlayoutModule = PlayoutModule(
    descriptorSets: seq<SetLayout>,
    pushConstants: PushConstantsLayout,
    dataStructs: map<string, DataStruct>)

  /** `PlayoutModule::default()`. */
  const EmptyModule := PlayoutModule([], PushConstantsLayout("", []), map[])
}
