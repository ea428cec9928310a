/** The keyword tables of the schema parser (`src/parser.rs`): image
    formats, shader stage names, scalar type names and the vector/matrix
    shorthands, each with the lemmas that say exactly which names it
    accepts and what it maps them to. */
module Keywords {
  import opened Outcomes
  import opened Types

  // ---------------------------------------------------------------------
  // Image formats
  // ---------------------------------------------------------------------

  /** The image format table: every variant's own name except `RGB10A2_UInt`. */
  function FormatByName(n: string): Option<ImageFormat>
  {
    match n
    case "RGBA32_Float" => Some(RGBA32_Float)
    case "RGBA16_Float" => Some(RGBA16_Float)
    case "RG32_Float" => Some(RG32_Float)
    case "RG16_Float" => Some(RG16_Float)
    case "R11G11B10_Float" => Some(R11G11B10_Float)
    case "R32_Float" => Some(R32_Float)
    case "R16_Float" => Some(R16_Float)
    case "RGBA16_UNorm" => Some(RGBA16_UNorm)
    case "RGB10A2_UNorm" => Some(RGB10A2_UNorm)
    case "RBGA8_UNorm" => Some(RBGA8_UNorm)
    case "RG16_UNorm" => Some(RG16_UNorm)
    case "RG8_UNorm" => Some(RG8_UNorm)
    case "R16_UNorm" => Some(R16_UNorm)
    case "R8_UNorm" => Some(R8_UNorm)
    case "RGBA16_SNorm" => Some(RGBA16_SNorm)
    case "RBGA8_SNorm" => Some(RBGA8_SNorm)
    case "RG16_SNorm" => Some(RG16_SNorm)
    case "RG8_SNorm" => Some(RG8_SNorm)
    case "R16_SNorm" => Some(R16_SNorm)
    case "R8_SNorm" => Some(R8_SNorm)
    case "RGBA32_SInt" => Some(RGBA32_SInt)
    case "RGBA16_SInt" => Some(RGBA16_SInt)
    case "RGBA8_SInt" => Some(RGBA8_SInt)
    case "RG32_SInt" => Some(RG32_SInt)
    case "RG16_SInt" => Some(RG16_SInt)
    case "RG8_SInt" => Some(RG8_SInt)
    case "R32_SInt" => Some(R32_SInt)
    case "R16_SInt" => Some(R16_SInt)
    case "R8_SInt" => Some(R8_SInt)
    case "RGBA32_UInt" => Some(RGBA32_UInt)
    case "RGBA16_UInt" => Some(RGBA16_UInt)
    case "RGBA8_UInt" => Some(RGBA8_UInt)
    case "RG32_UInt" => Some(RG32_UInt)
    case "RG16_UInt" => Some(RG16_UInt)
    case "RG8_UInt" => Some(RG8_UInt)
    case "R32_UInt" => Some(R32_UInt)
    case "R16_UInt" => Some(R16_UInt)
    case "R8_UInt" => Some(R8_UInt)
    case _ => None
  }

  /** The table accepts a name exactly when it is the name of a variant other
      than `RGB10A2_UInt`, and then yields that variant: 38 of the 39 formats
      can be written in a schema. */
  lemma FormatTableExact(n: string, f: ImageFormat)
    ensures FormatByName(n) == Some(f) <==> n == FormatName(f) && f != RGB10A2_UInt
  {
    if FormatByName(n) == Some(f) {
      FormatTableSound(n, f);
    } else if n == FormatName(f) && f != RGB10A2_UInt {
      FormatTableComplete(f);
    }
  }

  lemma FormatTableComplete(f: ImageFormat)
    requires f != RGB10A2_UInt
    ensures FormatByName(FormatName(f)) == Some(f)
  {
    if FormatIndex(f) < 14 { FormatTableCompleteLow(f); }
    else if FormatIndex(f) < 29 { FormatTableCompleteMid(f); }
    else { FormatTableCompleteHigh(f); }
  }

  lemma FormatTableSound(n: string, f: ImageFormat)
    requires FormatByName(n) == Some(f)
    ensures n == FormatName(f) && f != RGB10A2_UInt
  {
    if FormatIndex(f) < 14 { FormatTableSoundLow(n, f); }
    else if FormatIndex(f) < 29 { FormatTableSoundMid(n, f); }
    else { FormatTableSoundHigh(n, f); }
  }

  // The table checks go one third of the variants at a time, to keep each
  // proof small.

  lemma FormatTableCompleteLow(f: ImageFormat)
    requires 0 <= FormatIndex(f) < 14 && f != RGB10A2_UInt
    ensures FormatByName(FormatName(f)) == Some(f)
  {
  }

  lemma FormatTableSoundLow(n: string, f: ImageFormat)
    requires FormatByName(n) == Some(f) && 0 <= FormatIndex(f) < 14
    ensures n == FormatName(f) && f != RGB10A2_UInt
  {
  }

  lemma FormatTableCompleteMid(f: ImageFormat)
    requires 14 <= FormatIndex(f) < 29 && f != RGB10A2_UInt
    ensures FormatByName(FormatName(f)) == Some(f)
  {
  }

  lemma FormatTableSoundMid(n: string, f: ImageFormat)
    requires FormatByName(n) == Some(f) && 14 <= FormatIndex(f) < 29
    ensures n == FormatName(f) && f != RGB10A2_UInt
  {
  }

  lemma FormatTableCompleteHigh(f: ImageFormat)
    requires 29 <= FormatIndex(f) < 39 && f != RGB10A2_UInt
    ensures FormatByName(FormatName(f)) == Some(f)
  {
  }

  lemma FormatTableSoundHigh(n: string, f: ImageFormat)
    requires FormatByName(n) == Some(f) && 29 <= FormatIndex(f) < 39
    ensures n == FormatName(f) && f != RGB10A2_UInt
  {
  }

  /** `RGB10A2_UInt` is a variant whose name the table rejects. */
  lemma FormatTableRejectsRgb10a2UInt()
    ensures FormatByName(FormatName(RGB10A2_UInt)) == None
  {
  }

  // ---------------------------------------------------------------------
  // Shader stages
  // ---------------------------------------------------------------------

  function StageByName(n: string): Option<Stage>
  {
    match n
    case "VERTEX" => Some(Vertex)
    case "TELLESLATION_CONTROL" => Some(TessellationControl)
    case "TELLESLATION_EVALUATION" => Some(TessellationEvaluation)
    case "GEOMETRY" => Some(Geometry)
    case "FRAGMENT" => Some(Fragment)
    case "COMPUTE" => Some(Compute)
    case "RAYGEN" => Some(Raygen)
    case "ANY_HIT" => Some(AnyHit)
    case "CLOSEST_HIT" => Some(ClosestHit)
    case "MISS" => Some(Miss)
    case "INTERSECTION" => Some(Intersection)
    case "CALLABLE" => Some(Callable)
    case "TASK" => Some(Task)
    case "MESH" => Some(Mesh)
    case _ => None
  }

  /** Every stage is written by its constant's name, and by nothing else. */
  lemma StageTableExact(n: string, s: Stage)
    ensures StageByName(n) == Some(s) <==> n == StageName(s)
  {
  }

  // ---------------------------------------------------------------------
  // Scalars and shorthands
  // ---------------------------------------------------------------------

  /** Rust's spelling of a scalar type. */
  function ScalarName(s: Scalar): string
  {
    match s
    case U8 => "u8"
    case U16 => "u16"
    case U32 => "u32"
    case U64 => "u64"
    case I8 => "i8"
    case I16 => "i16"
    case I32 => "i32"
    case I64 => "i64"
    case Bool => "bool"
    case F16 => "f16"
    case F32 => "f32"
    case F64 => "f64"
  }

  function ScalarByName(n: string): Option<Scalar>
  {
    match n
    case "u8" => Some(U8)
    case "u16" => Some(U16)
    case "u32" => Some(U32)
    case "u64" => Some(U64)
    case "i8" => Some(I8)
    case "i16" => Some(I16)
    case "i32" => Some(I32)
    case "i64" => Some(I64)
    case "bool" => Some(Bool)
    case "f16" => Some(F16)
    case "f32" => Some(F32)
    case "f64" => Some(F64)
    case _ => None
  }

  lemma ScalarTableExact(n: string, s: Scalar)
    ensures ScalarByName(n) == Some(s) <==> n == ScalarName(s)
  {
  }

  /** The vector and matrix shorthands. */
  function ShorthandByName(n: string): Option<PrimitiveType>
  {
    match n
    case "Vec4" => Some(Vec(F32, 4))
    case "Vec3" => Some(Vec(F32, 3))
    case "Vec2" => Some(Vec(F32, 2))
    case "UVec4" => Some(Vec(U32, 4))
    case "UVec3" => Some(Vec(U32, 3))
    case "UVec2" => Some(Vec(U32, 2))
    case "IVec4" => Some(Vec(I32, 4))
    case "IVec3" => Some(Vec(I32, 3))
    case "IVec2" => Some(Vec(I32, 2))
    case "Mat4" => Some(Mat(F32, 4, 4))
    case "Mat3" => Some(Mat(F32, 3, 3))
    case "Mat2" => Some(Mat(F32, 2, 2))
    case _ => None
  }

  /** The forms a shorthand can denote: f32, u32 and i32 vectors of length
      2 to 4, and square f32 matrices of size 2 to 4. */
  predicate IsShorthand(p: PrimitiveType)
  {
    match p
    case Single(_) => false
    case Vec(s, k) => (s == F32 || s == U32 || s == I32) && 2 <= k <= 4
    case Mat(s, r, c) => s == F32 && r == c && 2 <= r <= 4
  }

  function ShorthandName(p: PrimitiveType): string
    requires IsShorthand(p)
  {
    match p
    case Vec(F32, 4) => "Vec4"
    case Vec(F32, 3) => "Vec3"
    case Vec(F32, 2) => "Vec2"
    case Vec(U32, 4) => "UVec4"
    case Vec(U32, 3) => "UVec3"
    case Vec(U32, 2) => "UVec2"
    case Vec(I32, 4) => "IVec4"
    case Vec(I32, 3) => "IVec3"
    case Vec(I32, 2) => "IVec2"
    case Mat(_, 4, _) => "Mat4"
    case Mat(_, 3, _) => "Mat3"
    case Mat(_, _, _) => "Mat2"
  }

  /** The shorthand table holds exactly the twelve shorthand forms under
      their names, and none of its names is also a scalar name. */
  lemma ShorthandTableExact(n: string, p: PrimitiveType)
    ensures ShorthandByName(n) == Some(p) <==> IsShorthand(p) && n == ShorthandName(p)
    ensures ShorthandByName(n).Some? ==> ScalarByName(n).None?
  {
  }
}
