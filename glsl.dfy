/** The GLSL declaration builder of `src/glsl.rs`: the image-format to
    format-layout-qualifier table, and one declaration per binding of a
    descriptor set.

    The GLSL syntax tree is the small part of it the builder produces:
    layout and storage qualifiers, a type specifier, a declarator name and
    an optional explicitly sized array. */
module Glsl {
  import opened Outcomes
  import opened Types

  // ---------------------------------------------------------------------
  // Format layout qualifiers
  // ---------------------------------------------------------------------

  /** `ImageFormat::to_layout_qualifier` as the source writes it: it spells
      the two 10-10-10-2 formats `rgb10a2` and `rgb10a2ui`. */
  function FormatQualifierAsWritten(f: ImageFormat): string
  {
    match f
    case RGB10A2_UNorm => "rgb10a2"
    case RGB10A2_UInt => "rgb10a2ui"
    case _ => FormatQualifier(f)
  }

  /** The format layout qualifier of section 4.4.7 of the GLSL 4.60
      specification for each format; `RBGA8_UNorm` and `RBGA8_SNorm` are the
      `rgba8` formats. */
  function FormatQualifier(f: ImageFormat): string
  {
    match f
    case RGBA32_Float => "rgba32f"
    case RGBA16_Float => "rgba16f"
    case RG32_Float => "rg32f"
    case RG16_Float => "rg16f"
    case R11G11B10_Float => "r11f_g11f_b10f"
    case R32_Float => "r32f"
    case R16_Float => "r16f"
    case RGBA16_UNorm => "rgba16"
    case RGB10A2_UNorm => "rgb10_a2"
    case RBGA8_UNorm => "rgba8"
    case RG16_UNorm => "rg16"
    case RG8_UNorm => "rg8"
    case R16_UNorm => "r16"
    case R8_UNorm => "r8"
    case RGBA16_SNorm => "rgba16_snorm"
    case RBGA8_SNorm => "rgba8_snorm"
    case RG16_SNorm => "rg16_snorm"
    case RG8_SNorm => "rg8_snorm"
    case R16_SNorm => "r16_snorm"
    case R8_SNorm => "r8_snorm"
    case RGBA32_SInt => "rgba32i"
    case RGBA16_SInt => "rgba16i"
    case RGBA8_SInt => "rgba8i"
    case RG32_SInt => "rg32i"
    case RG16_SInt => "rg16i"
    case RG8_SInt => "rg8i"
    case R32_SInt => "r32i"
    case R16_SInt => "r16i"
    case R8_SInt => "r8i"
    case RGBA32_UInt => "rgba32ui"
    case RGBA16_UInt => "rgba16ui"
    case RGB10A2_UInt => "rgb10_a2ui"
    case RGBA8_UInt => "rgba8ui"
    case RG32_UInt => "rg32ui"
    case RG16_UInt => "rg16ui"
    case RG8_UInt => "rg8ui"
    case R32_UInt => "r32ui"
    case R16_UInt => "r16ui"
    case R8_UInt => "r8ui"
  }

  /** The qualifiers GLSL 4.60 defines for image formats, read back to the
      format each one stands for. */
  function StandardQualifier(q: string): Option<ImageFormat>
  {
    match q
    case "rgba32f" => Some(RGBA32_Float)
    case "rgba16f" => Some(RGBA16_Float)
    case "rg32f" => Some(RG32_Float)
    case "rg16f" => Some(RG16_Float)
    case "r11f_g11f_b10f" => Some(R11G11B10_Float)
    case "r32f" => Some(R32_Float)
    case "r16f" => Some(R16_Float)
    case "rgba16" => Some(RGBA16_UNorm)
    case "rgb10_a2" => Some(RGB10A2_UNorm)
    case "rgba8" => Some(RBGA8_UNorm)
    case "rg16" => Some(RG16_UNorm)
    case "rg8" => Some(RG8_UNorm)
    case "r16" => Some(R16_UNorm)
    case "r8" => Some(R8_UNorm)
    case "rgba16_snorm" => Some(RGBA16_SNorm)
    case "rgba8_snorm" => Some(RBGA8_SNorm)
    case "rg16_snorm" => Some(RG16_SNorm)
    case "rg8_snorm" => Some(RG8_SNorm)
    case "r16_snorm" => Some(R16_SNorm)
    case "r8_snorm" => Some(R8_SNorm)
    case "rgba32i" => Some(RGBA32_SInt)
    case "rgba16i" => Some(RGBA16_SInt)
    case "rgba8i" => Some(RGBA8_SInt)
    case "rg32i" => Some(RG32_SInt)
    case "rg16i" => Some(RG16_SInt)
    case "rg8i" => Some(RG8_SInt)
    case "r32i" => Some(R32_SInt)
    case "r16i" => Some(R16_SInt)
    case "r8i" => Some(R8_SInt)
    case "rgba32ui" => Some(RGBA32_UInt)
    case "rgba16ui" => Some(RGBA16_UInt)
    case "rgb10_a2ui" => Some(RGB10A2_UInt)
    case "rgba8ui" => Some(RGBA8_UInt)
    case "rg32ui" => Some(RG32_UInt)
    case "rg16ui" => Some(RG16_UInt)
    case "rg8ui" => Some(RG8_UInt)
    case "r32ui" => Some(R32_UInt)
    case "r16ui" => Some(R16_UInt)
    case "r8ui" => Some(R8_UInt)
    case _ => None
  }

  /** Every format gets a standard qualifier, the one that stands for it,
      and every standard qualifier is some format's: the table is total and
      exactly the standard list. */
  lemma FormatQualifierExact(q: string, f: ImageFormat)
    ensures StandardQualifier(q) == Some(f) <==> q == FormatQualifier(f)
  {
    if StandardQualifier(q) == Some(f) {
      QualifierSound(q, f);
    } else if q == FormatQualifier(f) {
      QualifierComplete(f);
    }
  }

  /** No two formats share a qualifier. */
  lemma FormatQualifierInjective(a: ImageFormat, b: ImageFormat)
    ensures FormatQualifier(a) == FormatQualifier(b) <==> a == b
  {
    QualifierComplete(a);
    QualifierComplete(b);
  }

  lemma QualifierComplete(f: ImageFormat)
    ensures StandardQualifier(FormatQualifier(f)) == Some(f)
  {
    if FormatIndex(f) < 14 { QualifierCompleteLow(f); }
    else if FormatIndex(f) < 29 { QualifierCompleteMid(f); }
    else { QualifierCompleteHigh(f); }
  }

  lemma QualifierSound(q: string, f: ImageFormat)
    requires StandardQualifier(q) == Some(f)
    ensures q == FormatQualifier(f)
  {
    if FormatIndex(f) < 14 { QualifierSoundLow(q, f); }
    else if FormatIndex(f) < 29 { QualifierSoundMid(q, f); }
    else { QualifierSoundHigh(q, f); }
  }

  // The table checks go one third of the formats at a time, to keep each
  // proof small.

  lemma QualifierCompleteLow(f: ImageFormat)
    requires FormatIndex(f) < 14
    ensures StandardQualifier(FormatQualifier(f)) == Some(f)
  {
  }

  lemma QualifierCompleteMid(f: ImageFormat)
    requires 14 <= FormatIndex(f) < 29
    ensures StandardQualifier(FormatQualifier(f)) == Some(f)
  {
  }

  lemma QualifierCompleteHigh(f: ImageFormat)
    requires 29 <= FormatIndex(f)
    ensures StandardQualifier(FormatQualifier(f)) == Some(f)
  {
  }

  lemma QualifierSoundLow(q: string, f: ImageFormat)
    requires StandardQualifier(q) == Some(f) && FormatIndex(f) < 14
    ensures q == FormatQualifier(f)
  {
  }

  lemma QualifierSoundMid(q: string, f: ImageFormat)
    requires StandardQualifier(q) == Some(f) && 14 <= FormatIndex(f) < 29
    ensures q == FormatQualifier(f)
  {
  }

  lemma QualifierSoundHigh(q: string, f: ImageFormat)
    requires StandardQualifier(q) == Some(f) && 29 <= FormatIndex(f)
    ensures q == FormatQualifier(f)
  {
  }

  /** The table as written differs from the standard one in the two
      10-10-10-2 formats only. */
  lemma AsWrittenDiffers(f: ImageFormat)
    ensures FormatQualifierAsWritten(f) == FormatQualifier(f) <==> f != RGB10A2_UNorm && f != RGB10A2_UInt
  {
  }

  /** Neither of the two spellings the source uses for the 10-10-10-2
      formats is a GLSL format qualifier. */
  lemma AsWrittenNotStandard()
    ensures StandardQualifier(FormatQualifierAsWritten(RGB10A2_UNorm)) == None
    ensures StandardQualifier(FormatQualifierAsWritten(RGB10A2_UInt)) == None
  {
  }

  /** The table as written is injective too: no format shares its qualifier. */
  lemma AsWrittenInjective(a: ImageFormat, b: ImageFormat)
    ensures FormatQualifierAsWritten(a) == FormatQualifierAsWritten(b) <==> a == b
  {
    if FormatQualifierAsWritten(a) == FormatQualifierAsWritten(b) {
      AsWrittenDiffers(a);
      AsWrittenDiffers(b);
      AsWrittenNotStandard();
      var aSpecial := a == RGB10A2_UNorm || a == RGB10A2_UInt;
      var bSpecial := b == RGB10A2_UNorm || b == RGB10A2_UInt;
      if aSpecial && !bSpecial {
        QualifierComplete(b);
      } else if bSpecial && !aSpecial {
        QualifierComplete(a);
      } else if !aSpecial {
        FormatQualifierInjective(a, b);
      }
    }
  }

  // The qualifier says the data mode: a final `f` for Float, `_snorm` for
  // SNorm, a final `i` but not `ui` for SInt, a final `ui` for UInt.  Each
  // lemma states it of the source's table and of the corrected one.

  lemma FloatQualifiers(f: ImageFormat)
    requires DataModeOf(f) == Float
    ensures EndsWith(FormatQualifierAsWritten(f), "f")
    ensures EndsWith(FormatQualifier(f), "f")
  {
    AsWrittenDiffers(f);
  }

  lemma SNormQualifiers(f: ImageFormat)
    requires DataModeOf(f) == SNorm
    ensures EndsWith(FormatQualifierAsWritten(f), "_snorm")
    ensures EndsWith(FormatQualifier(f), "_snorm")
  {
    if FormatIndex(f) < 17 { SNormQualifiersLow(f); } else { SNormQualifiersHigh(f); }
    AsWrittenDiffers(f);
  }

  lemma SNormQualifiersLow(f: ImageFormat)
    requires 14 <= FormatIndex(f) < 17
    ensures EndsWith(FormatQualifier(f), "_snorm")
  {
  }

  lemma SNormQualifiersHigh(f: ImageFormat)
    requires 17 <= FormatIndex(f) < 20
    ensures EndsWith(FormatQualifier(f), "_snorm")
  {
  }

  lemma SIntQualifiers(f: ImageFormat)
    requires DataModeOf(f) == SInt
    ensures EndsWith(FormatQualifierAsWritten(f), "i") && !EndsWith(FormatQualifierAsWritten(f), "ui")
    ensures EndsWith(FormatQualifier(f), "i") && !EndsWith(FormatQualifier(f), "ui")
  {
    AsWrittenDiffers(f);
  }

  /** `rgb10a2ui`, the source's spelling for RGB10A2_UInt, ends in `ui` as
      well as the standard `rgb10_a2ui`. */
  lemma UIntQualifiers(f: ImageFormat)
    requires DataModeOf(f) == UInt
    ensures EndsWith(FormatQualifierAsWritten(f), "ui")
    ensures EndsWith(FormatQualifier(f), "ui")
  {
    AsWrittenDiffers(f);
  }

  // ---------------------------------------------------------------------
  // The syntax tree
  // ---------------------------------------------------------------------

  datatype Expr = UIntConst(value: u32)

  /** `name` or `name = value` inside `layout(..)`. */
  datatype LayoutQualifierSpec = Identifier(name: string, value: Option<Expr>)

  datatype StorageQualifier = Uniform

  datatype TypeQualifierSpec =
    | LayoutQualifier(ids: seq<LayoutQualifierSpec>)
    | Storage(storage: StorageQualifier)

  datatype TypeSpecifierNonArray = Image2D | Sampler2D | TypeName(name: string)

  datatype ArraySpecifierDimension = ExplicitlySized(size: Expr)

  datatype ArraySpecifier = ArraySpecifier(dimensions: seq<ArraySpecifierDimension>)

  datatype TypeSpecifier = TypeSpecifier(ty: TypeSpecifierNonArray, arraySpecifier: Option<ArraySpecifier>)

  datatype FullySpecifiedType = FullySpecifiedType(qualifiers: Option<seq<TypeQualifierSpec>>, ty: TypeSpecifier)

  datatype SingleDeclaration = SingleDeclaration(
    ty: FullySpecifiedType,
    name: Option<string>,
    arraySpecifier: Option<ArraySpecifier>,
    initializer: Option<Expr>)

  datatype Declaration = InitDeclaratorList(head: SingleDeclaration, tail: seq<SingleDeclaration>)

  // ---------------------------------------------------------------------
  // Declarations
  // ---------------------------------------------------------------------

  /** The descriptor types the builder's revision of the schema has: it
      matches on samplers, storage and sampled images and acceleration
      structures only. */
  predicate DeclaredKind(d: DescriptorType)
  {
    !d.UniformBuffer? && !d.StorageBuffer?
  }

  /** `layout(binding = b, set = s)`, with the format qualifier that `table`
      gives after them for a storage image. The source's table is
      `FormatQualifierAsWritten`. */
  function LayoutIds(b: Binding, setId: u32, table: ImageFormat -> string): seq<LayoutQualifierSpec>
  {
    [Identifier("binding", Some(UIntConst(b.binding))), Identifier("set", Some(UIntConst(setId)))] +
    (if b.descriptorType.StorageImage? then [Identifier(table(b.descriptorType.format), None)] else [])
  }

  function TypeFor(d: DescriptorType): TypeSpecifierNonArray
    requires DeclaredKind(d) && !d.Sampler?
  {
    match d
    case StorageImage(_) => Image2D
    case SampledImage => Sampler2D
    case AccelerationStructure => TypeName("accelerationStructureEXT")
  }

  /** `[n]` on the declarator when the binding is an array of more than one. */
  function ArrayFor(count: u32): Option<ArraySpecifier>
  {
    if count > 1 then Some(ArraySpecifier([ExplicitlySized(UIntConst(count))])) else None
  }

  /** `Binding::to_declaration` over a format-qualifier table: with
      `FormatQualifierAsWritten` it is the source's builder, with
      `FormatQualifier` the corrected one. */
  function BindingDeclaration(b: Binding, setId: u32, table: ImageFormat -> string): Result<Declaration>
    requires DeclaredKind(b.descriptorType)
  {
    if b.descriptorType.Sampler? then Panic(TODO_MSG)
    else
      var qualifiers := [LayoutQualifier(LayoutIds(b, setId, table)), Storage(Uniform)];
      var ty := FullySpecifiedType(Some(qualifiers), TypeSpecifier(TypeFor(b.descriptorType), None));
      Ok(InitDeclaratorList(SingleDeclaration(ty, Some(b.ident), ArrayFor(b.descriptorCount), None), []))
  }

  /** `Binding::to_declaration`, step by step: the layout ids are built and
      the format id pushed for a storage image, from the source's own
      qualifier table, then the layout qualifier is wrapped in the type
      qualifier and `uniform` pushed after it. */
  method ToDeclaration(b: Binding, setId: u32) returns (r: Result<Declaration>)
    requires DeclaredKind(b.descriptorType)
    ensures r == BindingDeclaration(b, setId, FormatQualifierAsWritten)
  {
    var ids := [Identifier("binding", Some(UIntConst(b.binding))), Identifier("set", Some(UIntConst(setId)))];
    if b.descriptorType.StorageImage? {
      ids := ids + [Identifier(FormatQualifierAsWritten(b.descriptorType.format), None)];
    }
    assert ids == LayoutIds(b, setId, FormatQualifierAsWritten);
    var qualifiers := [LayoutQualifier(ids)];
    if b.descriptorType.Sampler? {
      return Panic(TODO_MSG);
    }
    qualifiers := qualifiers + [Storage(Uniform)];
    var specifier := match b.descriptorType
      case StorageImage(_) => Image2D
      case SampledImage => Sampler2D
      case AccelerationStructure => TypeName("accelerationStructureEXT");
    var arraySpecifier: Option<ArraySpecifier> := None;
    if b.descriptorCount > 1 {
      arraySpecifier := Some(ArraySpecifier([ExplicitlySized(UIntConst(b.descriptorCount))]));
    }
    assert qualifiers == [LayoutQualifier(LayoutIds(b, setId, FormatQualifierAsWritten)), Storage(Uniform)];
    assert specifier == TypeFor(b.descriptorType);
    assert arraySpecifier == ArrayFor(b.descriptorCount);
    var head := SingleDeclaration(
      FullySpecifiedType(Some(qualifiers), TypeSpecifier(specifier, None)),
      Some(b.ident), arraySpecifier, None);
    return Ok(InitDeclaratorList(head, []));
  }

  /** The value of the layout id called `name`, if there is one. */
  function IdValue(ids: seq<LayoutQualifierSpec>, name: string): Option<Expr>
  {
    if ids == [] then None
    else if ids[0].name == name && ids[0].value.Some? then ids[0].value
    else IdValue(ids[1..], name)
  }

  /** Only samplers abort; every other declaration carries `binding` and
      `set` with the binding's number and the set id, a valueless format id
      from the table exactly for a storage image, `uniform` storage, the
      binding's name with no initializer, and an array of `descriptorCount`
      exactly when that is more than 1. */
  lemma DeclarationShape(b: Binding, setId: u32, table: ImageFormat -> string)
    requires DeclaredKind(b.descriptorType)
    ensures BindingDeclaration(b, setId, table).Panic? <==> b.descriptorType.Sampler?
    ensures !BindingDeclaration(b, setId, table).Err?
    ensures BindingDeclaration(b, setId, table).Ok? ==>
      var d := BindingDeclaration(b, setId, table).value;
      var qs := d.head.ty.qualifiers;
      d.tail == [] && d.head.name == Some(b.ident) && d.head.initializer.None? &&
      qs.Some? && |qs.value| == 2 && qs.value[0].LayoutQualifier? && qs.value[1] == Storage(Uniform) &&
      IdValue(qs.value[0].ids, "binding") == Some(UIntConst(b.binding)) &&
      IdValue(qs.value[0].ids, "set") == Some(UIntConst(setId)) &&
      (|qs.value[0].ids| == 3 <==> b.descriptorType.StorageImage?) &&
      (b.descriptorType.StorageImage? ==> qs.value[0].ids[2] == Identifier(table(b.descriptorType.format), None)) &&
      d.head.ty.ty.arraySpecifier.None? &&
      (d.head.arraySpecifier.Some? <==> b.descriptorCount > 1) &&
      (d.head.arraySpecifier.Some? ==> d.head.arraySpecifier.value.dimensions == [ExplicitlySized(UIntConst(b.descriptorCount))])
  {
  }

  /** The format id of a storage image's declaration: the source's builder
      writes a GLSL format qualifier for every format but the two 10-10-10-2
      ones, and the corrected builder writes the qualifier that stands for
      the image's own format, whatever it is. */
  lemma DeclaredFormatQualifier(b: Binding, setId: u32)
    requires b.descriptorType.StorageImage?
    ensures var ids := BindingDeclaration(b, setId, FormatQualifier).value.head.ty.qualifiers.value[0].ids;
      StandardQualifier(ids[2].name) == Some(b.descriptorType.format)
    ensures var ids := BindingDeclaration(b, setId, FormatQualifierAsWritten).value.head.ty.qualifiers.value[0].ids;
      StandardQualifier(ids[2].name) == Some(b.descriptorType.format) <==>
      b.descriptorType.format != RGB10A2_UNorm && b.descriptorType.format != RGB10A2_UInt
  {
    var f := b.descriptorType.format;
    QualifierComplete(f);
    AsWrittenDiffers(f);
    if f == RGB10A2_UNorm || f == RGB10A2_UInt {
      AsWrittenNotStandard();
    }
  }

  /** The type specifier depends on the variant only: every storage image is
      an `image2D`, whatever its format. */
  lemma DeclarationType(b: Binding, setId: u32, table: ImageFormat -> string)
    requires DeclaredKind(b.descriptorType) && !b.descriptorType.Sampler?
    ensures BindingDeclaration(b, setId, table).Ok?
    ensures var t := BindingDeclaration(b, setId, table).value.head.ty.ty.ty;
      (b.descriptorType.StorageImage? <==> t == Image2D) &&
      (b.descriptorType.SampledImage? <==> t == Sampler2D) &&
      (b.descriptorType.AccelerationStructure? <==> t == TypeName("accelerationStructureEXT"))
  {
  }

  /** `SetLayout::to_declarations`: one declaration per binding, in order. */
  function SetDeclarations(l: SetLayout, setId: u32, table: ImageFormat -> string): seq<Result<Declaration>>
    requires forall b | b in l.bindings :: DeclaredKind(b.descriptorType)
  {
    seq(|l.bindings|, i requires 0 <= i < |l.bindings| => BindingDeclaration(l.bindings[i], setId, table))
  }

  /** The k-th declaration is the k-th binding's, named after it, and every
      declaration of the set carries the same set id. */
  lemma SetDeclarationsInOrder(l: SetLayout, setId: u32, table: ImageFormat -> string, k: nat)
    requires forall b | b in l.bindings :: DeclaredKind(b.descriptorType)
    requires k < |l.bindings| && !l.bindings[k].descriptorType.Sampler?
    ensures |SetDeclarations(l, setId, table)| == |l.bindings|
    ensures SetDeclarations(l, setId, table)[k].Ok?
    ensures SetDeclarations(l, setId, table)[k].value.head.name == Some(l.bindings[k].ident)
    ensures var qs := SetDeclarations(l, setId, table)[k].value.head.ty.qualifiers.value;
      IdValue(qs[0].ids, "set") == Some(UIntConst(setId)) &&
      IdValue(qs[0].ids, "binding") == Some(UIntConst(l.bindings[k].binding))
  {
    assert l.bindings[k] in l.bindings;
    DeclarationShape(l.bindings[k], setId, table);
  }
}
