/** The schema grammar of `src/parser.rs` as functions over token sequences.

    Each parser returns `Ok(Parsed(value, rest))`, an `Err` carrying the
    message the source reports, or a `Panic` where the source aborts
    (`unwrap()` on a path that is not a single identifier, a `u32` counter
    that overflows).  The loops of the source (the stage-name fold, the
    binding attribute loop, the set and push-constant bodies and the module
    loop) are written here as recursive functions; `Parser` holds the
    loops themselves, proved equal to these functions, and `ParserFacts`
    the lemmas about them. */
module Grammar {
  import opened Outcomes
  import opened Types
  import opened Tokens
  import opened Keywords

  const UNWRAP_NONE_MSG := "called `Option::unwrap()` on a `None` value"

  // ---------------------------------------------------------------------
  // Image formats and shader stages
  // ---------------------------------------------------------------------

  function ParseImageFormat(ts: seq<Token>): (r: Result<Parsed<ImageFormat>>)
    ensures r.Ok? <==> |ts| > 0 && ts[0].Ident? && FormatByName(ts[0].name).Some?
    ensures r.Ok? ==> FormatName(r.value.value) == ts[0].name && r.value.value != RGB10A2_UInt && r.value.rest == ts[1..]
    ensures !r.Panic?
  {
    var id :- ParseIdent(ts);
    match FormatByName(id.value)
    case Some(f) =>
      FormatTableSound(id.value, f);
      Ok(Parsed(f, id.rest))
    case None => Err("Invalid image layout")
  }

  /** The fold over the names of a stage list: the union of the named stages,
      or an error at the first name that is not a stage. */
  function StagesNamed(names: seq<string>): (r: Result<ShaderStages>)
    ensures r.Ok? <==> forall i | 0 <= i < |names| :: StageByName(names[i]).Some?
    ensures r.Ok? ==> forall s :: s in r.value <==> StageName(s) in names
    ensures !r.Panic?
  {
    if names == [] then Ok({})
    else
      match StageByName(names[0])
      case None => Err("Invalid shader stage")
      case Some(first) =>
        var more :- StagesNamed(names[1..]);
        assert names == [names[0]] + names[1..];
        assert forall s :: s == first <==> StageName(s) == names[0] by {
          forall s { StageTableExact(names[0], s); }
        }
        Ok({first} + more)
  }

  lemma IdentIsProgressing()
    ensures Progressing(ParseIdent) && NeverPanics(ParseIdent)
  {
  }

  /** `ShaderStages::parse`: `|`-separated identifiers, then the fold. */
  function ParseShaderStages(ts: seq<Token>): (r: Result<ShaderStages>)
    ensures ts == [] ==> r == Ok({})
    ensures !r.Panic?
  {
    IdentIsProgressing();
    var names :- ParseTerminated(ts, ParseIdent, '|');
    StagesNamed(names)
  }

  /** `#![...]` starts a stage marker. */
  predicate IsStageMarker(ts: seq<Token>)
  {
    PeekPunct(ts, '#') && Peek2Punct(ts, '!')
  }

  /** The bracket group of `#![stage(...)]`: the word `stage` and one
      parenthesised group, nothing else. */
  predicate IsStageGroup(t: Token)
  {
    t.Group? && t.delim == Bracket && |t.body| == 2 && t.body[0] == Ident("stage")
    && t.body[1].Group? && t.body[1].delim == Paren
  }

  /** `parse_shader_stage_attribute`: `#![stage(A | B | ...)]`. */
  function ParseStageAttr(ts: seq<Token>): (r: Result<Parsed<ShaderStages>>)
    ensures r.Ok? <==> IsStageMarker(ts) && |ts| >= 3 && IsStageGroup(ts[2]) && ParseShaderStages(ts[2].body[1].body).Ok?
    ensures r.Ok? ==> r.value == Parsed(ParseShaderStages(ts[2].body[1].body).value, ts[3..])
    ensures !r.Panic?
  {
    var afterPound :- ParsePunct(ts, '#');
    var afterBang :- ParsePunct(afterPound, '!');
    var attr :- ParseGroup(afterBang, Bracket);
    var id :- ParseIdent(attr.value);
    if id.value == "stage" then
      var inside :- ParseGroup(id.rest, Paren);
      var stages :- ParseShaderStages(inside.value);
      var done :- EndOfGroup(Parsed(stages, inside.rest));
      Ok(Parsed(done, attr.rest))
    else
      Err("unknown attribute")
  }

  // ---------------------------------------------------------------------
  // Field types
  // ---------------------------------------------------------------------

  /** `PrimitiveTypeSingle::parse`. */
  function ParseScalar(ts: seq<Token>): (r: Result<Parsed<Scalar>>)
    ensures r.Ok? <==> |ts| > 0 && ts[0].Ident? && ScalarByName(ts[0].name).Some?
    ensures r.Ok? ==> ScalarName(r.value.value) == ts[0].name && r.value.rest == ts[1..]
    ensures !r.Panic?
  {
    var id :- ParseIdent(ts);
    match ScalarByName(id.value)
    case Some(s) =>
      ScalarTableExact(id.value, s);
      Ok(Parsed(s, id.rest))
    case None => Err("Invalid primitive type")
  }

  /** `PrimitiveType::parse`: a shorthand or a scalar name, then an optional
      `<scalar>` argument that only an f32 vector shorthand accepts. */
  function ParsePrimitiveType(ts: seq<Token>): (r: Result<Parsed<PrimitiveType>>)
    ensures r.Ok? ==> |ts| > 0 && ts[0].Ident? && |r.value.rest| < |ts|
    ensures !r.Panic?
  {
    var id :- ParseIdent(ts);
    var base :-
      match ShorthandByName(id.value)
      case Some(p) => Ok(p)
      case None =>
        var s :- ParseScalar(ts);
        Ok(Single(s.value));
    if PeekPunct(id.rest, '<') then
      if base.Vec? && base.scalar == F32 then
        var arg :- ParseScalar(id.rest[1..]);
        var afterClose :- ParsePunct(arg.rest, '>');
        Ok(Parsed(Vec(arg.value, base.length), afterClose))
      else if base.Vec? then
        Err("Generic type cannot be used on this shorthand type")
      else
        Err("Generic type cannot be used on primitive types")
    else
      Ok(Parsed(base, id.rest))
  }

  // ---------------------------------------------------------------------
  // Paths
  // ---------------------------------------------------------------------

  /** `::` as the next two tokens. */
  predicate PeekColon2(ts: seq<Token>)
  {
    PeekPunct(ts, ':') && Peek2Punct(ts, ':')
  }

  /** The reserved words that may name a path segment. */
  predicate IsSegmentKeyword(t: Token)
  {
    t.Keyword? && t.name in {"self", "Self", "super", "crate"}
  }

  /** After a segment's name, generic arguments follow: a `<` that is not
      the start of `<=`, or `::<`. */
  predicate ArgsStart(ts: seq<Token>)
  {
    (PeekPunct(ts, '<') && !Peek2Punct(ts, '=')) || (PeekColon2(ts) && |ts| > 2 && ts[2] == Punct('<'))
  }

  /** The path goes on with another `::` segment: a `::` not followed by a
      parenthesised group. */
  predicate PathGoesOn(ts: seq<Token>)
  {
    PeekColon2(ts) && !(|ts| > 2 && ts[2].Group? && ts[2].delim == Paren)
  }

  /** The tokens after the `>` that closes an open `<`, `depth` counting the
      `<` still open. */
  function AfterAngles(ts: seq<Token>, depth: nat): (r: Result<seq<Token>>)
    requires depth > 0
    ensures r.Ok? ==> |r.value| < |ts|
    ensures !r.Panic?
    decreases |ts|
  {
    if ts == [] then Err("expected `>`")
    else if ts[0] == Punct('>') then
      if depth == 1 then Ok(ts[1..]) else AfterAngles(ts[1..], depth - 1)
    else if ts[0] == Punct('<') then AfterAngles(ts[1..], depth + 1)
    else AfterAngles(ts[1..], depth)
  }

  /** `AngleBracketedGenericArguments::parse`: an optional `::`, then
      `<` ... `>`. */
  function ParseGenericArgs(ts: seq<Token>): (r: Result<seq<Token>>)
    ensures r.Ok? ==> |r.value| < |ts|
    ensures !r.Panic?
  {
    var open := if PeekColon2(ts) then ts[2..] else ts;
    var inside :- ParsePunct(open, '<');
    AfterAngles(inside, 1)
  }

  /** `PathSegment::parse`: the segment's name, and whether it carries
      generic arguments.  `self`, `super` and `crate` never do; `Self` and
      identifiers do when `<` or `::<` follows. */
  function ParseSegment(ts: seq<Token>): (r: Result<Parsed<(string, bool)>>)
    ensures r.Ok? ==> |ts| > 0 && (ts[0].Ident? || IsSegmentKeyword(ts[0])) && r.value.value.0 == ts[0].name
    ensures r.Ok? ==> |r.value.rest| < |ts|
    ensures r.Ok? && !r.value.value.1 ==> r.value.rest == ts[1..]
    ensures !r.Panic?
  {
    if |ts| > 0 && ts[0].Keyword? && ts[0].name in {"self", "super", "crate"} then
      Ok(Parsed((ts[0].name, false), ts[1..]))
    else
      var id :- if PeekKeyword(ts, "Self") then ParseAnyIdent(ts) else ParseIdent(ts);
      if ArgsStart(id.rest) then
        var after :- ParseGenericArgs(id.rest);
        Ok(Parsed((id.value, true), after))
      else
        Ok(Parsed((id.value, false), id.rest))
  }

  /** `Path::parse_rest`: further `::` segments; the result says whether
      there were any. */
  function ParsePathRest(ts: seq<Token>): (r: Result<Parsed<bool>>)
    ensures r.Ok? ==> |r.value.rest| <= |ts|
    ensures r.Ok? ==> (r.value.value <==> PathGoesOn(ts))
    ensures r.Ok? && !r.value.value ==> r.value.rest == ts
    ensures !r.Panic?
    decreases |ts|
  {
    if PathGoesOn(ts) then
      var segment :- ParseSegment(ts[2..]);
      var more :- ParsePathRest(segment.rest);
      Ok(Parsed(true, more.rest))
    else
      Ok(Parsed(false, ts))
  }

  /** A path of one plain segment: an identifier or `self`, `Self`, `super`,
      `crate`, with no generic arguments and no further segment. */
  predicate SingleSegment(ts: seq<Token>)
  {
    && |ts| > 0
    && (ts[0].Ident? || IsSegmentKeyword(ts[0]))
    && ((ts[0].Ident? || ts[0].name == "Self") ==> !ArgsStart(ts[1..]))
    && !PathGoesOn(ts[1..])
  }

  /** `syn::Path` followed by `get_ident().unwrap()`: a path of one plain
      segment is a path type; a path that does not parse is an error; any
      other path (a leading `::`, generic arguments, more segments) has no
      single identifier, and the unwrap aborts. */
  function ParsePath(ts: seq<Token>): (r: Result<Parsed<Type>>)
    ensures r.Ok? <==> SingleSegment(ts)
    ensures r.Ok? ==> r.value == Parsed(Path(ts[0].name), ts[1..])
    ensures PeekColon2(ts) ==> !r.Ok?
  {
    var leading := PeekColon2(ts);
    var first :- ParseSegment(if leading then ts[2..] else ts);
    var more :- ParsePathRest(first.rest);
    if leading || first.value.1 || more.value then Panic(UNWRAP_NONE_MSG)
    else Ok(Parsed(Path(first.value.0), more.rest))
  }

  /** `<n>`: one identifier as the generic arguments. */
  lemma OneArgument(n: string, rest: seq<Token>)
    ensures ParseGenericArgs([Punct('<'), Ident(n), Punct('>')] + rest) == Ok(rest)
  {
    var ts := [Punct('<'), Ident(n), Punct('>')] + rest;
    assert ts[1..] == [Ident(n), Punct('>')] + rest;
    assert ts[1..][1..] == [Punct('>')] + rest;
    assert AfterAngles(ts[1..][1..], 1) == Ok(rest);
  }

  /** A path of two plain segments parses, and the unwrap aborts. */
  lemma TwoSegmentPathAborts(a: string, b: string, rest: seq<Token>)
    requires !PathGoesOn(rest) && !ArgsStart(rest)
    ensures ParsePath([Ident(a), Punct(':'), Punct(':'), Ident(b)] + rest) == Panic(UNWRAP_NONE_MSG)
  {
    var ts := [Ident(a), Punct(':'), Punct(':'), Ident(b)] + rest;
    assert ts[1..] == [Punct(':'), Punct(':'), Ident(b)] + rest;
    assert ts[1..][2..] == [Ident(b)] + rest;
    assert ([Ident(b)] + rest)[1..] == rest;
    assert ParseSegment([Ident(b)] + rest) == Ok(Parsed((b, false), rest));
    assert ParsePathRest(rest) == Ok(Parsed(false, rest));
    assert ParsePathRest(ts[1..]) == Ok(Parsed(true, rest));
    assert ParseSegment(ts) == Ok(Parsed((a, false), ts[1..]));
  }

  /** A leading `::` parses as part of the path, and the unwrap aborts. */
  lemma LeadingColonAborts(a: string, rest: seq<Token>)
    requires !PathGoesOn(rest) && !ArgsStart(rest)
    ensures ParsePath([Punct(':'), Punct(':'), Ident(a)] + rest) == Panic(UNWRAP_NONE_MSG)
  {
    var ts := [Punct(':'), Punct(':'), Ident(a)] + rest;
    assert ts[2..] == [Ident(a)] + rest;
    assert ([Ident(a)] + rest)[1..] == rest;
    assert ParseSegment(ts[2..]) == Ok(Parsed((a, false), rest));
  }

  /** A `::` with no segment after it is a parse error, not an abort. */
  lemma DanglingColonIsError(a: string, rest: seq<Token>)
    requires rest == [] || (!rest[0].Ident? && !IsSegmentKeyword(rest[0]) && !rest[0].Group? && rest[0] != Punct('<'))
    ensures ParsePath([Ident(a), Punct(':'), Punct(':')] + rest).Err?
  {
    var ts := [Ident(a), Punct(':'), Punct(':')] + rest;
    assert ts[1..] == [Punct(':'), Punct(':')] + rest;
    assert ts[1..][2..] == rest;
    assert ParseSegment(rest).Err?;
    assert ParsePathRest(ts[1..]).Err?;
    assert ParseSegment(ts) == Ok(Parsed((a, false), ts[1..]));
  }

  /** `Type::parse`: `[T; N]`, `[T]`, a primitive type, or a path. */
  function ParseType(ts: seq<Token>): (r: Result<Parsed<Type>>)
    ensures r.Ok? ==> |r.value.rest| < |ts|
    ensures r.Ok? ==> ((r.value.value.Array? || r.value.value.Slice?) <==> PeekGroup(ts, Bracket))
    decreases ts
  {
    if PeekGroup(ts, Bracket) then
      var inner :- ParseType(ts[0].body);
      if PeekPunct(inner.rest, ';') then
        var length :- ParseLitU32(inner.rest[1..]);
        var size :- EndOfGroup(length);
        Ok(Parsed(Array(inner.value, size), ts[1..]))
      else
        var elem :- EndOfGroup(inner);
        Ok(Parsed(Slice(elem), ts[1..]))
    else
      match ParsePrimitiveType(ts)
      case Ok(p) => Ok(Parsed(Primitive(p.value), p.rest))
      case _ => ParsePath(ts)
  }

  // ---------------------------------------------------------------------
  // Descriptor types, fields and data structs
  // ---------------------------------------------------------------------

  /** How a descriptor type is written; `Sampler` has a name but no case in
      the parser. */
  function DescriptorKeyword(d: DescriptorType): string
  {
    match d
    case Sampler => "Sampler"
    case StorageImage(_) => "StorageImage"
    case SampledImage => "SampledImage"
    case UniformBuffer(_) => "UniformBuffer"
    case StorageBuffer(_) => "StorageBuffer"
    case AccelerationStructure => "AccelerationStructure"
  }

  /** `<T>` after a buffer descriptor type. */
  function ParseTypeArgument(ts: seq<Token>): (r: Result<Parsed<Type>>)
    ensures r.Ok? ==> |r.value.rest| < |ts|
  {
    var afterOpen :- ParsePunct(ts, '<');
    var ty :- ParseType(afterOpen);
    var afterClose :- ParsePunct(ty.rest, '>');
    Ok(Parsed(ty.value, afterClose))
  }

  /** `DescriptorType::parse`. */
  function ParseDescriptorType(ts: seq<Token>): (r: Result<Parsed<DescriptorType>>)
    ensures r.Ok? ==> |ts| > 0 && ts[0].Ident? && ts[0].name == DescriptorKeyword(r.value.value)
    ensures r.Ok? ==> !r.value.value.Sampler? && |r.value.rest| < |ts|
  {
    var id :- ParseIdent(ts);
    match id.value
    case "StorageImage" =>
      var afterOpen :- ParsePunct(id.rest, '<');
      var format :- ParseImageFormat(afterOpen);
      var afterClose :- ParsePunct(format.rest, '>');
      Ok(Parsed(StorageImage(format.value), afterClose))
    case "SampledImage" => Ok(Parsed(SampledImage, id.rest))
    case "AccelerationStructure" => Ok(Parsed(AccelerationStructure, id.rest))
    case "UniformBuffer" =>
      var ty :- ParseTypeArgument(id.rest);
      Ok(Parsed(UniformBuffer(ty.value), ty.rest))
    case "StorageBuffer" =>
      var ty :- ParseTypeArgument(id.rest);
      Ok(Parsed(StorageBuffer(ty.value), ty.rest))
    case _ => Err("Invalid descriptor type")
  }

  /** `Field::parse`: `name: Type`. */
  function ParseField(ts: seq<Token>): (r: Result<Parsed<Field>>)
    ensures r.Ok? ==> |ts| > 1 && ts[0].Ident? && ts[1] == Punct(':')
    ensures r.Ok? ==> r.value.value.ident == Some(ts[0].name) && |r.value.rest| < |ts|
  {
    var id :- ParseIdent(ts);
    var afterColon :- ParsePunct(id.rest, ':');
    var ty :- ParseType(afterColon);
    Ok(Parsed(Field(Some(id.value), ty.value), ty.rest))
  }

  lemma FieldIsProgressing()
    ensures Progressing(ParseField)
  {
  }

  /** `DataStruct::parse`: `struct Name { field, ... }`. */
  function ParseDataStruct(ts: seq<Token>): (r: Result<Parsed<DataStruct>>)
    ensures r.Ok? ==> |ts| >= 3 && ts[0] == Keyword("struct") && ts[1].Ident? && PeekGroup(ts[2..], Brace)
    ensures r.Ok? ==> r.value.value.ident == ts[1].name && r.value.rest == ts[3..]
  {
    var afterStruct :- ParseKeyword(ts, "struct");
    var name :- ParseIdent(afterStruct);
    var body :- ParseGroup(name.rest, Brace);
    FieldIsProgressing();
    var fields :- ParseTerminated(body.value, ParseField, ',');
    Ok(Parsed(DataStruct(name.value, fields), body.rest))
  }

  // ---------------------------------------------------------------------
  // Bindings
  // ---------------------------------------------------------------------

  /** The attribute loop in front of a binding: `#[binding = N]` and
      `#[layout = Name]`, in any number and order; the last of each kind
      wins.  Yields the binding number (0 when none is given) and the layout. */
  function BindingAttrs(ts: seq<Token>, number: u32, layout: Option<string>): (r: Result<Parsed<(u32, Option<string>)>>)
    ensures r.Ok? ==> |r.value.rest| <= |ts| && !PeekPunct(r.value.rest, '#')
    ensures !r.Panic?
    decreases |ts|
  {
    if !PeekPunct(ts, '#') then Ok(Parsed((number, layout), ts))
    else
      var attr :- ParseGroup(ts[1..], Bracket);
      var id :- ParseIdent(attr.value);
      if id.value == "binding" then
        var afterEq :- ParsePunct(id.rest, '=');
        var literal :- ParseLitU32(afterEq);
        var n :- EndOfGroup(literal);
        BindingAttrs(attr.rest, n, layout)
      else if id.value == "layout" then
        var afterEq :- ParsePunct(id.rest, '=');
        var name :- ParseIdent(afterEq);
        var l :- EndOfGroup(name);
        BindingAttrs(attr.rest, number, Some(l))
      else
        Err("unknown attribute")
  }

  /** The part of a binding after the colon: `[T; N]` gives count `N`, a bare
      `T` gives count 1. */
  function ParseBindingType(ts: seq<Token>): (r: Result<Parsed<(DescriptorType, u32)>>)
    ensures r.Ok? ==> |r.value.rest| < |ts|
  {
    var bracketed := PeekGroup(ts, Bracket);
    var ty :- ParseDescriptorType(if bracketed then ts[0].body else ts);
    if bracketed then
      var afterSemi :- ParsePunct(ty.rest, ';');
      var length :- ParseLitU32(afterSemi);
      var count :- EndOfGroup(length);
      Ok(Parsed((ty.value, count), ts[1..]))
    else
      Ok(Parsed((ty.value, 1), ty.rest))
  }

  /** `Binding::parse`: attributes, a name (`_` allowed), `:`, the type.  The
      stage set is left empty for the set body to fill in. */
  function ParseBinding(ts: seq<Token>): (r: Result<Parsed<Binding>>)
    ensures r.Ok? ==> |r.value.rest| < |ts| && r.value.value.stages == {}
  {
    var attrs :- BindingAttrs(ts, 0, None);
    var name :- if PeekKeyword(attrs.rest, "_") then ParseAnyIdent(attrs.rest) else ParseIdent(attrs.rest);
    var afterColon :- ParsePunct(name.rest, ':');
    var ty :- ParseBindingType(afterColon);
    Ok(Parsed(Binding(name.value, attrs.value.0, {}, ty.value.0, ty.value.1, attrs.value.1), ty.rest))
  }

  // ---------------------------------------------------------------------
  // Set and push-constant bodies
  // ---------------------------------------------------------------------

  lemma BindingIsProgressing()
    ensures Progressing(ParseBinding)
  {
  }

  /** How one turn of a body loop ends: the loop stops with a result, or it
      goes on with the items this turn pushed and the new loop state. */
  datatype Turn<T> =
    | Stop(result: Result<seq<T>>)
    | Next(pushed: seq<T>, rest: seq<Token>, stages: ShaderStages, cursor: u32)

  /** One turn of the loop over a descriptor set's body, with `item` reading
      one binding (`ParseBinding`).  A stage marker replaces the stage set; a
      binding before any marker is an error; a binding numbered 0 takes the
      cursor, another number moves the cursor there; a comma advances the
      cursor by one. */
  function SetTurn(item: seq<Token> -> Result<Parsed<Binding>>, ts: seq<Token>, stages: ShaderStages, cursor: u32): (t: Turn<Binding>)
    requires Progressing(item)
    ensures t.Next? ==> |t.rest| < |ts|
  {
    if IsStageMarker(ts) then
      match ParseStageAttr(ts)
      case Ok(marker) => Next([], marker.rest, marker.value, cursor)
      case Err(e) => Stop(Err(e))
      case Panic(e) => Stop(Panic(e))
    else if ts == [] then Stop(Ok([]))
    else if stages == {} then Stop(Err("No shader stages specified for this binding"))
    else
      match item(ts)
      case Err(e) => Stop(Err(e))
      case Panic(e) => Stop(Panic(e))
      case Ok(parsed) =>
        var number: u32 := if parsed.value.binding == 0 then cursor else parsed.value.binding;
        var binding := parsed.value.(binding := number, stages := stages);
        if parsed.rest == [] then Stop(Ok([binding]))
        else if !PeekPunct(parsed.rest, ',') then Stop(Err("expected `,`"))
        else if number + 1 >= U32_LIMIT then Stop(Panic(OVERFLOW_MSG))
        else Next([binding], parsed.rest[1..], stages, number + 1)
  }

  /** A failure stays a failure; a success is appended to what came before. */
  function Prepend<T>(done: seq<T>, r: Result<seq<T>>): Result<seq<T>>
  {
    if r.Ok? then Ok(done + r.value) else r
  }

  lemma PrependNothing<T>(r: Result<seq<T>>)
    ensures Prepend([], r) == r
  {
    if r.Ok? {
      assert [] + r.value == r.value;
    }
  }

  lemma PrependTwice<T>(done: seq<T>, more: seq<T>, r: Result<seq<T>>)
    ensures Prepend(done, Prepend(more, r)) == Prepend(done + more, r)
  {
    if r.Ok? {
      assert done + (more + r.value) == (done + more) + r.value;
    }
  }

  /** The loop over a descriptor set's body, from a given stage set and
      binding cursor on: its turns, one after the other. */
  function SetBody(item: seq<Token> -> Result<Parsed<Binding>>, ts: seq<Token>, stages: ShaderStages, cursor: u32): (r: Result<seq<Binding>>)
    requires Progressing(item)
    decreases |ts|
  {
    match SetTurn(item, ts, stages, cursor)
    case Stop(result) => result
    case Next(pushed, rest, stages', cursor') => Prepend(pushed, SetBody(item, rest, stages', cursor'))
  }

  /** `SetLayout::parse`: `struct Name { body }`, with set id 0 until the
      module loop assigns one. */
  function ParseSetLayout(ts: seq<Token>): (r: Result<Parsed<SetLayout>>)
    ensures r.Ok? ==> |ts| >= 3 && ts[1].Ident? && r.value.rest == ts[3..] && r.value.value.name == ts[1].name
  {
    var afterStruct :- ParseKeyword(ts, "struct");
    var name :- ParseIdent(afterStruct);
    var body :- ParseGroup(name.rest, Brace);
    BindingIsProgressing();
    var bindings :- SetBody(ParseBinding, body.value, {}, 0);
    Ok(Parsed(SetLayout(name.value, 0, bindings), body.rest))
  }

  /** The loop over the push-constant struct's body: the same stage scoping
      as a set body, over plain fields. */
  function PushBody(ts: seq<Token>, stages: ShaderStages): (r: Result<seq<PushConstantField>>)
    decreases |ts|
  {
    if IsStageMarker(ts) then
      var marker :- ParseStageAttr(ts);
      PushBody(marker.rest, marker.value)
    else if ts == [] then Ok([])
    else if stages == {} then Err("No shader stages specified for this value")
    else
      var item :- ParseField(ts);
      var field := PushConstantField(item.value, stages);
      if item.rest == [] then Ok([field])
      else
        var afterComma :- ParsePunct(item.rest, ',');
        var more :- PushBody(afterComma, stages);
        Ok([field] + more)
  }

  /** `PushConstantsLayout::parse`. */
  function ParsePushConstants(ts: seq<Token>): (r: Result<Parsed<PushConstantsLayout>>)
    ensures r.Ok? ==> |ts| >= 3 && ts[1].Ident? && r.value.rest == ts[3..] && r.value.value.name == ts[1].name
  {
    var afterStruct :- ParseKeyword(ts, "struct");
    var name :- ParseIdent(afterStruct);
    var body :- ParseGroup(name.rest, Brace);
    var fields :- PushBody(body.value, {});
    Ok(Parsed(PushConstantsLayout(name.value, fields), body.rest))
  }

  // ---------------------------------------------------------------------
  // The module loop
  // ---------------------------------------------------------------------

  /** What an item's attribute makes of the `struct` after it. */
  datatype ItemKind = Plain | SetItem(id: u32) | PushItem

  /** The optional attribute in front of a module item, and the set counter
      after it: `#[set]` takes the counter, `#[set = N]` takes `N`, and either
      leaves the counter one past the id it took. */
  function ItemAttr(ts: seq<Token>, counter: u32): (r: Result<Parsed<(ItemKind, u32)>>)
    ensures r.Ok? ==> |r.value.rest| <= |ts|
    ensures r.Ok? && !PeekPunct(ts, '#') ==> r.value == Parsed((Plain, counter), ts)
    ensures r.Ok? && PeekPunct(ts, '#') ==> |r.value.rest| < |ts| && !r.value.value.0.Plain?
    ensures r.Ok? && r.value.value.0.SetItem? ==> r.value.value.1 == r.value.value.0.id + 1
    ensures r.Ok? && !r.value.value.0.SetItem? ==> r.value.value.1 == counter
  {
    if !PeekPunct(ts, '#') then Ok(Parsed((Plain, counter), ts))
    else
      var attr :- ParseGroup(ts[1..], Bracket);
      var id :- ParseIdent(attr.value);
      if id.value == "set" then
        var n :- if PeekPunct(id.rest, '=') then ParseLitU32(id.rest[1..]) else Ok(Parsed(counter, id.rest));
        if n.value + 1 >= U32_LIMIT then Panic(OVERFLOW_MSG)
        else
          var setId :- EndOfGroup(n);
          Ok(Parsed((SetItem(setId), setId + 1), attr.rest))
      else if id.value == "push_constants" then
        var done :- EndOfGroup(Parsed((), id.rest));
        Ok(Parsed((PushItem, counter), attr.rest))
      else
        Err("unknown attribute")
  }

  /** How the module loop ends: with a result, or never, when an iteration
      consumes nothing (the next token is neither `#` nor `struct`). */
  datatype Run<+T> = Done(result: Result<T>) | Diverges

  /** The module loop from a given position, set counter and module so far. */
  function ModuleFrom(ts: seq<Token>, counter: u32, m: PlayoutModule): (r: Run<PlayoutModule>)
    decreases |ts|
  {
    if ts == [] then Done(Ok(m))
    else
      match ItemAttr(ts, counter)
      case Err(e) => Done(Err(e))
      case Panic(e) => Done(Panic(e))
      case Ok(attr) =>
        var rest := attr.rest;
        var (kind, next) := attr.value;
        if rest == [] then Done(Ok(m))
        else if !PeekKeyword(rest, "struct") then
          if |rest| == |ts| then Diverges else ModuleFrom(rest, next, m)
        else
          match kind
          case SetItem(setId) =>
            (match ParseSetLayout(rest)
             case Ok(p) => ModuleFrom(p.rest, next, m.(descriptorSets := m.descriptorSets + [p.value.(setId := setId)]))
             case Err(e) => Done(Err(e))
             case Panic(e) => Done(Panic(e)))
          case PushItem =>
            (match ParsePushConstants(rest)
             case Ok(p) => ModuleFrom(p.rest, next, m.(pushConstants := p.value))
             case Err(e) => Done(Err(e))
             case Panic(e) => Done(Panic(e)))
          case Plain =>
            (match ParseDataStruct(rest)
             case Ok(p) => ModuleFrom(p.rest, next, m.(dataStructs := m.dataStructs[p.value.ident := p.value]))
             case Err(e) => Done(Err(e))
             case Panic(e) => Done(Panic(e)))
  }

  /** `PlayoutModule::parse`: the loop from the start, with the default module. */
  function ParseModule(ts: seq<Token>): Run<PlayoutModule>
  {
    ModuleFrom(ts, 0, EmptyModule)
  }
}
