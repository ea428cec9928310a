/** The loops of `src/parser.rs`: the stage-name fold, the binding attribute
    loop, the set and push-constant body loops and the module loop, each
    with the state the source keeps (current stage set, binding cursor,
    set counter, the bindings and fields pushed so far, the module being
    filled), proved to compute what the grammar functions of `Grammar`
    define. */
module Parser {
  import opened Outcomes
  import opened Types
  import opened Tokens
  import opened Keywords
  import opened Grammar

  function Joined(acc: ShaderStages, r: Result<ShaderStages>): Result<ShaderStages>
  {
    if r.Ok? then Ok(acc + r.value) else r
  }

  lemma JoinedNothing(r: Result<ShaderStages>)
    ensures Joined({}, r) == r
  {
    if r.Ok? {
      assert {} + r.value == r.value;
    }
  }

  /** `ShaderStages::parse`: the names, then `result |= stage` for each. */
  method ReadShaderStages(ts: seq<Token>) returns (r: Result<ShaderStages>)
    ensures r == ParseShaderStages(ts)
  {
    IdentIsProgressing();
    var names :- ParseTerminated(ts, ParseIdent, '|');
    var result: ShaderStages := {};
    var i := 0;
    assert names[i..] == names;
    JoinedNothing(StagesNamed(names));
    while i < |names|
      invariant 0 <= i <= |names|
      invariant StagesNamed(names) == Joined(result, StagesNamed(names[i..]))
    {
      assert names[i..][1..] == names[i + 1..];
      var stage := StageByName(names[i]);
      if stage.None? {
        return Err("Invalid shader stage");
      }
      ghost var tail := StagesNamed(names[i + 1..]);
      assert StagesNamed(names[i..]) == if tail.Ok? then Ok({stage.value} + tail.value) else tail;
      if tail.Ok? {
        assert result + ({stage.value} + tail.value) == (result + {stage.value}) + tail.value;
      }
      result := result + {stage.value};
      i := i + 1;
    }
    assert result + {} == result;
    return Ok(result);
  }

  /** `parse_shader_stage_attribute`. */
  method ReadStageAttr(ts: seq<Token>) returns (r: Result<Parsed<ShaderStages>>)
    ensures r == ParseStageAttr(ts)
  {
    var afterPound :- ParsePunct(ts, '#');
    var afterBang :- ParsePunct(afterPound, '!');
    var attr :- ParseGroup(afterBang, Bracket);
    var id :- ParseIdent(attr.value);
    if id.value != "stage" {
      return Err("unknown attribute");
    }
    var inside :- ParseGroup(id.rest, Paren);
    var stages :- ReadShaderStages(inside.value);
    var done :- EndOfGroup(Parsed(stages, inside.rest));
    return Ok(Parsed(done, attr.rest));
  }

  /** `Binding::parse`, with its attribute loop over `binding` and `layout`. */
  method ReadBinding(ts: seq<Token>) returns (r: Result<Parsed<Binding>>)
    ensures r == ParseBinding(ts)
  {
    var number: u32 := 0;
    var layout: Option<string> := None;
    var rest := ts;
    while PeekPunct(rest, '#')
      invariant BindingAttrs(ts, 0, None) == BindingAttrs(rest, number, layout)
      decreases |rest|
    {
      var attr :- ParseGroup(rest[1..], Bracket);
      var id :- ParseIdent(attr.value);
      if id.value == "binding" {
        var afterEq :- ParsePunct(id.rest, '=');
        var literal :- ParseLitU32(afterEq);
        number :- EndOfGroup(literal);
      } else if id.value == "layout" {
        var afterEq :- ParsePunct(id.rest, '=');
        var name :- ParseIdent(afterEq);
        var l :- EndOfGroup(name);
        layout := Some(l);
      } else {
        return Err("unknown attribute");
      }
      rest := attr.rest;
    }
    var name :- if PeekKeyword(rest, "_") then ParseAnyIdent(rest) else ParseIdent(rest);
    var afterColon :- ParsePunct(name.rest, ':');
    var ty :- ParseBindingType(afterColon);
    return Ok(Parsed(Binding(name.value, number, {}, ty.value.0, ty.value.1, layout), ty.rest));
  }

  /** `SetLayout::parse`. */
  method ReadSetLayout(ts: seq<Token>) returns (r: Result<Parsed<SetLayout>>)
    ensures r == ParseSetLayout(ts)
  {
    var afterStruct :- ParseKeyword(ts, "struct");
    var name :- ParseIdent(afterStruct);
    var body :- ParseGroup(name.rest, Brace);
    var bindings :- ReadSetBody(body.value);
    return Ok(Parsed(SetLayout(name.value, 0, bindings), body.rest));
  }

  /** One turn of the body loop of `SetLayout::parse`. */
  method ReadSetTurn(ts: seq<Token>, stages: ShaderStages, cursor: u32) returns (t: Turn<Binding>)
    ensures Progressing(ParseBinding) && t == SetTurn(ParseBinding, ts, stages, cursor)
  {
    BindingIsProgressing();
    if IsStageMarker(ts) {
      var marker := ReadStageAttr(ts);
      match marker
      case Ok(m) => return Next([], m.rest, m.value, cursor);
      case Err(e) => return Stop(Err(e));
      case Panic(e) => return Stop(Panic(e));
    }
    if ts == [] {
      return Stop(Ok([]));
    }
    if stages == {} {
      return Stop(Err("No shader stages specified for this binding"));
    }
    var item := ReadBinding(ts);
    if item.Err? {
      return Stop(Err(item.msg));
    } else if item.Panic? {
      return Stop(Panic(item.msg));
    }
    var parsed := item.value;
    var number := if parsed.value.binding == 0 then cursor else parsed.value.binding;
    var binding := parsed.value.(binding := number, stages := stages);
    if parsed.rest == [] {
      return Stop(Ok([binding]));
    }
    var afterComma := ParsePunct(parsed.rest, ',');
    if afterComma.Err? {
      return Stop(Err(afterComma.msg));
    }
    if number + 1 >= U32_LIMIT {
      return Stop(Panic(OVERFLOW_MSG));
    }
    return Next([binding], afterComma.value, stages, number + 1);
  }

  /** The body loop of `SetLayout::parse`: it keeps the current stage set,
      the binding cursor and the bindings pushed so far. */
  method ReadSetBody(ts: seq<Token>) returns (r: Result<seq<Binding>>)
    ensures Progressing(ParseBinding) && r == SetBody(ParseBinding, ts, {}, 0)
  {
    BindingIsProgressing();
    var stages: ShaderStages := {};
    var cursor: u32 := 0;
    var bindings: seq<Binding> := [];
    var rest := ts;
    PrependNothing(SetBody(ParseBinding, rest, stages, cursor));
    while true
      invariant SetBody(ParseBinding, ts, {}, 0) == Prepend(bindings, SetBody(ParseBinding, rest, stages, cursor))
      decreases |rest|
    {
      var turn := ReadSetTurn(rest, stages, cursor);
      match turn
      case Stop(result) =>
        return Prepend(bindings, result);
      case Next(pushed, after, stages', cursor') =>
        PrependTwice(bindings, pushed, SetBody(ParseBinding, after, stages', cursor'));
        bindings := bindings + pushed;
        rest, stages, cursor := after, stages', cursor';
    }
  }

  /** `PushConstantsLayout::parse`. */
  method ReadPushConstants(ts: seq<Token>) returns (r: Result<Parsed<PushConstantsLayout>>)
    ensures r == ParsePushConstants(ts)
  {
    var afterStruct :- ParseKeyword(ts, "struct");
    var name :- ParseIdent(afterStruct);
    var body :- ParseGroup(name.rest, Brace);
    var fields :- ReadPushBody(body.value);
    return Ok(Parsed(PushConstantsLayout(name.value, fields), body.rest));
  }

  /** The body loop of `PushConstantsLayout::parse`: it keeps the current
      stage set and the fields pushed so far. */
  method ReadPushBody(ts: seq<Token>) returns (r: Result<seq<PushConstantField>>)
    ensures r == PushBody(ts, {})
  {
    var stages: ShaderStages := {};
    var fields: seq<PushConstantField> := [];
    var rest := ts;
    PrependNothing(PushBody(rest, stages));
    while true
      invariant PushBody(ts, {}) == Prepend(fields, PushBody(rest, stages))
      decreases |rest|
    {
      if IsStageMarker(rest) {
        var marker :- ReadStageAttr(rest);
        stages := marker.value;
        rest := marker.rest;
        continue;
      }
      if rest == [] {
        assert fields + [] == fields;
        return Ok(fields);
      }
      if stages == {} {
        return Err("No shader stages specified for this value");
      }
      var item :- ParseField(rest);
      var field := PushConstantField(item.value, stages);
      if item.rest == [] {
        return Ok(fields + [field]);
      }
      var afterComma :- ParsePunct(item.rest, ',');
      PrependTwice(fields, [field], PushBody(afterComma, stages));
      fields := fields + [field];
      rest := afterComma;
    }
  }

  /** `PlayoutModule::parse`.  The source loops forever once an iteration
      consumes no token; the method stops there and reports `Diverges`. */
  method ReadModule(ts: seq<Token>) returns (r: Run<PlayoutModule>)
    ensures r == ParseModule(ts)
  {
    var schema := EmptyModule;
    var currentSetId: u32 := 0;
    var rest := ts;
    while true
      invariant ModuleFrom(ts, 0, EmptyModule) == ModuleFrom(rest, currentSetId, schema)
      decreases |rest|
    {
      if rest == [] {
        return Done(Ok(schema));
      }
      var attr := ItemAttr(rest, currentSetId);
      if attr.Err? {
        return Done(Err(attr.msg));
      } else if attr.Panic? {
        return Done(Panic(attr.msg));
      }
      var after := attr.value.rest;
      var kind := attr.value.value.0;
      currentSetId := attr.value.value.1;
      if after == [] {
        return Done(Ok(schema));
      }
      if !PeekKeyword(after, "struct") {
        if |after| == |rest| {
          return Diverges;
        }
        rest := after;
        continue;
      }
      match kind {
        case SetItem(setId) =>
          var layout := ReadSetLayout(after);
          if !layout.Ok? {
            return Done(if layout.Err? then Err(layout.msg) else Panic(layout.msg));
          }
          schema := schema.(descriptorSets := schema.descriptorSets + [layout.value.value.(setId := setId)]);
          rest := layout.value.rest;
        case PushItem =>
          var push := ReadPushConstants(after);
          if !push.Ok? {
            return Done(if push.Err? then Err(push.msg) else Panic(push.msg));
          }
          schema := schema.(pushConstants := push.value.value);
          rest := push.value.rest;
        case Plain =>
          var data := ParseDataStruct(after);
          if !data.Ok? {
            return Done(if data.Err? then Err(data.msg) else Panic(data.msg));
          }
          schema := schema.(dataStructs := schema.dataStructs[data.value.value.ident := data.value.value]);
          rest := data.value.rest;
      }
    }
  }
}
