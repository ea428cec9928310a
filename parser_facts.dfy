/** What the schema grammar of `src/parser.rs` guarantees: the binding
    cursor rule, the scoping of stage markers, set-id numbering, the binding
    count, the type forms and generic-argument rule, and the error cases. */
module ParserFacts {
  import opened Outcomes
  import opened Types
  import opened Tokens
  import opened Keywords
  import opened Grammar

  // ---------------------------------------------------------------------
  // Binding numbers
  // ---------------------------------------------------------------------

  /** The cursor rule on its own: a raw number 0 takes the cursor, another
      number is kept, and the next cursor is one past the number given. */
  function Numbered(raw: seq<u32>, cursor: int): (ns: seq<int>)
    ensures |ns| == |raw|
  {
    if raw == [] then []
    else
      var n := if raw[0] == 0 then cursor else raw[0];
      [n] + Numbered(raw[1..], n + 1)
  }

  /** Each number is its raw number when that is not 0, and otherwise one
      past the number before it (the starting cursor for the first). */
  lemma {:induction false} NumberedRule(raw: seq<u32>, cursor: int, i: nat)
    requires i < |raw|
    ensures Numbered(raw, cursor)[i] ==
      if raw[i] != 0 then raw[i] as int
      else if i == 0 then cursor
      else Numbered(raw, cursor)[i - 1] + 1
  {
    if i > 0 {
      var n := if raw[0] == 0 then cursor else raw[0];
      NumberedRule(raw[1..], n + 1, i - 1);
    }
  }

  /** With no explicit numbers the bindings are numbered from the cursor on. */
  lemma {:induction false} NumberedFromCursor(raw: seq<u32>, cursor: int)
    requires forall i | 0 <= i < |raw| :: raw[i] == 0
    ensures forall i | 0 <= i < |raw| :: Numbered(raw, cursor)[i] == cursor + i
  {
    if raw != [] {
      NumberedFromCursor(raw[1..], cursor + 1);
    }
  }

  /** `#[binding=2] a, b, #[binding=2] c` numbers its bindings 2, 3, 2:
      numbers need not be distinct. */
  lemma NumberedRepeats()
    ensures Numbered([2, 0, 2], 0) == [2, 3, 2]
  {
  }

  /** The numbers the item parser read, turn by turn, before the cursor rule. */
  ghost function RawNumbers(item: seq<Token> -> Result<Parsed<Binding>>, ts: seq<Token>, stages: ShaderStages, cursor: u32): seq<u32>
    requires Progressing(item)
    decreases |ts|
  {
    match SetTurn(item, ts, stages, cursor)
    case Stop(r) => if r.Ok? && r.value != [] then [item(ts).value.value.binding] else []
    case Next(pushed, rest, stages', cursor') =>
      (if pushed == [] then [] else [item(ts).value.value.binding]) + RawNumbers(item, rest, stages', cursor')
  }

  function BindingNumbers(bs: seq<Binding>): (ns: seq<int>)
    ensures |ns| == |bs| && forall i | 0 <= i < |bs| :: ns[i] == bs[i].binding
  {
    if bs == [] then [] else [bs[0].binding as int] + BindingNumbers(bs[1..])
  }

  /** What one turn of a set body pushes: nothing at a stage marker, which
      keeps the cursor; otherwise the binding read, numbered by the cursor
      rule and given the current stage set, and the cursor one past it. */
  lemma SetTurnPushes(item: seq<Token> -> Result<Parsed<Binding>>, ts: seq<Token>, stages: ShaderStages, cursor: u32)
    requires Progressing(item)
    ensures var t := SetTurn(item, ts, stages, cursor);
      var pushed := if t.Next? then t.pushed else if t.result.Ok? then t.result.value else [];
      |pushed| <= 1 &&
      (t.Next? && pushed == [] ==> t.cursor == cursor) &&
      (pushed != [] ==>
        item(ts).Ok? && stages != {} &&
        var raw := item(ts).value.value;
        var n := if raw.binding == 0 then cursor else raw.binding;
        pushed == [raw.(binding := n, stages := stages)] && (t.Next? ==> t.cursor == n + 1))
  {
  }

  /** A set body numbers its bindings by the cursor rule, from the cursor it
      starts with, over the numbers written in their attributes. */
  lemma {:induction false} SetBodyNumbering(item: seq<Token> -> Result<Parsed<Binding>>, ts: seq<Token>, stages: ShaderStages, cursor: u32)
    requires Progressing(item) && SetBody(item, ts, stages, cursor).Ok?
    ensures BindingNumbers(SetBody(item, ts, stages, cursor).value) == Numbered(RawNumbers(item, ts, stages, cursor), cursor)
    decreases |ts|
  {
    SetTurnPushes(item, ts, stages, cursor);
    var t := SetTurn(item, ts, stages, cursor);
    if t.Next? {
      SetBodyNumbering(item, t.rest, t.stages, t.cursor);
      NumberingTurn(item, ts, stages, cursor);
    } else if t.result.value != [] {
      var raw := item(ts).value.value.binding;
      assert RawNumbers(item, ts, stages, cursor) == [raw];
      assert [raw][1..] == [];
    }
  }

  /** The numbering of a turn that goes on, given that of the turns after it. */
  lemma NumberingTurn(item: seq<Token> -> Result<Parsed<Binding>>, ts: seq<Token>, stages: ShaderStages, cursor: u32)
    requires Progressing(item) && SetBody(item, ts, stages, cursor).Ok?
    requires SetTurn(item, ts, stages, cursor).Next?
    requires var t := SetTurn(item, ts, stages, cursor);
      BindingNumbers(SetBody(item, t.rest, t.stages, t.cursor).value) == Numbered(RawNumbers(item, t.rest, t.stages, t.cursor), t.cursor)
    ensures BindingNumbers(SetBody(item, ts, stages, cursor).value) == Numbered(RawNumbers(item, ts, stages, cursor), cursor)
  {
    SetTurnPushes(item, ts, stages, cursor);
    var t := SetTurn(item, ts, stages, cursor);
    var more := SetBody(item, t.rest, t.stages, t.cursor).value;
    var raws := RawNumbers(item, t.rest, t.stages, t.cursor);
    if t.pushed != [] {
      var raw := item(ts).value.value.binding;
      assert SetBody(item, ts, stages, cursor).value == t.pushed + more;
      assert (t.pushed + more)[1..] == more;
      assert RawNumbers(item, ts, stages, cursor) == [raw] + raws;
      assert ([raw] + raws)[1..] == raws;
    } else {
      assert SetBody(item, ts, stages, cursor).value == t.pushed + more == more;
      assert RawNumbers(item, ts, stages, cursor) == raws;
    }
  }

  /** Every binding of a set body carries the stage set of the marker in
      force, which is never empty: a binding before any marker, or after an
      empty `#![stage()]`, is an error. */
  lemma {:induction false} SetBodyStages(item: seq<Token> -> Result<Parsed<Binding>>, ts: seq<Token>, stages: ShaderStages, cursor: u32)
    requires Progressing(item) && SetBody(item, ts, stages, cursor).Ok?
    ensures forall b | b in SetBody(item, ts, stages, cursor).value :: b.stages != {}
    decreases |ts|
  {
    match SetTurn(item, ts, stages, cursor)
    case Stop(r) =>
    case Next(pushed, rest, stages', cursor') =>
      SetBodyStages(item, rest, stages', cursor');
  }

  /** A binding before any stage marker is an error. */
  lemma SetBodyNeedsStages(item: seq<Token> -> Result<Parsed<Binding>>, ts: seq<Token>, cursor: u32)
    requires Progressing(item) && ts != [] && !IsStageMarker(ts)
    ensures SetBody(item, ts, {}, cursor) == Err("No shader stages specified for this binding")
  {
  }

  /** A stage marker replaces the stage set in force, whatever it was. */
  lemma SetBodyMarker(item: seq<Token> -> Result<Parsed<Binding>>, ts: seq<Token>, stages: ShaderStages, cursor: u32)
    requires Progressing(item) && ParseStageAttr(ts).Ok?
    ensures SetBody(item, ts, stages, cursor) == SetBody(item, ts[3..], ParseStageAttr(ts).value.value, cursor)
  {
    PrependNothing(SetBody(item, ts[3..], ParseStageAttr(ts).value.value, cursor));
  }

  /** Every push-constant field carries a non-empty stage set. */
  lemma {:induction false} PushBodyStages(ts: seq<Token>, stages: ShaderStages)
    requires PushBody(ts, stages).Ok?
    ensures forall f | f in PushBody(ts, stages).value :: f.stages != {}
    decreases |ts|
  {
    if IsStageMarker(ts) {
      var marker := ParseStageAttr(ts).value;
      PushBodyStages(marker.rest, marker.value);
    } else if ts != [] {
      var item := ParseField(ts).value;
      if item.rest != [] {
        PushBodyStages(item.rest[1..], stages);
      }
    }
  }

  /** A push-constant field before any stage marker is an error. */
  lemma PushBodyNeedsStages(ts: seq<Token>)
    requires ts != [] && !IsStageMarker(ts)
    ensures PushBody(ts, {}) == Err("No shader stages specified for this value")
  {
  }

  /** A stage marker replaces the stage set of the push-constant fields after it. */
  lemma PushBodyMarker(ts: seq<Token>, stages: ShaderStages)
    requires ParseStageAttr(ts).Ok?
    ensures PushBody(ts, stages) == PushBody(ts[3..], ParseStageAttr(ts).value.value)
  {
  }

  // ---------------------------------------------------------------------
  // Stage markers and stage lists
  // ---------------------------------------------------------------------

  /** `#![stage(VERTEX | FRAGMENT)]` is the set of those two stages. */
  lemma StageMarkerExample(rest: seq<Token>)
    ensures ParseStageAttr([Punct('#'), Punct('!'), Group(Bracket, [Ident("stage"), Group(Paren, [Ident("VERTEX"), Punct('|'), Ident("FRAGMENT")])])] + rest)
         == Ok(Parsed({Vertex, Fragment}, rest))
  {
    var names := [Ident("VERTEX"), Punct('|'), Ident("FRAGMENT")];
    IdentIsProgressing();
    assert ParseIdent(names) == Ok(Parsed("VERTEX", names[1..]));
    assert ParsePunct(names[1..], '|') == Ok(names[2..]);
    assert ParseTerminated(names[2..], ParseIdent, '|') == Ok(["FRAGMENT"]);
    assert ParseTerminated(names, ParseIdent, '|') == Ok(["VERTEX"] + ["FRAGMENT"]);
    var list := ["VERTEX", "FRAGMENT"];
    assert list[1..] == ["FRAGMENT"] && ["FRAGMENT"][1..] == [];
    assert StageByName("FRAGMENT") == Some(Fragment) && StageByName("VERTEX") == Some(Vertex);
    assert StagesNamed(["FRAGMENT"]) == Ok({Fragment} + {});
    assert {Fragment} + {} == {Fragment};
    assert list[0] == "VERTEX";
    assert StagesNamed(list[1..]) == Ok({Fragment});
    assert StagesNamed(list) == Ok({Vertex} + {Fragment});
    assert ["VERTEX"] + ["FRAGMENT"] == list;
    assert {Vertex} + {Fragment} == {Vertex, Fragment};
    assert ParseShaderStages(names) == Ok({Vertex, Fragment});
    var inner := [Ident("stage"), Group(Paren, names)];
    var ts := [Punct('#'), Punct('!'), Group(Bracket, inner)] + rest;
    assert ts[1..][1..] == [Group(Bracket, inner)] + rest;
    assert ParseIdent(inner) == Ok(Parsed("stage", inner[1..]));
  }

  /** A stage marker whose attribute is not `stage` is an error. */
  lemma StageMarkerUnknown(name: string, more: seq<Token>, rest: seq<Token>)
    requires name != "stage"
    ensures ParseStageAttr([Punct('#'), Punct('!'), Group(Bracket, [Ident(name)] + more)] + rest) == Err("unknown attribute")
  {
    var ts := [Punct('#'), Punct('!'), Group(Bracket, [Ident(name)] + more)] + rest;
    assert ts[1..][1..] == [Group(Bracket, [Ident(name)] + more)] + rest;
    assert ParseIdent([Ident(name)] + more) == Ok(Parsed(name, more));
  }

  /** A name that is not a stage makes the whole list an error. */
  lemma StageListRejectsUnknown(names: seq<string>, i: nat)
    requires i < |names| && StageByName(names[i]).None?
    ensures StagesNamed(names) == Err("Invalid shader stage")
    decreases i
  {
    if i > 0 {
      StageListRejectsUnknown(names[1..], i - 1);
    }
  }

  // ---------------------------------------------------------------------
  // Module items and set ids
  // ---------------------------------------------------------------------

  /** `#[set]` takes the set counter and moves it one on. */
  lemma ItemAttrSet(counter: u32, rest: seq<Token>)
    requires counter + 1 < U32_LIMIT
    ensures ItemAttr([Punct('#'), Group(Bracket, [Ident("set")])] + rest, counter) == Ok(Parsed((SetItem(counter), counter + 1), rest))
  {
  }

  /** `#[set = N]` takes `N` and sets the counter one past it, whatever it was. */
  lemma ItemAttrSetNumbered(counter: u32, n: u32, rest: seq<Token>)
    requires n + 1 < U32_LIMIT
    ensures ItemAttr([Punct('#'), Group(Bracket, [Ident("set"), Punct('='), LitInt(n)])] + rest, counter) == Ok(Parsed((SetItem(n), n + 1), rest))
  {
  }

  /** `#[push_constants]` leaves the set counter alone. */
  lemma ItemAttrPushConstants(counter: u32, rest: seq<Token>)
    ensures ItemAttr([Punct('#'), Group(Bracket, [Ident("push_constants")])] + rest, counter) == Ok(Parsed((PushItem, counter), rest))
  {
  }

  /** Any other item attribute is an error. */
  lemma ItemAttrUnknown(counter: u32, name: string, more: seq<Token>, rest: seq<Token>)
    requires name != "set" && name != "push_constants"
    ensures ItemAttr([Punct('#'), Group(Bracket, [Ident(name)] + more)] + rest, counter) == Err("unknown attribute")
  {
  }

  /** The module loop makes no progress, and the source loops forever, at a
      token that is neither `#` nor `struct`. */
  lemma ModuleStalls(ts: seq<Token>, counter: u32, m: PlayoutModule)
    requires ts != [] && !PeekPunct(ts, '#') && !PeekKeyword(ts, "struct")
    ensures ModuleFrom(ts, counter, m) == Diverges
  {
  }

  /** A set layout's bindings, and the push constants' fields, all carry a
      non-empty stage set. */
  lemma SetLayoutStages(ts: seq<Token>)
    requires ParseSetLayout(ts).Ok?
    ensures forall b | b in ParseSetLayout(ts).value.value.bindings :: b.stages != {}
  {
    BindingIsProgressing();
    SetBodyStages(ParseBinding, ts[2].body, {}, 0);
  }

  lemma PushConstantsStages(ts: seq<Token>)
    requires ParsePushConstants(ts).Ok?
    ensures forall f | f in ParsePushConstants(ts).value.value.fields :: f.stages != {}
  {
    PushBodyStages(ts[2].body, {});
  }

  /** What the module loop keeps true of the module it fills: every binding
      and push-constant field has a stage, and each data struct is filed
      under its own name. */
  ghost predicate WellFormed(m: PlayoutModule)
  {
    (forall l | l in m.descriptorSets :: forall b | b in l.bindings :: b.stages != {}) &&
    (forall f | f in m.pushConstants.fields :: f.stages != {}) &&
    (forall name | name in m.dataStructs :: m.dataStructs[name].ident == name)
  }

  /** The module loop only adds: the sets it started with stay in front, in
      order, the data struct names stay, and well-formedness is kept. */
  lemma {:induction false} ModuleFromGrows(ts: seq<Token>, counter: u32, m: PlayoutModule)
    requires ModuleFrom(ts, counter, m).Done? && ModuleFrom(ts, counter, m).result.Ok?
    ensures var m' := ModuleFrom(ts, counter, m).result.value;
      m.descriptorSets <= m'.descriptorSets && m.dataStructs.Keys <= m'.dataStructs.Keys &&
      (WellFormed(m) ==> WellFormed(m'))
    decreases |ts|
  {
    if ts != [] {
      var attr := ItemAttr(ts, counter).value;
      var rest := attr.rest;
      var (kind, next) := attr.value;
      if rest != [] {
        if !PeekKeyword(rest, "struct") {
          ModuleFromGrows(rest, next, m);
        } else {
          match kind
          case SetItem(setId) =>
            var p := ParseSetLayout(rest).value;
            var m1 := m.(descriptorSets := m.descriptorSets + [p.value.(setId := setId)]);
            SetLayoutStages(rest);
            ModuleFromGrows(p.rest, next, m1);
          case PushItem =>
            var p := ParsePushConstants(rest).value;
            PushConstantsStages(rest);
            ModuleFromGrows(p.rest, next, m.(pushConstants := p.value));
          case Plain =>
            var p := ParseDataStruct(rest).value;
            ModuleFromGrows(p.rest, next, m.(dataStructs := m.dataStructs[p.value.ident := p.value]));
        }
      }
    }
  }

  /** A parsed module is well formed. */
  lemma ModuleWellFormed(ts: seq<Token>)
    requires ParseModule(ts).Done? && ParseModule(ts).result.Ok?
    ensures WellFormed(ParseModule(ts).result.value)
  {
    ModuleFromGrows(ts, 0, EmptyModule);
  }

  /** `struct Name { body }`. */
  function StructTokens(name: string, body: seq<Token>): seq<Token>
  {
    [Keyword("struct"), Ident(name), Group(Brace, body)]
  }

  /** `#[set] struct Name { body }`, or `#[set = N] struct Name { body }`. */
  function SetItemTokens(explicit: Option<u32>, name: string, body: seq<Token>): seq<Token>
  {
    [Punct('#'), Group(Bracket, if explicit.Some? then [Ident("set"), Punct('='), LitInt(explicit.value)] else [Ident("set")])]
      + StructTokens(name, body)
  }

  /** The attribute of a set item: its id and the counter after it. */
  lemma SetItemAttr(explicit: Option<u32>, name: string, body: seq<Token>, rest: seq<Token>, counter: u32)
    ensures var id: int := if explicit.Some? then explicit.value else counter;
      ItemAttr(SetItemTokens(explicit, name, body) + rest, counter) ==
        if id + 1 >= U32_LIMIT then Panic(OVERFLOW_MSG)
        else Ok(Parsed((SetItem(id), id + 1), StructTokens(name, body) + rest))
  {
    var ts := SetItemTokens(explicit, name, body) + rest;
    assert ts[1..] == [ts[1]] + (StructTokens(name, body) + rest);
  }

  lemma SetStructParse(name: string, body: seq<Token>, rest: seq<Token>)
    requires Progressing(ParseBinding) && SetBody(ParseBinding, body, {}, 0).Ok?
    ensures ParseSetLayout(StructTokens(name, body) + rest) == Ok(Parsed(SetLayout(name, 0, SetBody(ParseBinding, body, {}, 0).value), rest))
  {
    var ts := StructTokens(name, body) + rest;
    assert ts[1..][1..] == [Group(Brace, body)] + rest;
  }

  lemma PushStructParse(name: string, body: seq<Token>, rest: seq<Token>)
    requires PushBody(body, {}).Ok?
    ensures ParsePushConstants(StructTokens(name, body) + rest) == Ok(Parsed(PushConstantsLayout(name, PushBody(body, {}).value), rest))
  {
    var ts := StructTokens(name, body) + rest;
    assert ts[1..][1..] == [Group(Brace, body)] + rest;
  }

  lemma DataStructParse(name: string, body: seq<Token>, rest: seq<Token>)
    requires Progressing(ParseField) && ParseTerminated(body, ParseField, ',').Ok?
    ensures ParseDataStruct(StructTokens(name, body) + rest) == Ok(Parsed(DataStruct(name, ParseTerminated(body, ParseField, ',').value), rest))
  {
    var ts := StructTokens(name, body) + rest;
    assert ts[1..][1..] == [Group(Brace, body)] + rest;
  }

  /** One turn of the module loop over a set item: the set is appended under
      the id the counter rule gives it, `#[set]` taking the counter and
      `#[set = N]` taking `N`; the counter goes on one past the id. */
  lemma SetItemTurn(explicit: Option<u32>, name: string, body: seq<Token>, rest: seq<Token>, counter: u32, m: PlayoutModule)
    requires Progressing(ParseBinding) && SetBody(ParseBinding, body, {}, 0).Ok?
    ensures var id: int := if explicit.Some? then explicit.value else counter;
      ModuleFrom(SetItemTokens(explicit, name, body) + rest, counter, m) ==
        if id + 1 >= U32_LIMIT then Done(Panic(OVERFLOW_MSG))
        else ModuleFrom(rest, id + 1, m.(descriptorSets := m.descriptorSets + [SetLayout(name, id, SetBody(ParseBinding, body, {}, 0).value)]))
  {
    SetItemAttr(explicit, name, body, rest, counter);
    SetStructParse(name, body, rest);
  }

  /** One turn over a `#[push_constants]` item: it replaces the push
      constants the module had, and leaves the set counter alone. */
  lemma PushItemTurn(name: string, body: seq<Token>, rest: seq<Token>, counter: u32, m: PlayoutModule)
    requires PushBody(body, {}).Ok?
    ensures ModuleFrom([Punct('#'), Group(Bracket, [Ident("push_constants")])] + StructTokens(name, body) + rest, counter, m)
         == ModuleFrom(rest, counter, m.(pushConstants := PushConstantsLayout(name, PushBody(body, {}).value)))
  {
    var attr := [Punct('#'), Group(Bracket, [Ident("push_constants")])];
    assert attr + StructTokens(name, body) + rest == attr + (StructTokens(name, body) + rest);
    ItemAttrPushConstants(counter, StructTokens(name, body) + rest);
    PushStructParse(name, body, rest);
  }

  /** One turn over a plain struct: it is filed under its name, replacing
      any struct of that name before it. */
  lemma DataStructTurn(name: string, body: seq<Token>, rest: seq<Token>, counter: u32, m: PlayoutModule)
    requires Progressing(ParseField) && ParseTerminated(body, ParseField, ',').Ok?
    ensures ModuleFrom(StructTokens(name, body) + rest, counter, m)
         == ModuleFrom(rest, counter, m.(dataStructs := m.dataStructs[name := DataStruct(name, ParseTerminated(body, ParseField, ',').value)]))
  {
    DataStructParse(name, body, rest);
  }

  // ---------------------------------------------------------------------
  // Bindings and their types
  // ---------------------------------------------------------------------

  /** A binding attribute other than `binding` and `layout` is an error. */
  lemma BindingAttrUnknown(name: string, more: seq<Token>, rest: seq<Token>, number: u32, layout: Option<string>)
    requires name != "binding" && name != "layout"
    ensures BindingAttrs([Punct('#'), Group(Bracket, [Ident(name)] + more)] + rest, number, layout) == Err("unknown attribute")
  {
  }

  /** `#[binding = N]` sets the number and `#[layout = L]` the layout; a
      later attribute of the same kind overrides an earlier one. */
  lemma BindingAttrSetters(n: u32, l: string, rest: seq<Token>, number: u32, layout: Option<string>)
    ensures BindingAttrs([Punct('#'), Group(Bracket, [Ident("binding"), Punct('='), LitInt(n)])] + rest, number, layout)
         == BindingAttrs(rest, n, layout)
    ensures BindingAttrs([Punct('#'), Group(Bracket, [Ident("layout"), Punct('='), Ident(l)])] + rest, number, layout)
         == BindingAttrs(rest, number, Some(l))
  {
    var ts := [Punct('#'), Group(Bracket, [Ident("binding"), Punct('='), LitInt(n)])] + rest;
    assert ts[1..] == [ts[1]] + rest;
    var us := [Punct('#'), Group(Bracket, [Ident("layout"), Punct('='), Ident(l)])] + rest;
    assert us[1..] == [us[1]] + rest;
  }

  /** `[T; N]` gives the descriptor type `T` and count `N`, and consumes the
      bracket; a bare `T` gives count 1. */
  lemma BindingCount(ts: seq<Token>)
    requires ParseBindingType(ts).Ok?
    ensures var r := ParseBindingType(ts).value;
      if PeekGroup(ts, Bracket) then
        r.rest == ts[1..] &&
        ParseDescriptorType(ts[0].body) == Ok(Parsed(r.value.0, [Punct(';'), LitInt(r.value.1)]))
      else
        r.value.1 == 1 && ParseDescriptorType(ts) == Ok(Parsed(r.value.0, r.rest))
  {
    if PeekGroup(ts, Bracket) {
      var ty := ParseDescriptorType(ts[0].body).value;
      assert ty.rest == [ty.rest[0]] + ty.rest[1..];
      assert ty.rest[1..] == [ty.rest[1]];
      assert ty.rest[1] == LitInt(ty.rest[1].value);
      assert ty.rest == [Punct(';'), LitInt(ty.rest[1].value)];
    }
  }

  /** The converse: a bracket holding a descriptor type, `;` and a `u32`
      literal is a binding type with that count. */
  lemma BindingCountOf(body: seq<Token>, rest: seq<Token>, d: DescriptorType, n: u32)
    requires ParseDescriptorType(body) == Ok(Parsed(d, [Punct(';'), LitInt(n)]))
    ensures ParseBindingType([Group(Bracket, body)] + rest) == Ok(Parsed((d, n), rest))
  {
    var ts := [Group(Bracket, body)] + rest;
    assert [Punct(';'), LitInt(n)][1..] == [LitInt(n)];
    assert ts[1..] == rest;
  }

  /** A name that is not one of the five descriptor keywords is an error;
      in particular no binding is ever a `Sampler`. */
  lemma DescriptorTypeUnknown(name: string, rest: seq<Token>)
    requires name !in {"StorageImage", "SampledImage", "AccelerationStructure", "UniformBuffer", "StorageBuffer"}
    ensures ParseDescriptorType([Ident(name)] + rest) == Err("Invalid descriptor type")
  {
  }

  /** `StorageImage<F>` carries the format named `F`. */
  lemma StorageImageFormat(n: string, f: ImageFormat, rest: seq<Token>)
    requires n == FormatName(f) && f != RGB10A2_UInt
    ensures ParseDescriptorType([Ident("StorageImage"), Punct('<'), Ident(n), Punct('>')] + rest) == Ok(Parsed(StorageImage(f), rest))
  {
    FormatTableComplete(f);
    var ts := [Ident("StorageImage"), Punct('<'), Ident(n), Punct('>')] + rest;
    assert ts[1..][1..] == [Ident(n), Punct('>')] + rest;
    assert ts[1..][1..][1..][1..] == rest;
  }

  /** The primitive type forms written without a generic argument: a
      shorthand, a scalar, or an error. */
  lemma PrimitiveNamed(n: string, rest: seq<Token>)
    requires !PeekPunct(rest, '<')
    ensures ParsePrimitiveType([Ident(n)] + rest) ==
      match ShorthandByName(n)
      case Some(p) => Ok(Parsed(p, rest))
      case None =>
        match ScalarByName(n)
        case Some(s) => Ok(Parsed(Single(s), rest))
        case None => Err("Invalid primitive type")
  {
    assert ([Ident(n)] + rest)[1..] == rest;
  }

  /** `<S>` after an f32 vector shorthand replaces its scalar with `S`. */
  lemma PrimitiveGeneric(n: string, k: nat, s: string, sc: Scalar, rest: seq<Token>)
    requires ShorthandByName(n) == Some(Vec(F32, k)) && ScalarByName(s) == Some(sc)
    ensures ParsePrimitiveType([Ident(n), Punct('<'), Ident(s), Punct('>')] + rest) == Ok(Parsed(Vec(sc, k), rest))
  {
    var ts := [Ident(n), Punct('<'), Ident(s), Punct('>')] + rest;
    assert ts[1..][1..] == [Ident(s), Punct('>')] + rest;
    assert ts[1..][1..][1..][1..] == rest;
  }

  /** `<..>` after a u32 or i32 vector shorthand is an error. */
  lemma PrimitiveGenericOnShorthand(n: string, more: seq<Token>)
    requires ShorthandByName(n).Some? && ShorthandByName(n).value.Vec? && ShorthandByName(n).value.scalar != F32
    ensures ParsePrimitiveType([Ident(n), Punct('<')] + more) == Err("Generic type cannot be used on this shorthand type")
  {
    assert ([Ident(n), Punct('<')] + more)[1..] == [Punct('<')] + more;
  }

  /** `<..>` after a matrix shorthand or a scalar is an error. */
  lemma PrimitiveGenericOnOthers(n: string, more: seq<Token>)
    requires (ShorthandByName(n).Some? && ShorthandByName(n).value.Mat?) || (ShorthandByName(n).None? && ScalarByName(n).Some?)
    ensures ParsePrimitiveType([Ident(n), Punct('<')] + more) == Err("Generic type cannot be used on primitive types")
  {
    assert ([Ident(n), Punct('<')] + more)[1..] == [Punct('<')] + more;
  }

  /** The type forms: a bracket is an array when its element type is
      followed by `; N` and a slice when nothing follows it; otherwise a
      primitive type when one parses, and else a path. */
  lemma TypeForms(ts: seq<Token>)
    ensures var r := ParseType(ts);
      (PeekGroup(ts, Bracket) && r.Ok? ==>
        r.value.rest == ts[1..] &&
        match r.value.value
        case Array(e, n) => ParseType(ts[0].body) == Ok(Parsed(e, [Punct(';'), LitInt(n)]))
        case Slice(e) => ParseType(ts[0].body) == Ok(Parsed(e, []))
        case _ => false) &&
      (!PeekGroup(ts, Bracket) && ParsePrimitiveType(ts).Ok? ==>
        r == Ok(Parsed(Primitive(ParsePrimitiveType(ts).value.value), ParsePrimitiveType(ts).value.rest))) &&
      (!PeekGroup(ts, Bracket) && !ParsePrimitiveType(ts).Ok? ==> r == ParsePath(ts))
  {
    if PeekGroup(ts, Bracket) && ParseType(ts).Ok? {
      var inner := ParseType(ts[0].body).value;
      if PeekPunct(inner.rest, ';') {
        assert inner.rest == [inner.rest[0]] + inner.rest[1..];
        assert inner.rest[1..] == [inner.rest[1]];
        assert inner.rest[1] == LitInt(inner.rest[1].value);
        assert inner.rest == [Punct(';'), LitInt(inner.rest[1].value)];
      }
    }
  }

  /** `UVec3<u32>` is not a type the parser rejects with an error: the
      primitive parse fails, the path parse reads a generic path, and taking
      its single identifier aborts (unless a dangling `::` follows, which
      the path parse rejects first). */
  lemma TypeGenericShorthandAborts(rest: seq<Token>)
    requires !PathGoesOn(rest)
    ensures ParseType([Ident("UVec3"), Punct('<'), Ident("u32"), Punct('>')] + rest) == Panic(UNWRAP_NONE_MSG)
  {
    var ts := [Ident("UVec3"), Punct('<'), Ident("u32"), Punct('>')] + rest;
    PrimitiveGenericOnShorthand("UVec3", ts[2..]);
    assert ts == [Ident("UVec3"), Punct('<')] + ts[2..];
    assert ts[1..] == [Punct('<'), Ident("u32"), Punct('>')] + rest;
    OneArgument("u32", rest);
    assert ParseSegment(ts) == Ok(Parsed(("UVec3", true), rest));
  }
}
