/** The token stream the parser of `src/parser.rs` reads, and the handful of
    `syn` primitives it uses on it (`parse::<Ident>()`, `Token![..]`,
    `bracketed!`/`braced!`/`parenthesized!`, `LitInt::base10_parse::<u32>()`,
    `parse_terminated`, `peek`/`peek2`).

    Lexing is not modelled: a stream is already split into identifiers,
    reserved words (`struct`, `_`, …), single punctuation characters, integer
    literals and delimited groups holding their own token sequences.  A parser
    returns the value it read and the tokens after it. */
module Tokens {
  import opened Outcomes
  import opened Types

  datatype Delim = Paren | Bracket | Brace

  datatype Token =
    | Ident(name: string)       // an identifier that is not a reserved word
    | Keyword(name: string)     // a reserved word, `_` included
    | Punct(ch: char)
    | LitInt(value: nat)        // the literal's base-10 value; a suffix is ignored
    | Group(delim: Delim, body: seq<Token>)

  datatype Parsed<+T> = Parsed(value: T, rest: seq<Token>)

  predicate PeekPunct(ts: seq<Token>, c: char)
  {
    |ts| > 0 && ts[0] == Punct(c)
  }

  /** `peek2`: the token after the next one. */
  predicate Peek2Punct(ts: seq<Token>, c: char)
  {
    |ts| > 1 && ts[1] == Punct(c)
  }

  predicate PeekKeyword(ts: seq<Token>, k: string)
  {
    |ts| > 0 && ts[0] == Keyword(k)
  }

  predicate PeekGroup(ts: seq<Token>, d: Delim)
  {
    |ts| > 0 && ts[0].Group? && ts[0].delim == d
  }

  /** `input.parse::<syn::Ident>()`: a reserved word is not an identifier. */
  function ParseIdent(ts: seq<Token>): (r: Result<Parsed<string>>)
    ensures r.Ok? <==> |ts| > 0 && ts[0].Ident?
    ensures r.Ok? ==> r.value == Parsed(ts[0].name, ts[1..])
    ensures !r.Panic?
  {
    if |ts| > 0 && ts[0].Ident? then Ok(Parsed(ts[0].name, ts[1..]))
    else Err("expected identifier")
  }

  /** `Ident::parse_any`: identifiers and reserved words alike. */
  function ParseAnyIdent(ts: seq<Token>): (r: Result<Parsed<string>>)
    ensures r.Ok? <==> |ts| > 0 && (ts[0].Ident? || ts[0].Keyword?)
    ensures r.Ok? ==> r.value == Parsed(ts[0].name, ts[1..])
    ensures !r.Panic?
  {
    if |ts| > 0 && (ts[0].Ident? || ts[0].Keyword?) then Ok(Parsed(ts[0].name, ts[1..]))
    else Err("expected identifier")
  }

  /** `input.parse::<Token![c]>()`. */
  function ParsePunct(ts: seq<Token>, c: char): (r: Result<seq<Token>>)
    ensures r.Ok? <==> PeekPunct(ts, c)
    ensures r.Ok? ==> r.value == ts[1..]
    ensures !r.Panic?
  {
    if PeekPunct(ts, c) then Ok(ts[1..]) else Err("expected `" + [c] + "`")
  }

  /** `input.parse::<Token![k]>()` for a reserved word. */
  function ParseKeyword(ts: seq<Token>, k: string): (r: Result<seq<Token>>)
    ensures r.Ok? <==> PeekKeyword(ts, k)
    ensures r.Ok? ==> r.value == ts[1..]
    ensures !r.Panic?
  {
    if PeekKeyword(ts, k) then Ok(ts[1..]) else Err("expected `" + k + "`")
  }

  function DelimName(d: Delim): string
  {
    match d
    case Paren => "parentheses"
    case Bracket => "square brackets"
    case Brace => "curly braces"
  }

  /** `bracketed!`, `braced!`, `parenthesized!`: the group's content and the tokens after it. */
  function ParseGroup(ts: seq<Token>, d: Delim): (r: Result<Parsed<seq<Token>>>)
    ensures r.Ok? <==> PeekGroup(ts, d)
    ensures r.Ok? ==> r.value == Parsed(ts[0].body, ts[1..])
    ensures !r.Panic?
  {
    if PeekGroup(ts, d) then Ok(Parsed(ts[0].body, ts[1..])) else Err("expected " + DelimName(d))
  }

  /** `content.parse::<LitInt>()?.base10_parse::<u32>()`. */
  function ParseLitU32(ts: seq<Token>): (r: Result<Parsed<u32>>)
    ensures r.Ok? <==> |ts| > 0 && ts[0].LitInt? && ts[0].value < U32_LIMIT
    ensures r.Ok? ==> r.value == Parsed(ts[0].value, ts[1..])
    ensures !r.Panic?
  {
    if |ts| == 0 || !ts[0].LitInt? then Err("expected integer literal")
    else if ts[0].value >= U32_LIMIT then Err("number too large to fit in target type")
    else Ok(Parsed(ts[0].value, ts[1..]))
  }

  /** What is left of a group's content must be nothing: syn rejects a group
      with leftover tokens ("unexpected token"). */
  function EndOfGroup<T>(p: Parsed<T>): (r: Result<T>)
    ensures r.Ok? <==> p.rest == []
    ensures r.Ok? ==> r.value == p.value
    ensures !r.Panic?
  {
    if p.rest == [] then Ok(p.value) else Err("unexpected token")
  }

  /** A parser that, when it succeeds, has consumed at least one token. */
  ghost predicate Progressing<T>(item: seq<Token> -> Result<Parsed<T>>)
  {
    forall ts :: item(ts).Ok? ==> |item(ts).value.rest| < |ts|
  }

  /** A parser that fails, if at all, with an error and never aborts. */
  ghost predicate NeverPanics<T>(item: seq<Token> -> Result<Parsed<T>>)
  {
    forall ts :: !item(ts).Panic?
  }

  /** `parse_terminated(item, sep)` on a whole group's content: items
      separated by `sep`, an optional trailing `sep`, nothing else. */
  function ParseTerminated<T>(ts: seq<Token>, item: seq<Token> -> Result<Parsed<T>>, sep: char): (r: Result<seq<T>>)
    requires Progressing(item)
    ensures ts == [] ==> r == Ok([])
    ensures NeverPanics(item) ==> !r.Panic?
    ensures r.Ok? && ts != [] ==> item(ts).Ok? && |r.value| > 0 && r.value[0] == item(ts).value.value
    decreases |ts|
  {
    if ts == [] then Ok([])
    else
      var first :- item(ts);
      if first.rest == [] then Ok([first.value])
      else
        var after :- ParsePunct(first.rest, sep);
        var more :- ParseTerminated(after, item, sep);
        Ok([first.value] + more)
  }

  /** `item (sep item)* sep?` read off one item at a time: `rs[i]` are the
      tokens item `i` is parsed from, the first being all of `ts`; item `i`
      reads `xs[i]` and leaves `sep` followed by `rs[i + 1]`, and the last
      item leaves nothing or a lone trailing `sep`. */
  ghost predicate ItemsAt<T>(ts: seq<Token>, item: seq<Token> -> Result<Parsed<T>>, sep: char, xs: seq<T>, rs: seq<seq<Token>>)
  {
    && |rs| == |xs|
    && (xs == [] <==> ts == [])
    && (xs != [] ==> rs[0] == ts)
    && (forall i | 0 <= i < |xs| :: item(rs[i]).Ok? && item(rs[i]).value.value == xs[i])
    && (forall i | 0 <= i < |xs| - 1 :: item(rs[i]).Ok? && item(rs[i]).value.rest == [Punct(sep)] + rs[i + 1])
    && (xs != [] ==> item(rs[|xs| - 1]).Ok? && LastRest(item(rs[|xs| - 1]).value.rest, sep))
  }

  /** What the last item may leave: nothing, or a trailing separator. */
  predicate LastRest(rest: seq<Token>, sep: char)
  {
    rest == [] || rest == [Punct(sep)]
  }

  /** One item of `ParseTerminated`, then the rest after its separator. */
  lemma TerminatedStep<T>(ts: seq<Token>, item: seq<Token> -> Result<Parsed<T>>, sep: char)
    requires Progressing(item) && ts != []
    ensures var r := ParseTerminated(ts, item, sep);
      && (r.Ok? ==> item(ts).Ok?)
      && (item(ts).Ok? && item(ts).value.rest == [] ==> r == Ok([item(ts).value.value]))
      && (item(ts).Ok? && item(ts).value.rest != [] ==>
            (r.Ok? <==> PeekPunct(item(ts).value.rest, sep) && ParseTerminated(item(ts).value.rest[1..], item, sep).Ok?)
            && (r.Ok? ==> r.value == [item(ts).value.value] + ParseTerminated(item(ts).value.rest[1..], item, sep).value))
  {
  }

  lemma ItemsOne<T>(ts: seq<Token>, item: seq<Token> -> Result<Parsed<T>>, sep: char)
    requires ts != [] && item(ts).Ok? && LastRest(item(ts).value.rest, sep)
    ensures ItemsAt(ts, item, sep, [item(ts).value.value], [ts])
  {
  }

  lemma ItemsCons<T>(ts: seq<Token>, item: seq<Token> -> Result<Parsed<T>>, sep: char, after: seq<Token>, more: seq<T>, rs: seq<seq<Token>>)
    requires ts != [] && item(ts).Ok? && item(ts).value.rest == [Punct(sep)] + after
    requires ItemsAt(after, item, sep, more, rs) && more != []
    ensures ItemsAt(ts, item, sep, [item(ts).value.value] + more, [ts] + rs)
  {
    var xs := [item(ts).value.value] + more;
    var rs2 := [ts] + rs;
    assert forall i | 0 < i < |rs2| :: rs2[i] == rs[i - 1] && xs[i] == more[i - 1];
  }

  /** What `ParseTerminated` accepts has the shape `item (sep item)* sep?`,
      and its result lists the items in order. */
  lemma {:induction false} TerminatedItems<T>(ts: seq<Token>, item: seq<Token> -> Result<Parsed<T>>, sep: char)
    requires Progressing(item)
    ensures ParseTerminated(ts, item, sep).Ok? ==> exists rs :: ItemsAt(ts, item, sep, ParseTerminated(ts, item, sep).value, rs)
    decreases |ts|
  {
    var r := ParseTerminated(ts, item, sep);
    if ts == [] {
      assert ItemsAt(ts, item, sep, r.value, []);
    } else if r.Ok? {
      TerminatedStep(ts, item, sep);
      var first := item(ts).value;
      if first.rest == [] {
        ItemsOne(ts, item, sep);
      } else {
        var after := first.rest[1..];
        assert first.rest == [Punct(sep)] + after;
        TerminatedItems(after, item, sep);
        var more := ParseTerminated(after, item, sep).value;
        var rs' :| ItemsAt(after, item, sep, more, rs');
        if more == [] {
          assert after == [] && r.value == [first.value];
          ItemsOne(ts, item, sep);
        } else {
          ItemsCons(ts, item, sep, after, more, rs');
        }
      }
    }
  }

  /** Conversely, tokens of that shape are accepted, with exactly those
      items. */
  lemma {:induction false} ItemsTerminated<T>(ts: seq<Token>, item: seq<Token> -> Result<Parsed<T>>, sep: char, xs: seq<T>, rs: seq<seq<Token>>)
    requires Progressing(item) && ItemsAt(ts, item, sep, xs, rs)
    ensures ParseTerminated(ts, item, sep) == Ok(xs)
    decreases |xs|
  {
    if xs != [] {
      TerminatedStep(ts, item, sep);
      var first := item(ts).value;
      if |xs| == 1 {
        assert rs[|xs| - 1] == ts;
        assert LastRest(first.rest, sep);
        assert xs == [first.value];
        if first.rest != [] {
          assert first.rest == [Punct(sep)] && first.rest[1..] == [];
          assert ParseTerminated(first.rest[1..], item, sep) == Ok([]);
          assert ParseTerminated(ts, item, sep).value == [first.value] + [] == xs;
        }
      } else {
        var after := rs[1];
        assert first.rest == [Punct(sep)] + after && first.rest[1..] == after;
        assert forall i | 0 <= i < |xs| - 1 :: rs[1..][i] == rs[i + 1];
        ItemsTerminated(after, item, sep, xs[1..], rs[1..]);
        assert PeekPunct(first.rest, sep) && first.value == xs[0];
        assert xs == [xs[0]] + xs[1..];
      }
    }
  }
}
