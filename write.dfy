/** The descriptor-set write batch of `macro/src/write.rs`: an update names a
    set and lists field writes (a binding name, an optional subscript and the
    values to write).  `DescriptorSetWriteUpdate::into_vk` checks the writes
    against the set's bindings, sorts them by binding number and subscript,
    and merges neighbours into `vk::WriteDescriptorSet` records whose values
    go to arrays shared by the whole batch.

    The values and the destination set are Rust expressions that the
    compiler only copies; here they are of an arbitrary type `E`. */
module Write {
  import opened Outcomes
  import opened Types

  // ---------------------------------------------------------------------
  // The batch
  // ---------------------------------------------------------------------

  /** `DescriptorSetWriteField`: `name: value`, `name: [v, ..]`, or
      `name[subscript]: ..`; the subscript is the literal's value. */
  datatype WriteField<E> = WriteField(name: string, subscript: Option<nat>, values: seq<E>)

  /** `DescriptorSetWriteUpdate`: `dst: SetName { fields }`. */
  datatype WriteUpdate<E> = WriteUpdate(dst: E, name: string, fields: seq<WriteField<E>>)

  /** A write that passed the checks: the field, the binding it writes and
      the array element it starts at. */
  datatype Entry<E> = Entry(field: WriteField<E>, binding: Binding, subscript: u32)

  /** The sort key and the element of the seen set. */
  function Key<E>(e: Entry<E>): (u32, u32)
  {
    (e.binding.binding, e.subscript)
  }

  // ---------------------------------------------------------------------
  // Messages
  // ---------------------------------------------------------------------

  function DigitChar(d: nat): char
    requires d < 10
  {
    "0123456789"[d]
  }

  /** `format!("{}", n)` for an unsigned number. */
  function Decimal(n: nat): string
  {
    if n < 10 then [DigitChar(n)] else Decimal(n / 10) + [DigitChar(n % 10)]
  }

  /** `Vec::join`. */
  function Join(parts: seq<string>, sep: string): string
  {
    if parts == [] then ""
    else if |parts| == 1 then parts[0]
    else parts[0] + sep + Join(parts[1..], sep)
  }

  function SetNames(sets: seq<SetLayout>): seq<string>
  {
    seq(|sets|, i requires 0 <= i < |sets| => sets[i].name)
  }

  const SET_NOT_FOUND := "Descriptor set not found in playout file. Available descriptor sets: "
  const BINDING_NOT_FOUND := "Binding not found"
  const SUBSCRIPT_NOT_U32 := "Expects integer literal for subscript"
  const NOT_AN_ARRAY := "Not an array descriptor"
  const EMPTY_BATCH := "Expects at least one update"

  function SubscriptTooLarge(count: u32): string
  {
    "Subscript exceeds descriptor array length " + Decimal(count)
  }

  function WrongLength(count: u32): string
  {
    "Expected array literal of length " + Decimal(count)
  }

  function AlreadyWritten<E>(f: WriteField<E>, subscript: u32): string
  {
    if f.subscript.None? then "Binding " + f.name + " is already written"
    else "Binding " + f.name + "[" + Decimal(subscript) + "] is already written"
  }

  // ---------------------------------------------------------------------
  // Looking up the set and the bindings
  // ---------------------------------------------------------------------

  /** `descriptor_sets.iter().find(..)`: the first set with the name. */
  function FindSet(sets: seq<SetLayout>, name: string): (r: Option<SetLayout>)
    ensures r.Some? ==> r.value in sets && r.value.name == name
    ensures r.None? <==> forall s | s in sets :: s.name != name
  {
    if sets == [] then None
    else if sets[0].name == name then Some(sets[0])
    else FindSet(sets[1..], name)
  }

  /** The first set with the name comes before every other set with it. */
  lemma {:induction false} FindSetFirst(sets: seq<SetLayout>, name: string, i: nat)
    requires i < |sets| && sets[i].name == name
    ensures FindSet(sets, name).Some?
    ensures exists k | 0 <= k <= i :: FindSet(sets, name) == Some(sets[k]) && forall j | 0 <= j < k :: sets[j].name != name
  {
    if sets[0].name != name {
      FindSetFirst(sets[1..], name, i - 1);
      var k :| 0 <= k <= i - 1 && FindSet(sets[1..], name) == Some(sets[1..][k]) && forall j | 0 <= j < k :: sets[1..][j].name != name;
      assert FindSet(sets, name) == Some(sets[k + 1]);
    } else {
      assert FindSet(sets, name) == Some(sets[0]);
    }
  }

  /** The bindings collected into a `BTreeMap` by name: a later binding with
      the same name replaces an earlier one. */
  function BindingNamed(bindings: seq<Binding>, name: string): (r: Option<Binding>)
    ensures r.Some? ==> r.value in bindings && r.value.ident == name
    ensures r.None? <==> forall b | b in bindings :: b.ident != name
  {
    if bindings == [] then None
    else if bindings[|bindings| - 1].ident == name then Some(bindings[|bindings| - 1])
    else BindingNamed(bindings[..|bindings| - 1], name)
  }

  /** A binding that no later binding shares its name with is the one its
      name finds: the last binding of a name wins. */
  lemma {:induction false} LastBindingWins(bindings: seq<Binding>, i: nat)
    requires i < |bindings|
    requires forall j | i < j < |bindings| :: bindings[j].ident != bindings[i].ident
    ensures BindingNamed(bindings, bindings[i].ident) == Some(bindings[i])
  {
    var n := |bindings| - 1;
    if i < n {
      var init := bindings[..n];
      LastBindingWins(init, i);
    }
  }

  // ---------------------------------------------------------------------
  // Checking the writes
  // ---------------------------------------------------------------------

  /** The elements `(b, 0) .. (b, count - 1)` a whole-binding write marks. */
  function WholeKeys(b: Binding): set<(u32, u32)>
  {
    set i: u32 | i < b.descriptorCount :: (b.binding, i)
  }

  /** The array element a write starts at: its subscript, or 0. */
  function StartOf<E>(f: WriteField<E>): nat
  {
    if f.subscript.Some? then f.subscript.value else 0
  }

  /** What the checks demand of a write to binding `b`: a subscript names an
      element of an array binding, a whole write gives one value per element. */
  predicate Admissible<E>(f: WriteField<E>, b: Binding)
  {
    if f.subscript.Some? then f.subscript.value < b.descriptorCount && b.descriptorCount != 1
    else |f.values| == b.descriptorCount
  }

  /** An entry as the checks let it through. */
  predicate ValidEntry<E>(e: Entry<E>)
  {
    Admissible(e.field, e.binding) && e.subscript == StartOf(e.field)
  }

  /** The elements of the seen set a write marks. */
  function Marks<E>(e: Entry<E>): set<(u32, u32)>
  {
    if e.field.subscript.Some? then {Key(e), (e.binding.binding, 0)} else WholeKeys(e.binding)
  }

  /** One iteration of the loop over the fields: the checks in the source's
      order, then the seen set with the elements this write marks.  The write
      passes exactly when its binding exists, it is admissible and its first
      element has not been marked; it never panics. */
  function CheckField<E>(f: WriteField<E>, bindings: seq<Binding>, seen: set<(u32, u32)>): (r: Result<(Entry<E>, set<(u32, u32)>)>)
    ensures !r.Panic?
    ensures r.Ok? ==>
      var e := r.value.0;
      e.field == f && BindingNamed(bindings, f.name) == Some(e.binding) && ValidEntry(e)
      && Key(e) !in seen && (Key(e) in Marks(e) <==> e.binding.descriptorCount > 0)
      && r.value.1 == seen + Marks(e)
    ensures r.Err? ==>
      BindingNamed(bindings, f.name).None?
      || !Admissible(f, BindingNamed(bindings, f.name).value)
      || (BindingNamed(bindings, f.name).value.binding, StartOf(f)) in seen
  {
    var found := BindingNamed(bindings, f.name);
    if found.None? then Err(BINDING_NOT_FOUND)
    else
      var b := found.value;
      var sub :-
        if f.subscript.Some? then
          if f.subscript.value >= U32_LIMIT then Err(SUBSCRIPT_NOT_U32)
          else if f.subscript.value >= b.descriptorCount then Err(SubscriptTooLarge(b.descriptorCount))
          else if b.descriptorCount == 1 then Err(NOT_AN_ARRAY)
          else Ok(f.subscript.value as u32)
        else if |f.values| != b.descriptorCount then Err(WrongLength(b.descriptorCount))
        else Ok(0 as u32);
      if (b.binding, sub) in seen then Err(AlreadyWritten(f, sub))
      else
        var marked := if f.subscript.Some? then {(b.binding, sub), (b.binding, 0)} else WholeKeys(b);
        assert b.descriptorCount > 0 ==> (b.binding, 0 as u32) in WholeKeys(b);
        Ok((Entry(f, b, sub), seen + marked))
  }

  /** The entries and the seen set after the loop has gone over `fields`. */
  function CheckedAfter<E>(fields: seq<WriteField<E>>, bindings: seq<Binding>): Result<(seq<Entry<E>>, set<(u32, u32)>)>
  {
    if fields == [] then Ok(([], {}))
    else
      var state :- CheckedAfter(fields[..|fields| - 1], bindings);
      var next :- CheckField(fields[|fields| - 1], bindings, state.1);
      Ok((state.0 + [next.0], next.1))
  }

  function CheckedFields<E>(fields: seq<WriteField<E>>, bindings: seq<Binding>): Result<seq<Entry<E>>>
  {
    var state :- CheckedAfter(fields, bindings);
    Ok(state.0)
  }

  lemma {:induction false} CheckFailureIsFinal<E>(fields: seq<WriteField<E>>, i: nat, bindings: seq<Binding>)
    requires i <= |fields| && CheckedAfter(fields[..i], bindings).IsFailure()
    ensures CheckedAfter(fields, bindings) == CheckedAfter(fields[..i], bindings)
    decreases |fields| - i
  {
    if i < |fields| {
      assert fields[..i + 1][..i] == fields[..i];
      CheckFailureIsFinal(fields, i + 1, bindings);
    } else {
      assert fields[..i] == fields;
    }
  }

  /** What the validation loop guarantees about the entries it collects:
      one per field, in order, each admissible for the binding its name finds,
      and no entry repeats the key of an earlier entry that marked it. */
  lemma {:induction false} CheckedAfterFacts<E>(fields: seq<WriteField<E>>, bindings: seq<Binding>)
    ensures !CheckedAfter(fields, bindings).Panic?
    ensures CheckedAfter(fields, bindings).Ok? ==>
      var (es, seen) := CheckedAfter(fields, bindings).value;
      |es| == |fields|
      && (forall i | 0 <= i < |es| ::
            es[i].field == fields[i] && BindingNamed(bindings, fields[i].name) == Some(es[i].binding)
            && ValidEntry(es[i]) && (es[i].binding.descriptorCount > 0 ==> Key(es[i]) in seen))
      && (forall i, j | 0 <= i < j < |es| && es[i].binding.descriptorCount > 0 :: Key(es[i]) != Key(es[j]))
  {
    if fields != [] {
      CheckedAfterFacts(fields[..|fields| - 1], bindings);
    }
  }

  /** Two writes go through the loop body twice, the second with the seen
      set the first left. */
  lemma CheckedTwo<E>(f1: WriteField<E>, f2: WriteField<E>, bindings: seq<Binding>)
    ensures CheckField(f1, bindings, {}).IsFailure() ==>
      CheckedFields([f1, f2], bindings) == CheckField(f1, bindings, {}).PropagateFailure()
    ensures CheckField(f1, bindings, {}).Ok? ==>
      var c2 := CheckField(f2, bindings, CheckField(f1, bindings, {}).value.1);
      (c2.IsFailure() ==> CheckedFields([f1, f2], bindings) == c2.PropagateFailure())
      && (c2.Ok? ==> CheckedFields([f1, f2], bindings).Ok?)
  {
    var fs := [f1, f2];
    assert fs[..1] == [f1] && fs[1] == f2;
    assert [f1][..0] == [];
    assert CheckedAfter([f1][..0], bindings) == Ok(([], {}));
    var c1 := CheckField(f1, bindings, {});
    if c1.Ok? {
      assert CheckedAfter([f1], bindings) == Ok(([] + [c1.value.0], c1.value.1));
      var c2 := CheckField(f2, bindings, c1.value.1);
      if c2.Ok? {
        assert CheckedAfter(fs, bindings) == Ok(([] + [c1.value.0] + [c2.value.0], c2.value.1));
      } else {
        assert CheckedAfter(fs, bindings) == c2.PropagateFailure();
      }
    } else {
      assert CheckedAfter([f1], bindings) == c1.PropagateFailure();
      assert CheckedAfter(fs, bindings) == c1.PropagateFailure();
    }
  }

  /** A binding written whole (with at least one element) cannot be written
      again, neither whole nor at a subscript. */
  lemma WholeThenAnyFails<E>(f1: WriteField<E>, f2: WriteField<E>, bindings: seq<Binding>)
    requires f1.subscript.None? && f2.name == f1.name
    requires BindingNamed(bindings, f1.name).Some? && BindingNamed(bindings, f1.name).value.descriptorCount > 0
    ensures CheckedFields([f1, f2], bindings).Err?
  {
    CheckedTwo(f1, f2, bindings);
    var b := BindingNamed(bindings, f1.name).value;
    if Admissible(f2, b) {
      assert (b.binding, StartOf(f2) as u32) in WholeKeys(b);
    }
  }

  /** Any accepted write marks element 0 of its binding, so a later whole
      write of that binding fails. */
  lemma AnyThenWholeFails<E>(f1: WriteField<E>, f2: WriteField<E>, bindings: seq<Binding>)
    requires f2.subscript.None? && f2.name == f1.name
    requires BindingNamed(bindings, f1.name).Some? && BindingNamed(bindings, f1.name).value.descriptorCount > 0
    ensures CheckedFields([f1, f2], bindings).IsFailure()
  {
    CheckedTwo(f1, f2, bindings);
    var b := BindingNamed(bindings, f1.name).value;
    assert (b.binding, 0 as u32) in WholeKeys(b);
  }

  /** A subscripted write followed by a write to element 0 fails ... */
  lemma SubscriptThenZeroFails<E>(f1: WriteField<E>, f2: WriteField<E>, bindings: seq<Binding>)
    requires f1.subscript.Some? && f2.subscript == Some(0) && f2.name == f1.name
    ensures CheckedFields([f1, f2], bindings).Err?
  {
    CheckedTwo(f1, f2, bindings);
  }

  /** ... while the same two writes in the other order both pass. */
  lemma ZeroThenSubscriptPasses<E>(f1: WriteField<E>, f2: WriteField<E>, bindings: seq<Binding>)
    requires f1.subscript == Some(0) && f2.subscript.Some? && f2.subscript.value != 0 && f2.name == f1.name
    requires CheckField(f1, bindings, {}).Ok? && CheckField(f2, bindings, {}).Ok?
    ensures CheckedFields([f1, f2], bindings).Ok?
  {
    CheckedTwo(f1, f2, bindings);
    var b := BindingNamed(bindings, f1.name).value;
    assert CheckField(f1, bindings, {}).value.1 == {(b.binding, 0)};
  }

  /** The subscript checks run in a fixed order: an out-of-range subscript is
      reported before a binding that is not an array, so subscript 0 of a
      single descriptor is "not an array". */
  lemma SubscriptErrorOrder<E>(f: WriteField<E>, bindings: seq<Binding>, seen: set<(u32, u32)>)
    requires f.subscript.Some? && f.subscript.value < U32_LIMIT && BindingNamed(bindings, f.name).Some?
    ensures var b := BindingNamed(bindings, f.name).value;
      && (f.subscript.value >= b.descriptorCount ==> CheckField(f, bindings, seen) == Err(SubscriptTooLarge(b.descriptorCount)))
      && (f.subscript.value < b.descriptorCount == 1 ==> CheckField(f, bindings, seen) == Err(NOT_AN_ARRAY))
  {
  }

  /** A whole write of an empty binding marks nothing, so it may be repeated. */
  lemma EmptyBindingRewritable<E>(f: WriteField<E>, bindings: seq<Binding>)
    requires f.subscript.None? && f.values == []
    requires BindingNamed(bindings, f.name).Some? && BindingNamed(bindings, f.name).value.descriptorCount == 0
    ensures CheckedFields([f, f], bindings).Ok?
  {
    CheckedTwo(f, f, bindings);
    assert WholeKeys(BindingNamed(bindings, f.name).value) == {};
  }

  /** The body of the validation loop for one field: the checks, then the
      elements marked in the seen set; a whole-binding write marks each of
      its elements in an inner loop. */
  method CheckOne<E>(field: WriteField<E>, bindings: seq<Binding>, seen0: set<(u32, u32)>)
      returns (r: Result<(Entry<E>, set<(u32, u32)>)>)
    ensures r == CheckField(field, bindings, seen0)
  {
    var found := BindingNamed(bindings, field.name);
    if found.None? {
      return Err(BINDING_NOT_FOUND);
    }
    var binding := found.value;
    var subscript: u32;
    if field.subscript.Some? {
      if field.subscript.value >= U32_LIMIT {
        return Err(SUBSCRIPT_NOT_U32);
      }
      if field.subscript.value >= binding.descriptorCount {
        return Err(SubscriptTooLarge(binding.descriptorCount));
      }
      if binding.descriptorCount == 1 {
        return Err(NOT_AN_ARRAY);
      }
      subscript := field.subscript.value as u32;
    } else {
      if |field.values| != binding.descriptorCount {
        return Err(WrongLength(binding.descriptorCount));
      }
      subscript := 0;
    }
    if (binding.binding, subscript) in seen0 {
      return Err(AlreadyWritten(field, subscript));
    }
    var seen := seen0;
    if field.subscript.Some? {
      seen := seen + {(binding.binding, subscript)};
      seen := seen + {(binding.binding, 0)};
      assert seen == seen0 + {(binding.binding, subscript), (binding.binding, 0)};
    } else {
      for k: u32 := 0 to binding.descriptorCount
        invariant seen == seen0 + set j: u32 | j < k :: (binding.binding, j)
      {
        seen := seen + {(binding.binding, k)};
      }
      assert seen == seen0 + WholeKeys(binding);
    }
    return Ok((Entry(field, binding, subscript), seen));
  }

  /** The validation loop of `DescriptorSetWriteUpdate::into_vk`: it keeps the
      `bindings_seen` set and the `fields` vector. */
  method CheckWrites<E>(fields: seq<WriteField<E>>, bindings: seq<Binding>) returns (r: Result<seq<Entry<E>>>)
    ensures r == CheckedFields(fields, bindings)
  {
    var entries: seq<Entry<E>> := [];
    var seen: set<(u32, u32)> := {};
    for i := 0 to |fields|
      invariant CheckedAfter(fields[..i], bindings) == Ok((entries, seen))
    {
      assert fields[..i + 1][..i] == fields[..i];
      var checked := CheckOne(fields[i], bindings, seen);
      if checked.IsFailure() {
        CheckFailureIsFinal(fields, i + 1, bindings);
        return checked.PropagateFailure();
      }
      entries := entries + [checked.value.0];
      seen := checked.value.1;
    }
    assert fields[..|fields|] == fields;
    return Ok(entries);
  }
}
