/** The `coalesce` step of `DescriptorSetWriteUpdate::into_vk`: the sorted
    entries become runs `(binding, start, slot, values)` (the tuple's field
    reference is dropped), and each entry is merged into the run before it
    when the two may share one `vk::WriteDescriptorSet`.

    A fresh run's slot is its binding's `descriptor_count`, not the number of
    values, and a run keeps the binding of its first entry after a merge
    across bindings.  The u32 additions panic on overflow. */
module WriteCoalesce {
  import opened Outcomes
  import opened Types
  import opened Write

  /** `(field, binding, subscript, count_in_current_binding, values)`
      without the field. */
  datatype Run<E> = Run(binding: Binding, start: u32, slot: u32, values: seq<E>)

  /** The run an entry opens: the slot is seeded with `descriptor_count`. */
  function Open<E>(e: Entry<E>): Run<E>
  {
    Run(e.binding, e.subscript, e.binding.descriptorCount, e.field.values)
  }

  /** The merge rule as coded, stated as one condition: same descriptor
      variant, same stages, and either the same binding number with `curr`
      starting where the run's slot ends, or the next binding number with
      the run reaching its binding's count and `curr` starting at element 0. */
  predicate Adjacent<E>(prev: Run<E>, curr: Run<E>)
  {
    && SameTypeAs(prev.binding.descriptorType, curr.binding.descriptorType)
    && prev.binding.stages == curr.binding.stages
    && (if prev.binding.binding == curr.binding.binding then prev.start + prev.slot == curr.start
        else (prev.binding.binding + 1 == curr.binding.binding
              && prev.start + prev.slot >= prev.binding.descriptorCount
              && curr.start == 0))
  }

  /** The closure given to `coalesce`: `Ok(Some(run))` merges, `Ok(None)`
      keeps the two apart. */
  function Merge<E>(prev: Run<E>, curr: Run<E>): (r: Result<Option<Run<E>>>)
    ensures r.Panic? ==> r.msg == OVERFLOW_MSG
    ensures !r.Err?
    ensures r == Ok(None) ==> !Adjacent(prev, curr)
    ensures r.Ok? && r.value.Some? ==>
      Adjacent(prev, curr)
      && r.value.value.binding == prev.binding && r.value.value.start == prev.start
      && r.value.value.values == prev.values + curr.values
      && r.value.value.slot == if prev.binding.binding == curr.binding.binding then prev.slot + curr.slot else curr.slot
  {
    if !SameTypeAs(prev.binding.descriptorType, curr.binding.descriptorType) then Ok(None)
    else if prev.binding.stages != curr.binding.stages then Ok(None)
    else if prev.binding.binding == curr.binding.binding then
      if prev.start + prev.slot >= U32_LIMIT then Panic(OVERFLOW_MSG)
      else if prev.start + prev.slot == curr.start then
        if prev.slot + curr.slot >= U32_LIMIT then Panic(OVERFLOW_MSG)
        else Ok(Some(Run(prev.binding, prev.start, prev.slot + curr.slot, prev.values + curr.values)))
      else Ok(None)
    else if prev.binding.binding + 1 >= U32_LIMIT then Panic(OVERFLOW_MSG)
    else if prev.binding.binding + 1 != curr.binding.binding then Ok(None)
    else if prev.start + prev.slot >= U32_LIMIT then Panic(OVERFLOW_MSG)
    else if prev.start + prev.slot < prev.binding.descriptorCount then Ok(None)
    else if curr.start != 0 then Ok(None)
    else Ok(Some(Run(prev.binding, prev.start, curr.slot, prev.values + curr.values)))
  }

  // ---------------------------------------------------------------------
  // The fold
  // ---------------------------------------------------------------------

  /** The closed runs and the run `coalesce` holds back. */
  datatype Fold<E> = Fold(done: seq<Run<E>>, current: Option<Run<E>>)

  function CoalesceStep<E>(st: Fold<E>, e: Entry<E>): Result<Fold<E>>
  {
    if st.current.None? then Ok(Fold(st.done, Some(Open(e))))
    else
      var m :- Merge(st.current.value, Open(e));
      if m.Some? then Ok(Fold(st.done, m)) else Ok(Fold(st.done + [st.current.value], Some(Open(e))))
  }

  function CoalesceAfter<E>(es: seq<Entry<E>>): Result<Fold<E>>
  {
    if es == [] then Ok(Fold([], None))
    else
      var st :- CoalesceAfter(es[..|es| - 1]);
      CoalesceStep(st, es[|es| - 1])
  }

  lemma {:induction false} CoalesceAfterUnfold<E>(es: seq<Entry<E>>)
    requires es != [] && CoalesceAfter(es).Ok?
    ensures CoalesceAfter(es[..|es| - 1]).Ok?
    ensures CoalesceAfter(es) == CoalesceStep(CoalesceAfter(es[..|es| - 1]).value, es[|es| - 1])
  {
  }

  lemma {:induction false} SplitLast<T>(s: seq<T>)
    requires s != []
    ensures s == s[..|s| - 1] + [s[|s| - 1]]
  {
  }

  /** The runs the iterator yields. */
  function Coalesce<E>(es: seq<Entry<E>>): Result<seq<Run<E>>>
  {
    var st :- CoalesceAfter(es);
    Ok(Yielded(st))
  }

  lemma {:induction false} CoalesceFailureIsFinal<E>(es: seq<Entry<E>>, i: nat)
    requires i <= |es| && CoalesceAfter(es[..i]).IsFailure()
    ensures CoalesceAfter(es) == CoalesceAfter(es[..i])
    decreases |es| - i
  {
    if i < |es| {
      assert es[..i + 1][..i] == es[..i];
      CoalesceFailureIsFinal(es, i + 1);
    } else {
      assert es[..i] == es;
    }
  }

  /** The coalescing loop: `coalesce` holds the last run back and yields it
      when the next entry does not merge into it. */
  method CoalesceRuns<E>(es: seq<Entry<E>>) returns (r: Result<seq<Run<E>>>)
    ensures r == Coalesce(es)
  {
    var done: seq<Run<E>> := [];
    var current: Option<Run<E>> := None;
    for i := 0 to |es|
      invariant CoalesceAfter(es[..i]) == Ok(Fold(done, current))
    {
      assert es[..i + 1][..i] == es[..i];
      var next := Open(es[i]);
      if current.None? {
        current := Some(next);
      } else {
        var merged := Merge(current.value, next);
        if merged.IsFailure() {
          CoalesceFailureIsFinal(es, i + 1);
          return merged.PropagateFailure();
        }
        if merged.value.Some? {
          current := merged.value;
        } else {
          done := done + [current.value];
          current := Some(next);
        }
      }
    }
    assert es[..|es|] == es;
    if current.Some? {
      return Ok(done + [current.value]);
    }
    assert done + [] == done;
    return Ok(done);
  }

  // ---------------------------------------------------------------------
  // Which entries each run holds
  // ---------------------------------------------------------------------

  function ValuesOf<E>(es: seq<Entry<E>>): seq<E>
  {
    if es == [] then [] else ValuesOf(es[..|es| - 1]) + es[|es| - 1].field.values
  }

  function Concat<T>(ss: seq<seq<T>>): seq<T>
  {
    if ss == [] then [] else Concat(ss[..|ss| - 1]) + ss[|ss| - 1]
  }

  function RunValues<E>(runs: seq<Run<E>>): seq<seq<E>>
  {
    seq(|runs|, i requires 0 <= i < |runs| => runs[i].values)
  }

  /** A run holds a group of entries: it starts at the first one's binding and
      subscript, carries their values in order, and all of them share its
      descriptor variant and stages. */
  ghost predicate Holds<E>(r: Run<E>, g: seq<Entry<E>>)
  {
    && g != []
    && r.binding == g[0].binding && r.start == g[0].subscript
    && r.values == ValuesOf(g)
    && forall e | e in g :: SameTypeAs(e.binding.descriptorType, r.binding.descriptorType) && e.binding.stages == r.binding.stages
  }

  /** The groups after one more entry: it joins the last group when it
      merged into the held-back run, and starts a group of its own otherwise. */
  ghost function NextGroups<E>(st: Fold<E>, g: seq<seq<Entry<E>>>, e: Entry<E>): seq<seq<Entry<E>>>
    requires CoalesceStep(st, e).Ok?
  {
    if st.current.Some? && g != [] && Merge(st.current.value, Open(e)).value.Some? then
      g[..|g| - 1] + [g[|g| - 1] + [e]]
    else g + [[e]]
  }

  /** The entries of each run so far, grouped by the same merge decisions. */
  ghost function GroupsAfter<E>(es: seq<Entry<E>>): seq<seq<Entry<E>>>
    requires CoalesceAfter(es).Ok?
  {
    if es == [] then []
    else
      var n := |es| - 1;
      NextGroups(CoalesceAfter(es[..n]).value, GroupsAfter(es[..n]), es[n])
  }

  /** Each run holds the group at its position. */
  ghost predicate AllHold<E>(runs: seq<Run<E>>, gs: seq<seq<Entry<E>>>)
  {
    |runs| == |gs| && forall i | 0 <= i < |runs| :: Holds(runs[i], gs[i])
  }

  /** The runs yielded so far, the held-back one last. */
  function Yielded<E>(st: Fold<E>): seq<Run<E>>
  {
    st.done + if st.current.Some? then [st.current.value] else []
  }

  lemma {:induction false} AllHoldSnoc<E>(runs: seq<Run<E>>, gs: seq<seq<Entry<E>>>, r: Run<E>, g: seq<Entry<E>>)
    requires |runs| == |gs|
    ensures AllHold(runs + [r], gs + [g]) <==> AllHold(runs, gs) && Holds(r, g)
  {
    if AllHold(runs + [r], gs + [g]) {
      forall i | 0 <= i < |runs|
        ensures Holds(runs[i], gs[i])
      {
        assert (runs + [r])[i] == runs[i] && (gs + [g])[i] == gs[i];
      }
      assert (runs + [r])[|runs|] == r && (gs + [g])[|runs|] == g;
    }
  }

  lemma {:induction false} ValuesOfSnoc<E>(g: seq<Entry<E>>, e: Entry<E>)
    ensures ValuesOf(g + [e]) == ValuesOf(g) + e.field.values
  {
    assert (g + [e])[..|g|] == g;
  }

  lemma {:induction false} HoldsOpen<E>(e: Entry<E>)
    ensures Holds(Open(e), [e])
  {
    assert [e][..0] == [];
  }

  lemma {:induction false} HoldsMerge<E>(r: Run<E>, g: seq<Entry<E>>, e: Entry<E>, m: Run<E>)
    requires Holds(r, g) && Merge(r, Open(e)) == Ok(Some(m))
    ensures Holds(m, g + [e])
  {
    ValuesOfSnoc(g, e);
  }

  /** A merge extends the last group. */
  lemma {:induction false} FoldHoldsMerged<E>(st: Fold<E>, g: seq<seq<Entry<E>>>, e: Entry<E>, m: Run<E>)
    requires AllHold(Yielded(st), g) && st.current.Some? && Merge(st.current.value, Open(e)) == Ok(Some(m))
    ensures AllHold(Yielded(Fold(st.done, Some(m))), g[..|g| - 1] + [g[|g| - 1] + [e]])
  {
    var k := |g| - 1;
    assert g == g[..k] + [g[k]];
    AllHoldSnoc(st.done, g[..k], st.current.value, g[k]);
    HoldsMerge(st.current.value, g[k], e, m);
    AllHoldSnoc(st.done, g[..k], m, g[k] + [e]);
  }

  lemma {:induction false} ConcatSnoc<T>(gs: seq<seq<T>>, x: seq<T>)
    ensures Concat(gs + [x]) == Concat(gs) + x
  {
    assert (gs + [x])[..|gs|] == gs;
  }

  /** Appending to the last group appends to the concatenation. */
  lemma {:induction false} ConcatExtendLast<T>(gs: seq<seq<T>>, y: T)
    requires gs != []
    ensures Concat(gs[..|gs| - 1] + [gs[|gs| - 1] + [y]]) == Concat(gs) + [y]
  {
    var k := |gs| - 1;
    ConcatSnoc(gs[..k], gs[k] + [y]);
    assert Concat(gs) == Concat(gs[..k]) + gs[k];
    assert Concat(gs[..k]) + (gs[k] + [y]) == (Concat(gs[..k]) + gs[k]) + [y];
  }

  /** An entry that does not merge opens a group of its own. */
  lemma {:induction false} FoldHoldsOpened<E>(st: Fold<E>, g: seq<seq<Entry<E>>>, e: Entry<E>)
    requires AllHold(Yielded(st), g)
    ensures AllHold(Yielded(Fold(Yielded(st), Some(Open(e)))), g + [[e]])
  {
    HoldsOpen(e);
    AllHoldSnoc(Yielded(st), g, Open(e), [e]);
  }

  /** One step of the fold keeps each run holding its group. */
  lemma {:induction false} StepHolds<E>(st: Fold<E>, g: seq<seq<Entry<E>>>, e: Entry<E>)
    requires AllHold(Yielded(st), g) && CoalesceStep(st, e).Ok?
    ensures AllHold(Yielded(CoalesceStep(st, e).value), NextGroups(st, g, e))
    ensures Concat(NextGroups(st, g, e)) == Concat(g) + [e]
    ensures CoalesceStep(st, e).value.current.Some?
  {
    if st.current.Some? && Merge(st.current.value, Open(e)).value.Some? {
      FoldHoldsMerged(st, g, e, Merge(st.current.value, Open(e)).value.value);
      ConcatExtendLast(g, e);
    } else {
      FoldHoldsOpened(st, g, e);
      ConcatSnoc(g, [e]);
      assert st.current.None? ==> Yielded(st) == st.done;
    }
  }

  /** The fold and the grouping agree at every prefix. */
  lemma {:induction false} GroupsAfterHold<E>(es: seq<Entry<E>>)
    requires CoalesceAfter(es).Ok?
    ensures AllHold(Yielded(CoalesceAfter(es).value), GroupsAfter(es))
    ensures Concat(GroupsAfter(es)) == es
    ensures CoalesceAfter(es).value.current.None? <==> es == []
  {
    if es != [] {
      var n := |es| - 1;
      var st := CoalesceAfter(es[..n]).value;
      var g := GroupsAfter(es[..n]);
      GroupsAfterHold(es[..n]);
      CoalesceAfterUnfold(es);
      assert GroupsAfter(es) == NextGroups(st, g, es[n]);
      StepHolds(st, g, es[n]);
      SplitLast(es);
    }
  }

  /** The entries grouped into the runs `Coalesce` yields. */
  ghost function Groups<E>(es: seq<Entry<E>>): seq<seq<Entry<E>>>
    requires Coalesce(es).Ok?
  {
    GroupsAfter(es)
  }

  /** Every run holds a consecutive group of the sorted entries, the groups
      cover the entries in order, and no value is lost or duplicated. */
  lemma {:induction false} CoalesceHolds<E>(es: seq<Entry<E>>)
    requires Coalesce(es).Ok?
    ensures var runs := Coalesce(es).value;
      && |runs| == |Groups(es)|
      && Concat(Groups(es)) == es
      && (forall i | 0 <= i < |runs| :: Holds(runs[i], Groups(es)[i]))
  {
    GroupsAfterHold(es);
  }

  lemma {:induction false} ValuesOfConcat<E>(gs: seq<seq<Entry<E>>>)
    ensures ValuesOf(Concat(gs)) == Concat(seq(|gs|, i requires 0 <= i < |gs| => ValuesOf(gs[i])))
  {
    if gs != [] {
      var n := |gs| - 1;
      ValuesOfConcat(gs[..n]);
      ValuesOfAppend(Concat(gs[..n]), gs[n]);
      var vs := seq(|gs|, i requires 0 <= i < |gs| => ValuesOf(gs[i]));
      assert vs[..n] == seq(n, i requires 0 <= i < n => ValuesOf(gs[..n][i]));
    }
  }

  lemma {:induction false} ValuesOfAppend<E>(a: seq<Entry<E>>, b: seq<Entry<E>>)
    ensures ValuesOf(a + b) == ValuesOf(a) + ValuesOf(b)
  {
    if b != [] {
      var n := |b| - 1;
      ValuesOfAppend(a, b[..n]);
      assert (a + b)[..|a| + n] == a + b[..n];
    } else {
      assert a + b == a;
    }
  }

  /** Coalescing neither drops nor reorders values: the runs' values, in
      order, are the entries' values. */
  lemma {:induction false} ValuesConserved<E>(es: seq<Entry<E>>)
    requires Coalesce(es).Ok?
    ensures Concat(RunValues(Coalesce(es).value)) == ValuesOf(es)
  {
    var runs := Coalesce(es).value;
    var gs := Groups(es);
    CoalesceHolds(es);
    ValuesOfConcat(gs);
    assert RunValues(runs) == seq(|gs|, i requires 0 <= i < |gs| => ValuesOf(gs[i]));
  }

  // ---------------------------------------------------------------------
  // When merges happen
  // ---------------------------------------------------------------------

  /** Two writes to one binding never merge: the fresh run's slot is the
      whole `descriptor_count`, so it ends past every valid subscript. */
  lemma SameBindingNeverMerges<E>(e1: Entry<E>, e2: Entry<E>)
    requires e1.binding == e2.binding && e2.subscript < e2.binding.descriptorCount
    ensures !(Merge(Open(e1), Open(e2)).Ok? && Merge(Open(e1), Open(e2)).value.Some?)
  {
  }

  predicate KeyLt(a: (u32, u32), b: (u32, u32))
  {
    a.0 < b.0 || (a.0 == b.0 && a.1 < b.1)
  }

  /** A run that merged across bindings keeps its first binding, so no later
      entry (with a greater key) can merge into it. */
  lemma CrossMergeEnds<E>(e1: Entry<E>, e2: Entry<E>, e3: Entry<E>, m: Run<E>)
    requires e1.binding.binding != e2.binding.binding
    requires Merge(Open(e1), Open(e2)) == Ok(Some(m))
    requires KeyLt(Key(e2), Key(e3))
    ensures !(Merge(m, Open(e3)).Ok? && Merge(m, Open(e3)).value.Some?)
  {
  }

  // ---------------------------------------------------------------------
  // At most two entries per record
  // ---------------------------------------------------------------------

  predicate InBounds<E>(e: Entry<E>)
  {
    e.subscript < e.binding.descriptorCount
  }

  /** The conditions under which every record covers at most two entries:
      each entry starts inside its binding, keys strictly increase, and a
      binding number names one binding. */
  ghost predicate PairConditions<E>(es: seq<Entry<E>>)
  {
    && (forall i | 0 <= i < |es| :: InBounds(es[i]))
    && (forall i, j | 0 <= i < j < |es| :: KeyLt(Key(es[i]), Key(es[j])))
    && (forall i, j | 0 <= i < |es| && 0 <= j < |es| && es[i].binding.binding == es[j].binding.binding ::
          es[i].binding == es[j].binding)
  }

  lemma {:induction false} PairConditionsPrefix<E>(es: seq<Entry<E>>, n: nat)
    requires n <= |es| && PairConditions(es)
    ensures PairConditions(es[..n])
  {
  }

  /** The held-back run and its group: a single entry's run, or a run that
      merged its first binding with element 0 of the next binding. */
  ghost predicate LastShape<E>(c: Run<E>, g: seq<Entry<E>>)
  {
    || (|g| == 1 && c == Open(g[0]))
    || (|g| == 2 && c.binding == g[0].binding && c.binding.binding + 1 == g[1].binding.binding && g[1].subscript == 0)
  }

  function LastOf<T>(s: seq<T>): T
    requires s != []
  {
    s[|s| - 1]
  }

  /** Every group has at most two entries, and the held-back run has the
      shape of the last group, which ends with `last`. */
  ghost predicate PairState<E>(st: Fold<E>, g: seq<seq<Entry<E>>>, last: Entry<E>)
  {
    && (forall G | G in g :: |G| <= 2)
    && st.current.Some? && g != [] && LastShape(st.current.value, LastOf(g)) && LastOf(LastOf(g)) == last
  }

  lemma {:induction false} PairsStep<E>(st: Fold<E>, g: seq<seq<Entry<E>>>, last: Entry<E>, e: Entry<E>)
    requires CoalesceStep(st, e).Ok? && InBounds(e) && (forall G | G in g :: |G| <= 2)
    requires st.current.Some? ==> PairState(st, g, last) && KeyLt(Key(last), Key(e))
    requires last.binding.binding == e.binding.binding ==> last.binding == e.binding
    ensures PairState(CoalesceStep(st, e).value, NextGroups(st, g, e), e)
  {
    var g' := NextGroups(st, g, e);
    if st.current.Some? && Merge(st.current.value, Open(e)).value.Some? {
      var k := |g| - 1;
      var c := st.current.value;
      if |g[k]| == 1 {
        if c.binding.binding == e.binding.binding {
          SameBindingNeverMerges(g[k][0], e);
          assert false;
        }
      } else {
        assert false;
      }
      assert g' == g[..k] + [g[k] + [e]];
      forall G | G in g'
        ensures |G| <= 2
      {
        if G != g[k] + [e] {
          assert G in g[..k];
        }
      }
    } else {
      assert g' == g + [[e]];
    }
  }

  /** Under `PairConditions` (which hold when binding numbers are unique and
      every written binding is non-empty), each group holds at most two
      entries: two writes to one binding never merge, and a run that merged
      across bindings takes nothing more. */
  lemma {:induction false} AtMostTwoPerRun<E>(es: seq<Entry<E>>)
    requires CoalesceAfter(es).Ok? && PairConditions(es)
    ensures forall G | G in GroupsAfter(es) :: |G| <= 2
  {
    if es != [] {
      PairsAfter(es);
    }
  }

  lemma {:induction false} PairsAfter<E>(es: seq<Entry<E>>)
    requires es != [] && CoalesceAfter(es).Ok? && PairConditions(es)
    ensures PairState(CoalesceAfter(es).value, GroupsAfter(es), es[|es| - 1])
  {
    var n := |es| - 1;
    var st := CoalesceAfter(es[..n]).value;
    var g := GroupsAfter(es[..n]);
    CoalesceAfterUnfold(es);
    PairConditionsPrefix(es, n);
    assert GroupsAfter(es) == NextGroups(st, g, es[n]);
    if n == 0 {
      assert st.current.None? && g == [];
      PairsStep(st, g, es[n], es[n]);
    } else {
      PairsAfter(es[..n]);
      assert es[..n][n - 1] == es[n - 1];
      PairConditionsAdjacent(es, n - 1);
      PairsStep(st, g, es[n - 1], es[n]);
    }
  }

  lemma {:induction false} PairConditionsAdjacent<E>(es: seq<Entry<E>>, i: nat)
    requires i + 1 < |es| && PairConditions(es)
    ensures InBounds(es[i + 1]) && KeyLt(Key(es[i]), Key(es[i + 1]))
    ensures es[i].binding.binding == es[i + 1].binding.binding ==> es[i].binding == es[i + 1].binding
  {
  }
}
