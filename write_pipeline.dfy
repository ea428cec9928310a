/** What `DescriptorSetWriteUpdate::into_vk` and
    `DescriptorSetWriteArgs::into_vk` guarantee end to end: every record
    starts at the first entry of its group of merged writes and points at
    exactly that group's values, no value is lost or duplicated, and the
    arrays only grow across the updates of a batch, so earlier records keep
    pointing at their values. */
module WritePipeline {
  import opened Outcomes
  import opened Types
  import opened Write
  import opened WriteSort
  import opened WriteCoalesce
  import opened WriteEmit
  import Vk

  // ---------------------------------------------------------------------
  // Pointers into the arrays
  // ---------------------------------------------------------------------

  /** The record's pointer and count address exactly `vs` in the arrays. */
  ghost predicate PointsAt<E>(w: WriteRecord<E>, st: Store<E>, vs: seq<E>)
  {
    match w.info
    case ImageInfo(p) => p + |vs| <= |st.imgInfo| && st.imgInfo[p..p + |vs|] == vs
    case BufferInfo(p) => p + |vs| <= |st.bufferInfo| && st.bufferInfo[p..p + |vs|] == vs
  }

  /** The arrays of `st2` extend those of `st1`. */
  ghost predicate Grows<E>(st1: Store<E>, st2: Store<E>)
  {
    st1.imgInfo <= st2.imgInfo && st1.bufferInfo <= st2.bufferInfo && st1.bufferView == st2.bufferView
  }

  /** Appending to the arrays keeps every pointer into them valid. */
  lemma {:induction false} PointsAtExtends<E>(w: WriteRecord<E>, st1: Store<E>, st2: Store<E>, vs: seq<E>)
    requires PointsAt(w, st1, vs) && Grows(st1, st2)
    ensures PointsAt(w, st2, vs)
  {
    match w.info
    case ImageInfo(p) =>
      assert st2.imgInfo[..|st1.imgInfo|] == st1.imgInfo;
      assert st2.imgInfo[p..p + |vs|] == st1.imgInfo[p..p + |vs|];
    case BufferInfo(p) =>
      assert st2.bufferInfo[..|st1.bufferInfo|] == st1.bufferInfo;
      assert st2.bufferInfo[p..p + |vs|] == st1.bufferInfo[p..p + |vs|];
  }

  lemma {:induction false} ArrayValuesPrefix<E>(runs: seq<Run<E>>, k: nat, image: bool)
    requires k <= |runs|
    ensures ArrayValues(runs[..k], image) <= ArrayValues(runs, image)
    decreases |runs|
  {
    if k < |runs| {
      var n := |runs| - 1;
      assert runs[..n][..k] == runs[..k];
      ArrayValuesPrefix(runs[..n], k, image);
    } else {
      assert runs[..k] == runs;
    }
  }

  lemma {:induction false} ArrayValuesNext<E>(runs: seq<Run<E>>, i: nat, image: bool)
    requires i < |runs|
    ensures ArrayValues(runs[..i + 1], image) ==
      ArrayValues(runs[..i], image) + if StoredIn(runs[i].binding.descriptorType, image) then runs[i].values else []
  {
    assert runs[..i + 1][..i] == runs[..i];
  }

  /** The slice of `a + whole` after `a` and `pre` is `vs` when `pre + vs`
      begins `whole`. */
  lemma {:induction false} SliceAfterPrefix<T>(a: seq<T>, whole: seq<T>, pre: seq<T>, vs: seq<T>)
    requires pre + vs <= whole
    ensures |a| + |pre| + |vs| <= |a + whole|
    ensures (a + whole)[|a| + |pre|..|a| + |pre| + |vs|] == vs
  {
    var p := |a| + |pre|;
    forall k | 0 <= k < |vs|
      ensures (a + whole)[p + k] == vs[k]
    {
      assert whole[|pre| + k] == (pre + vs)[|pre| + k];
    }
  }

  /** A record pointing at offset `p` of the array `image` selects, with
      `vs` there, points at `vs`. */
  lemma {:induction false} PointsAtOffset<E>(w: WriteRecord<E>, st: Store<E>, vs: seq<E>, image: bool, p: nat)
    requires w.info == (if image then ImageInfo(p) else BufferInfo(p))
    requires p + |vs| <= |ArrayOf(st, image)| && ArrayOf(st, image)[p..p + |vs|] == vs
    ensures PointsAt(w, st, vs)
  {
  }

  /** Arrays that end with the runs' values hold run `i` where
      `PointerFor` says. */
  lemma {:induction false} RunPointsAt<E>(runs: seq<Run<E>>, i: nat, st: Store<E>, st2: Store<E>, w: WriteRecord<E>)
    requires i < |runs| && !runs[i].binding.descriptorType.AccelerationStructure?
    requires st2.imgInfo == st.imgInfo + ArrayValues(runs, true)
    requires st2.bufferInfo == st.bufferInfo + ArrayValues(runs, false)
    requires w.info == PointerFor(runs, i, st)
    ensures PointsAt(w, st2, runs[i].values)
  {
    var image := IsImage(runs[i].binding.descriptorType);
    assert StoredIn(runs[i].binding.descriptorType, image);
    ArrayValuesNext(runs, i, image);
    ArrayValuesPrefix(runs, i + 1, image);
    var pre := ArrayValues(runs[..i], image);
    var a := ArrayOf(st, image);
    SliceAfterPrefix(a, ArrayValues(runs, image), pre, runs[i].values);
    PointsAtOffset(w, st2, runs[i].values, image, |a| + |pre|);
  }

  /** After emission each record addresses exactly its run's values and
      counts them. */
  lemma {:induction false} EmitPointsAtValues<E>(bd: Builder, runs: seq<Run<E>>, dst: E, st: Store<E>, i: nat)
    requires EmitAfter(bd, runs, dst, st).Ok? && i < |runs|
    ensures var out := EmitAfter(bd, runs, dst, st).value;
      |out.0| == |runs| && PointsAt(out.0[i], out.1, runs[i].values)
      && out.0[i].descriptorCount == Vk.TruncU32(|runs[i].values|)
  {
    EmitRecords(bd, runs, dst, st);
    EmitStore(bd, runs, dst, st);
    EmitNeverErrs(bd, runs, dst, st);
    var out := EmitAfter(bd, runs, dst, st).value;
    assert out.0[i] == RecordBy(bd, runs[i], dst, PointerFor(runs, i, st));
    RunPointsAt(runs, i, st, out.1, out.0[i]);
  }

  // ---------------------------------------------------------------------
  // No value lost or duplicated
  // ---------------------------------------------------------------------

  /** The values of the fields of one update, in order. */
  function FieldValues<E>(fs: seq<WriteField<E>>): seq<E>
  {
    if fs == [] then [] else FieldValues(fs[..|fs| - 1]) + fs[|fs| - 1].values
  }

  lemma {:induction false} EntriesValues<E>(es: seq<Entry<E>>, fs: seq<WriteField<E>>)
    requires |es| == |fs| && forall i | 0 <= i < |es| :: es[i].field == fs[i]
    ensures ValuesOf(es) == FieldValues(fs)
  {
    if es != [] {
      var n := |es| - 1;
      EntriesValues(es[..n], fs[..n]);
    }
  }

  lemma {:induction false} InsertSortedValues<E>(s: seq<Entry<E>>, x: Entry<E>)
    ensures multiset(ValuesOf(InsertSorted(s, x))) == multiset(ValuesOf(s)) + multiset(x.field.values)
  {
    if s == [] || KeyLe(Key(s[|s| - 1]), Key(x)) {
      ValuesOfSnoc(s, x);
    } else {
      var n := |s| - 1;
      InsertSortedValues(s[..n], x);
      ValuesOfSnoc(InsertSorted(s[..n], x), s[n]);
      SplitLast(s);
      ValuesOfSnoc(s[..n], s[n]);
    }
  }

  /** Sorting moves the entries, not their values. */
  lemma {:induction false} SortKeepsValues<E>(es: seq<Entry<E>>)
    ensures multiset(ValuesOf(SortByKey(es))) == multiset(ValuesOf(es))
  {
    if es != [] {
      var n := |es| - 1;
      SortKeepsValues(es[..n]);
      InsertSortedValues(SortByKey(es[..n]), es[n]);
      SplitLast(es);
      ValuesOfSnoc(es[..n], es[n]);
    }
  }

  /** Without acceleration structures every run lands in one of the two
      arrays. */
  lemma {:induction false} ArrayValuesCover<E>(runs: seq<Run<E>>)
    requires forall i | 0 <= i < |runs| :: !runs[i].binding.descriptorType.AccelerationStructure?
    ensures multiset(ArrayValues(runs, true)) + multiset(ArrayValues(runs, false)) == multiset(Concat(RunValues(runs)))
  {
    if runs != [] {
      var n := |runs| - 1;
      ArrayValuesCover(runs[..n]);
      assert RunValues(runs)[..n] == RunValues(runs[..n]);
      assert RunValues(runs)[n] == runs[n].values;
    }
  }

  /** One update appends to the arrays and adds exactly its fields' values
      to them, each value once; `buffer_view` is never written. */
  lemma {:induction false} UpdateKeepsValues<E>(bd: Builder, u: WriteUpdate<E>, pm: PlayoutModule, st: Store<E>)
    requires UpdateToVk(bd, u, pm, st).Ok?
    ensures var st' := UpdateToVk(bd, u, pm, st).value.1;
      && Grows(st, st')
      && multiset(st'.imgInfo) + multiset(st'.bufferInfo) ==
         multiset(st.imgInfo) + multiset(st.bufferInfo) + multiset(FieldValues(u.fields))
  {
    var found := FindSet(pm.descriptorSets, u.name).value;
    CheckedAfterFacts(u.fields, found.bindings);
    var es := CheckedFields(u.fields, found.bindings).value;
    var sorted := SortByKey(es);
    var runs := Coalesce(sorted).value;
    EmitStore(bd, runs, u.dst, st);
    EmitNeverErrs(bd, runs, u.dst, st);
    ArrayValuesCover(runs);
    ValuesConserved(sorted);
    SortKeepsValues(es);
    EntriesValues(es, u.fields);
  }

  // ---------------------------------------------------------------------
  // Records and groups
  // ---------------------------------------------------------------------

  /** Each record of an update stands for one group of merged writes: it
      addresses the set written to, starts at the binding and element of the
      group's first write, has its descriptor type, counts and points at the
      group's values, and every write of the group shares that type variant
      and stage set. */
  lemma {:induction false} UpdateRecords<E>(bd: Builder, u: WriteUpdate<E>, pm: PlayoutModule, st: Store<E>, found: SetLayout, es: seq<Entry<E>>)
    requires FindSet(pm.descriptorSets, u.name) == Some(found)
    requires CheckedFields(u.fields, found.bindings) == Ok(es)
    requires UpdateToVk(bd, u, pm, st).Ok?
    ensures Coalesce(SortByKey(es)).Ok?
    ensures forall i | 0 <= i < |Groups(SortByKey(es))| :: Groups(SortByKey(es))[i] != []
    ensures var (recs, st') := UpdateToVk(bd, u, pm, st).value;
      var gs := Groups(SortByKey(es));
      && Concat(gs) == SortByKey(es)
      && |recs| == |gs|
      && forall i | 0 <= i < |recs| ::
        && recs[i].dstSet == u.dst
        && recs[i].dstArrayElement == Key(gs[i][0]).1
        && recs[i].dstBinding == (if bd.Corrected? then Key(gs[i][0]).0 else 0)
        && recs[i].descriptorType == Vk.DescriptorTypeToVk(gs[i][0].binding.descriptorType)
        && recs[i].descriptorCount == Vk.TruncU32(|ValuesOf(gs[i])|)
        && PointsAt(recs[i], st', ValuesOf(gs[i]))
        && forall e | e in gs[i] ::
             SameTypeAs(e.binding.descriptorType, gs[i][0].binding.descriptorType) && e.binding.stages == gs[i][0].binding.stages
  {
    var sorted := SortByKey(es);
    var runs := Coalesce(sorted).value;
    CoalesceHolds(sorted);
    EmitRecords(bd, runs, u.dst, st);
    var out := EmitAfter(bd, runs, u.dst, st).value;
    forall i | 0 <= i < |runs|
      ensures PointsAt(out.0[i], out.1, runs[i].values)
    {
      EmitPointsAtValues(bd, runs, u.dst, st, i);
    }
  }

  /** The record as the source builds it addresses binding 0 whatever run
      it stands for, so every run of a binding numbered 1 or more is written
      to the wrong binding. */
  lemma AsWrittenMissesBinding<E>(run: Run<E>, dst: E, info: InfoPointer)
    requires run.binding.binding != 0
    ensures RecordAsWritten(run, dst, info).dstBinding != run.binding.binding
    ensures Record(run, dst, info).dstBinding == run.binding.binding
  {
  }

  // ---------------------------------------------------------------------
  // The batch
  // ---------------------------------------------------------------------

  /** The values of all fields of all updates, in order. */
  function BatchValues<E>(us: seq<WriteUpdate<E>>): seq<E>
  {
    if us == [] then [] else BatchValues(us[..|us| - 1]) + FieldValues(us[|us| - 1].fields)
  }

  /** The batch's arrays hold every value written, each once, and
      `buffer_view` stays empty. */
  lemma {:induction false} BatchKeepsValues<E>(bd: Builder, us: seq<WriteUpdate<E>>, pm: PlayoutModule)
    requires UpdatesAfter(bd, us, pm).Ok?
    ensures var st := UpdatesAfter(bd, us, pm).value.1;
      && st.bufferView == []
      && multiset(st.imgInfo) + multiset(st.bufferInfo) == multiset(BatchValues(us))
  {
    if us != [] {
      var n := |us| - 1;
      BatchKeepsValues(bd, us[..n], pm);
      UpdateKeepsValues(bd, us[n], pm, UpdatesAfter(bd, us[..n], pm).value.1);
    }
  }

  /** The updates before `k` leave records that stay a prefix of the
      batch's records, and arrays that the later updates only extend, so
      every pointer they hold stays valid. */
  lemma {:induction false} BatchGrows<E>(bd: Builder, us: seq<WriteUpdate<E>>, pm: PlayoutModule, k: nat)
    requires UpdatesAfter(bd, us, pm).Ok? && k <= |us|
    ensures UpdatesAfter(bd, us[..k], pm).Ok?
    ensures var before := UpdatesAfter(bd, us[..k], pm).value;
      var after := UpdatesAfter(bd, us, pm).value;
      before.0 <= after.0 && Grows(before.1, after.1)
    decreases |us|
  {
    if k < |us| {
      var n := |us| - 1;
      assert us[..n][..k] == us[..k];
      var prev := UpdatesAfter(bd, us[..n], pm);
      assert prev.Ok?;
      var next := UpdateToVk(bd, us[n], pm, prev.value.1);
      assert next.Ok?;
      assert UpdatesAfter(bd, us, pm).value == (prev.value.0 + next.value.0, next.value.1);
      BatchGrows(bd, us[..n], pm, k);
      UpdateKeepsValues(bd, us[n], pm, prev.value.1);
    } else {
      assert us[..k] == us;
    }
  }

  /** A batch in which no update has a field fails as empty, before any set
      is looked up; any other batch is the run of its updates. */
  lemma {:induction false} EmptyBatch<E>(bd: Builder, us: seq<WriteUpdate<E>>, pm: PlayoutModule)
    ensures (forall i | 0 <= i < |us| :: us[i].fields == []) ==> WriteArgsToVk(bd, us, pm) == Err(EMPTY_BATCH)
    ensures (exists i | 0 <= i < |us| :: us[i].fields != []) ==> WriteArgsToVk(bd, us, pm) == UpdatesAfter(bd, us, pm)
  {
    TotalFieldsZero(us);
  }

  lemma {:induction false} TotalFieldsZero<E>(us: seq<WriteUpdate<E>>)
    ensures TotalFields(us) == 0 <==> forall i | 0 <= i < |us| :: us[i].fields == []
  {
    if us != [] {
      var n := |us| - 1;
      TotalFieldsZero(us[..n]);
      assert forall i | 0 <= i < n :: us[..n][i] == us[i];
    }
  }
}
