/** The last stage of `DescriptorSetWriteUpdate::into_vk` and the batch loop
    of `DescriptorSetWriteArgs::into_vk`: each run becomes a
    `vk::WriteDescriptorSet` whose values are appended to the batch's
    `img_info` or `buffer_info` array, the record pointing at the offset the
    values start at.  The arrays live in a `DescriptorSetWriteCtx` shared by
    all updates of one batch. */
module WriteEmit {
  import opened Outcomes
  import opened Types
  import opened Write
  import opened WriteSort
  import opened WriteCoalesce
  import Vk

  /** `p_image_info: img_info.as_ptr().add(index)` or the buffer variant. */
  datatype InfoPointer = ImageInfo(index: nat) | BufferInfo(index: nat)

  /** The fields of the emitted `vk::WriteDescriptorSet`. */
  datatype WriteRecord<E> = WriteRecord(
    dstSet: E,
    dstBinding: u32,
    dstArrayElement: u32,
    descriptorCount: u32,
    descriptorType: string,
    info: InfoPointer)

  /** The contents of a `DescriptorSetWriteCtx`. */
  datatype Store<E> = Store(imgInfo: seq<E>, bufferInfo: seq<E>, bufferView: seq<E>)

  predicate IsImage(d: DescriptorType)
  {
    d.Sampler? || d.StorageImage? || d.SampledImage?
  }

  predicate IsBuffer(d: DescriptorType)
  {
    d.UniformBuffer? || d.StorageBuffer?
  }

  // ---------------------------------------------------------------------
  // One record
  // ---------------------------------------------------------------------

  /** The record as the source builds it: `dst_binding` is not among the
      fields set, so `..Default::default()` leaves it 0. */
  function RecordAsWritten<E>(run: Run<E>, dst: E, info: InfoPointer): (w: WriteRecord<E>)
    ensures w.dstBinding == 0
  {
    WriteRecord(dst, 0, run.start, Vk.TruncU32(|run.values|), Vk.DescriptorTypeToVk(run.binding.descriptorType), info)
  }

  /** The record with `dst_binding` set to the run's binding number: a
      `VkWriteDescriptorSet` starts at element `dstArrayElement` of binding
      `dstBinding`, so a run of binding `b` must name `b`.  The `Corrected`
      builder below uses this one. */
  function Record<E>(run: Run<E>, dst: E, info: InfoPointer): (w: WriteRecord<E>)
    ensures (w.dstBinding, w.dstArrayElement) == (run.binding.binding, run.start)
    ensures w.descriptorCount == Vk.TruncU32(|run.values|)
    ensures w == RecordAsWritten(run, dst, info).(dstBinding := run.binding.binding)
  {
    WriteRecord(dst, run.binding.binding, run.start, Vk.TruncU32(|run.values|), Vk.DescriptorTypeToVk(run.binding.descriptorType), info)
  }

  /** Which record the emission builds: the source's `RecordAsWritten`, or
      the corrected `Record`.  Everything else about the emission is the
      same for both. */
  datatype Builder = AsWritten | Corrected

  function RecordBy<E>(bd: Builder, run: Run<E>, dst: E, info: InfoPointer): WriteRecord<E>
  {
    if bd.Corrected? then Record(run, dst, info) else RecordAsWritten(run, dst, info)
  }

  /** The emission of one run: image kinds go to `img_info`, buffer kinds to
      `buffer_info`, and an acceleration structure reaches `todo!()`. */
  function EmitRun<E>(bd: Builder, run: Run<E>, dst: E, st: Store<E>): Result<(WriteRecord<E>, Store<E>)>
  {
    var d := run.binding.descriptorType;
    if IsImage(d) then
      Ok((RecordBy(bd, run, dst, ImageInfo(|st.imgInfo|)), st.(imgInfo := st.imgInfo + run.values)))
    else if IsBuffer(d) then
      Ok((RecordBy(bd, run, dst, BufferInfo(|st.bufferInfo|)), st.(bufferInfo := st.bufferInfo + run.values)))
    else Panic(TODO_MSG)
  }

  /** The records and the arrays after the `map` has gone over `runs`. */
  function EmitAfter<E>(bd: Builder, runs: seq<Run<E>>, dst: E, st: Store<E>): Result<(seq<WriteRecord<E>>, Store<E>)>
  {
    if runs == [] then Ok(([], st))
    else
      var prev :- EmitAfter(bd, runs[..|runs| - 1], dst, st);
      var next :- EmitRun(bd, runs[|runs| - 1], dst, prev.1);
      Ok((prev.0 + [next.0], next.1))
  }

  lemma {:induction false} EmitFailureIsFinal<E>(bd: Builder, runs: seq<Run<E>>, i: nat, dst: E, st: Store<E>)
    requires i <= |runs| && EmitAfter(bd, runs[..i], dst, st).IsFailure()
    ensures EmitAfter(bd, runs, dst, st) == EmitAfter(bd, runs[..i], dst, st)
    decreases |runs| - i
  {
    if i < |runs| {
      assert runs[..i + 1][..i] == runs[..i];
      EmitFailureIsFinal(bd, runs, i + 1, dst, st);
    } else {
      assert runs[..i] == runs;
    }
  }

  // ---------------------------------------------------------------------
  // The shared arrays
  // ---------------------------------------------------------------------

  /** `DescriptorSetWriteCtx`: the arrays every update of a batch appends to. */
  class WriteCtx<E> {
    var imgInfo: seq<E>
    var bufferInfo: seq<E>
    var bufferView: seq<E>

    function Contents(): Store<E>
      reads this
    {
      Store(imgInfo, bufferInfo, bufferView)
    }

    /** `DescriptorSetWriteCtx::default()`. */
    constructor ()
      ensures Contents() == Store([], [], [])
    {
      imgInfo := [];
      bufferInfo := [];
      bufferView := [];
    }

    /** The body of the final `map` for one run. */
    method EmitOne(run: Run<E>, dst: E) returns (r: Result<WriteRecord<E>>)
      modifies this
      ensures EmitRun(AsWritten, run, dst, old(Contents())).Ok? ==>
        r == Ok(EmitRun(AsWritten, run, dst, old(Contents())).value.0) && Contents() == EmitRun(AsWritten, run, dst, old(Contents())).value.1
      ensures EmitRun(AsWritten, run, dst, old(Contents())).IsFailure() ==> r == EmitRun(AsWritten, run, dst, old(Contents())).PropagateFailure()
    {
      var d := run.binding.descriptorType;
      if IsImage(d) {
        var index := |imgInfo|;
        imgInfo := imgInfo + run.values;
        return Ok(RecordAsWritten(run, dst, ImageInfo(index)));
      } else if IsBuffer(d) {
        var index := |bufferInfo|;
        bufferInfo := bufferInfo + run.values;
        return Ok(RecordAsWritten(run, dst, BufferInfo(index)));
      }
      return Panic(TODO_MSG);
    }

    /** `DescriptorSetWriteUpdate::into_vk`: find the set, check the writes,
        sort them, coalesce them and emit one record per run.  A failure
        that is an error (not a panic) leaves the arrays as they were. */
    method UpdateIntoVk(u: WriteUpdate<E>, pm: PlayoutModule) returns (r: Result<seq<WriteRecord<E>>>)
      modifies this
      ensures UpdateToVk(AsWritten, u, pm, old(Contents())).Ok? ==>
        r == Ok(UpdateToVk(AsWritten, u, pm, old(Contents())).value.0) && Contents() == UpdateToVk(AsWritten, u, pm, old(Contents())).value.1
      ensures UpdateToVk(AsWritten, u, pm, old(Contents())).IsFailure() ==> r == UpdateToVk(AsWritten, u, pm, old(Contents())).PropagateFailure()
      ensures r.Err? ==> Contents() == old(Contents())
    {
      var found := FindSet(pm.descriptorSets, u.name);
      if found.None? {
        return Err(SET_NOT_FOUND + Join(SetNames(pm.descriptorSets), ", "));
      }
      var checked := CheckWrites(u.fields, found.value.bindings);
      if checked.IsFailure() {
        return checked.PropagateFailure();
      }
      var es := checked.value;
      var a := new Entry<E>[|es|](i requires 0 <= i < |es| => es[i]);
      assert a[..] == es;
      SortEntries(a);
      var coalesced := CoalesceRuns(a[..]);
      if coalesced.IsFailure() {
        return coalesced.PropagateFailure();
      }
      var runs := coalesced.value;
      r := EmitAll(runs, u.dst);
    }

    /** The final `map` and `collect`. */
    method EmitAll(runs: seq<Run<E>>, dst: E) returns (r: Result<seq<WriteRecord<E>>>)
      modifies this
      ensures EmitAfter(AsWritten, runs, dst, old(Contents())).Ok? ==>
        r == Ok(EmitAfter(AsWritten, runs, dst, old(Contents())).value.0) && Contents() == EmitAfter(AsWritten, runs, dst, old(Contents())).value.1
      ensures EmitAfter(AsWritten, runs, dst, old(Contents())).IsFailure() ==> r == EmitAfter(AsWritten, runs, dst, old(Contents())).PropagateFailure()
      ensures !r.Err?
    {
      ghost var st0 := Contents();
      var records: seq<WriteRecord<E>> := [];
      for i := 0 to |runs|
        invariant EmitAfter(AsWritten, runs[..i], dst, st0) == Ok((records, Contents()))
      {
        assert runs[..i + 1][..i] == runs[..i];
        var one := EmitOne(runs[i], dst);
        if one.IsFailure() {
          EmitFailureIsFinal(AsWritten, runs, i + 1, dst, st0);
          return one.PropagateFailure();
        }
        records := records + [one.value];
      }
      assert runs[..|runs|] == runs;
      EmitNeverErrs(AsWritten, runs, dst, st0);
      return Ok(records);
    }
  }

  /** `DescriptorSetWriteUpdate::into_vk` as a function of the arrays before. */
  function UpdateToVk<E>(bd: Builder, u: WriteUpdate<E>, pm: PlayoutModule, st: Store<E>): Result<(seq<WriteRecord<E>>, Store<E>)>
  {
    var found := FindSet(pm.descriptorSets, u.name);
    if found.None? then Err(SET_NOT_FOUND + Join(SetNames(pm.descriptorSets), ", "))
    else
      var es :- CheckedFields(u.fields, found.value.bindings);
      var runs :- Coalesce(SortByKey(es));
      EmitAfter(bd, runs, u.dst, st)
  }

  // ---------------------------------------------------------------------
  // The batch
  // ---------------------------------------------------------------------

  /** `updates.iter().map(|a| a.fields.len()).sum()`. */
  function TotalFields<E>(us: seq<WriteUpdate<E>>): nat
  {
    if us == [] then 0 else TotalFields(us[..|us| - 1]) + |us[|us| - 1].fields|
  }

  /** The records of the updates so far and the shared arrays. */
  function UpdatesAfter<E>(bd: Builder, us: seq<WriteUpdate<E>>, pm: PlayoutModule): Result<(seq<WriteRecord<E>>, Store<E>)>
  {
    if us == [] then Ok(([], Store([], [], [])))
    else
      var prev :- UpdatesAfter(bd, us[..|us| - 1], pm);
      var next :- UpdateToVk(bd, us[|us| - 1], pm, prev.1);
      Ok((prev.0 + next.0, next.1))
  }

  /** `DescriptorSetWriteArgs::into_vk` once the module is loaded: the records
      of all updates in order, and the arrays they point into. */
  function WriteArgsToVk<E>(bd: Builder, us: seq<WriteUpdate<E>>, pm: PlayoutModule): Result<(seq<WriteRecord<E>>, Store<E>)>
  {
    if TotalFields(us) == 0 then Err(EMPTY_BATCH) else UpdatesAfter(bd, us, pm)
  }

  lemma {:induction false} UpdatesFailureIsFinal<E>(bd: Builder, us: seq<WriteUpdate<E>>, i: nat, pm: PlayoutModule)
    requires i <= |us| && UpdatesAfter(bd, us[..i], pm).IsFailure()
    ensures UpdatesAfter(bd, us, pm) == UpdatesAfter(bd, us[..i], pm)
    decreases |us| - i
  {
    if i < |us| {
      assert us[..i + 1][..i] == us[..i];
      UpdatesFailureIsFinal(bd, us, i + 1, pm);
    } else {
      assert us[..i] == us;
    }
  }

  /** One more update of the batch. */
  lemma {:induction false} UpdatesStep<E>(bd: Builder, us: seq<WriteUpdate<E>>, i: nat, pm: PlayoutModule)
    requires i < |us| && UpdatesAfter(bd, us[..i], pm).Ok?
    ensures var prev := UpdatesAfter(bd, us[..i], pm).value;
      var next := UpdateToVk(bd, us[i], pm, prev.1);
      && (next.Ok? ==> UpdatesAfter(bd, us[..i + 1], pm) == Ok((prev.0 + next.value.0, next.value.1)))
      && (next.IsFailure() ==> UpdatesAfter(bd, us[..i + 1], pm) == next.PropagateFailure())
  {
    assert us[..i + 1][..i] == us[..i];
  }

  /** The sum of the updates' field counts. */
  method CountFields<E>(us: seq<WriteUpdate<E>>) returns (total: nat)
    ensures total == TotalFields(us)
  {
    total := 0;
    for i := 0 to |us|
      invariant total == TotalFields(us[..i])
    {
      assert us[..i + 1][..i] == us[..i];
      total := total + |us[i].fields|;
    }
    assert us[..|us|] == us;
  }

  /** The loop of `DescriptorSetWriteArgs::into_vk` over the updates, all
      writing into one `DescriptorSetWriteCtx`. */
  method WriteArgsIntoVk<E>(us: seq<WriteUpdate<E>>, pm: PlayoutModule) returns (r: Result<(seq<WriteRecord<E>>, Store<E>)>)
    ensures r == WriteArgsToVk(AsWritten, us, pm)
  {
    var total := CountFields(us);
    if total == 0 {
      return Err(EMPTY_BATCH);
    }
    var records: seq<WriteRecord<E>> := [];
    var ctx := new WriteCtx<E>();
    for i := 0 to |us|
      invariant UpdatesAfter(AsWritten, us[..i], pm) == Ok((records, ctx.Contents()))
    {
      UpdatesStep(AsWritten, us, i, pm);
      var one := ctx.UpdateIntoVk(us[i], pm);
      if one.IsFailure() {
        UpdatesFailureIsFinal(AsWritten, us, i + 1, pm);
        return one.PropagateFailure();
      }
      records := records + one.value;
    }
    assert us[..|us|] == us;
    return Ok((records, ctx.Contents()));
  }

  // ---------------------------------------------------------------------
  // Properties of the emission
  // ---------------------------------------------------------------------

  /** Whether a descriptor kind is stored in `img_info` (`image`) or in
      `buffer_info` (not `image`). */
  predicate StoredIn(d: DescriptorType, image: bool)
  {
    if image then IsImage(d) else IsBuffer(d)
  }

  /** The values of the runs stored in the array `image` selects, in order. */
  function ArrayValues<E>(runs: seq<Run<E>>, image: bool): seq<E>
  {
    if runs == [] then []
    else ArrayValues(runs[..|runs| - 1], image) + if StoredIn(runs[|runs| - 1].binding.descriptorType, image) then runs[|runs| - 1].values else []
  }

  /** The array `image` selects. */
  function ArrayOf<E>(st: Store<E>, image: bool): seq<E>
  {
    if image then st.imgInfo else st.bufferInfo
  }

  /** Some run is of a kind emission has no array for. */
  predicate HasAccelerationStructure<E>(runs: seq<Run<E>>)
  {
    exists i | 0 <= i < |runs| :: runs[i].binding.descriptorType.AccelerationStructure?
  }

  lemma {:induction false} HasAccelerationStructureSnoc<E>(runs: seq<Run<E>>)
    requires runs != []
    ensures HasAccelerationStructure(runs) <==>
      HasAccelerationStructure(runs[..|runs| - 1]) || runs[|runs| - 1].binding.descriptorType.AccelerationStructure?
  {
    var n := |runs| - 1;
    if HasAccelerationStructure(runs[..n]) {
      var i :| 0 <= i < n && runs[..n][i].binding.descriptorType.AccelerationStructure?;
      assert runs[i] == runs[..n][i];
    }
    if HasAccelerationStructure(runs) {
      var i :| 0 <= i < |runs| && runs[i].binding.descriptorType.AccelerationStructure?;
      if i < n {
        assert runs[..n][i] == runs[i];
      }
    }
  }

  /** Emission panics exactly when a run is an acceleration structure, and
      is never an error. */
  lemma {:induction false} EmitNeverErrs<E>(bd: Builder, runs: seq<Run<E>>, dst: E, st: Store<E>)
    ensures !EmitAfter(bd, runs, dst, st).Err?
    ensures EmitAfter(bd, runs, dst, st).Panic? <==> HasAccelerationStructure(runs)
  {
    if runs != [] {
      var n := |runs| - 1;
      EmitNeverErrs(bd, runs[..n], dst, st);
      HasAccelerationStructureSnoc(runs);
    }
  }

  /** The arrays grow by the runs' values, image kinds in `img_info` and
      buffer kinds in `buffer_info`; `buffer_view` is never written. */
  lemma {:induction false} EmitStore<E>(bd: Builder, runs: seq<Run<E>>, dst: E, st: Store<E>)
    requires EmitAfter(bd, runs, dst, st).Ok?
    ensures var (recs, st') := EmitAfter(bd, runs, dst, st).value;
      && |recs| == |runs|
      && st'.imgInfo == st.imgInfo + ArrayValues(runs, true)
      && st'.bufferInfo == st.bufferInfo + ArrayValues(runs, false)
      && st'.bufferView == st.bufferView
  {
    if runs != [] {
      var n := |runs| - 1;
      EmitStore(bd, runs[..n], dst, st);
      var prev := EmitAfter(bd, runs[..n], dst, st).value;
      var next := EmitRun(bd, runs[n], dst, prev.1).value;
      assert EmitAfter(bd, runs, dst, st).value == (prev.0 + [next.0], next.1);
      var d := runs[n].binding.descriptorType;
      assert ArrayValues(runs, true) == ArrayValues(runs[..n], true) + if IsImage(d) then runs[n].values else [];
      assert ArrayValues(runs, false) == ArrayValues(runs[..n], false) + if IsBuffer(d) then runs[n].values else [];
      if IsImage(d) {
        assert next.1 == prev.1.(imgInfo := prev.1.imgInfo + runs[n].values);
      } else {
        assert next.1 == prev.1.(bufferInfo := prev.1.bufferInfo + runs[n].values);
      }
    }
  }

  /** Where the values of `runs[i]` start: the length of its array once the
      runs before it have been emitted. */
  function PointerFor<E>(runs: seq<Run<E>>, i: nat, st: Store<E>): InfoPointer
    requires i < |runs|
  {
    if IsImage(runs[i].binding.descriptorType) then ImageInfo(|st.imgInfo| + |ArrayValues(runs[..i], true)|)
    else BufferInfo(|st.bufferInfo| + |ArrayValues(runs[..i], false)|)
  }

  ghost predicate RecordsMatch<E>(bd: Builder, recs: seq<WriteRecord<E>>, runs: seq<Run<E>>, dst: E, st: Store<E>)
  {
    |recs| == |runs| && forall i | 0 <= i < |runs| :: recs[i] == RecordBy(bd, runs[i], dst, PointerFor(runs, i, st))
  }

  lemma {:induction false} RecordsMatchSnoc<E>(bd: Builder, recs: seq<WriteRecord<E>>, runs: seq<Run<E>>, dst: E, st: Store<E>, w: WriteRecord<E>)
    requires runs != [] && RecordsMatch(bd, recs, runs[..|runs| - 1], dst, st)
    requires w == RecordBy(bd, runs[|runs| - 1], dst, PointerFor(runs, |runs| - 1, st))
    ensures RecordsMatch(bd, recs + [w], runs, dst, st)
  {
    var n := |runs| - 1;
    forall i | 0 <= i < |runs|
      ensures (recs + [w])[i] == RecordBy(bd, runs[i], dst, PointerFor(runs, i, st))
    {
      if i < n {
        assert runs[..n][..i] == runs[..i];
        assert runs[..n][i] == runs[i];
        assert PointerFor(runs[..n], i, st) == PointerFor(runs, i, st);
      }
    }
  }

  /** Each record starts where its run starts, counts the run's values, and
      points at the length its array had before the run was appended. */
  lemma {:induction false} EmitRecords<E>(bd: Builder, runs: seq<Run<E>>, dst: E, st: Store<E>)
    requires EmitAfter(bd, runs, dst, st).Ok?
    ensures RecordsMatch(bd, EmitAfter(bd, runs, dst, st).value.0, runs, dst, st)
  {
    if runs != [] {
      var n := |runs| - 1;
      EmitRecords(bd, runs[..n], dst, st);
      EmitStore(bd, runs[..n], dst, st);
      var prev := EmitAfter(bd, runs[..n], dst, st).value;
      var next := EmitRun(bd, runs[n], dst, prev.1).value;
      RecordsMatchSnoc(bd, prev.0, runs, dst, st, next.0);
    }
  }

  /** `recs` are `fixed` with every `dstBinding` set to 0. */
  ghost predicate ZeroedBindings<E>(recs: seq<WriteRecord<E>>, fixed: seq<WriteRecord<E>>)
  {
    |recs| == |fixed| && forall i | 0 <= i < |recs| :: recs[i] == fixed[i].(dstBinding := 0)
  }

  /** One run: both builders fail alike and fill the arrays alike. */
  lemma RunBuildersAgree<E>(run: Run<E>, dst: E, st: Store<E>)
    ensures var a := EmitRun(AsWritten, run, dst, st);
      var c := EmitRun(Corrected, run, dst, st);
      && a.Ok? == c.Ok?
      && (!a.Ok? ==> a == c)
      && (a.Ok? ==> a.value.1 == c.value.1 && a.value.0 == c.value.0.(dstBinding := 0))
  {
  }

  lemma ZeroedBindingsSnoc<E>(recs: seq<WriteRecord<E>>, fixed: seq<WriteRecord<E>>, w: WriteRecord<E>, v: WriteRecord<E>)
    requires ZeroedBindings(recs, fixed) && w == v.(dstBinding := 0)
    ensures ZeroedBindings(recs + [w], fixed + [v])
  {
    assert forall i | 0 <= i < |recs| :: (recs + [w])[i] == recs[i] && (fixed + [v])[i] == fixed[i];
  }

  /** The source's emission and the corrected one fail alike and fill the
      arrays alike; their records differ only in `dstBinding`, which the
      source leaves 0. */
  lemma {:induction false} BuildersAgree<E>(runs: seq<Run<E>>, dst: E, st: Store<E>)
    ensures var a := EmitAfter(AsWritten, runs, dst, st);
      var c := EmitAfter(Corrected, runs, dst, st);
      && a.Ok? == c.Ok?
      && (!a.Ok? ==> a == c)
      && (a.Ok? ==> a.value.1 == c.value.1 && ZeroedBindings(a.value.0, c.value.0))
  {
    if runs != [] {
      var n := |runs| - 1;
      BuildersAgree(runs[..n], dst, st);
      var a := EmitAfter(AsWritten, runs[..n], dst, st);
      var c := EmitAfter(Corrected, runs[..n], dst, st);
      if a.Ok? {
        RunBuildersAgree(runs[n], dst, a.value.1);
        var ra := EmitRun(AsWritten, runs[n], dst, a.value.1);
        var rc := EmitRun(Corrected, runs[n], dst, c.value.1);
        if ra.Ok? {
          ZeroedBindingsSnoc(a.value.0, c.value.0, ra.value.0, rc.value.0);
        }
      }
    }
  }
}
