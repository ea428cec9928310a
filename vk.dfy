/** The Vulkan record builders of `macro/src/vk.rs`: the push-constant range
    loop (`VkPushConstantRange`), the per-binding layout records
    (`VkDescriptorSetLayoutBinding`) and the descriptor-type and stage-flag
    mappings.  The records are values here; the `quote!` text they are
    printed as is not modelled.

    `Type::layout` is not part of this model: the range loop takes the
    layout of each field type as a parameter. */
module Vk {
  import opened Outcomes
  import opened Types
  import opened Tokens
  import opened Grammar
  import opened ParserFacts

  // ---------------------------------------------------------------------
  // Layouts
  // ---------------------------------------------------------------------

  type Align = n: nat | n >= 1 witness 1

  /** A `std::alloc::Layout`: a size and a non-zero alignment. */
  datatype TypeLayout = TypeLayout(size: nat, align: Align)

  /** `Layout::pad_to_align().size()`: the size rounded up to the next
      multiple of the alignment. */
  function PadToAlign(l: TypeLayout): (n: nat)
    ensures n % l.align == 0
    ensures l.size <= n < l.size + l.align
  {
    var r := l.size % l.align;
    if r == 0 then l.size else RoundUp(l.size, l.align, r)
  }

  function RoundUp(size: nat, align: Align, r: nat): (n: nat)
    requires r == size % align && r != 0
    ensures n % align == 0 && size < n < size + align
  {
    var q := size / align;
    assert size == q * align + r;
    assert size + (align - r) == (q + 1) * align;
    MultipleHasNoRemainder(q + 1, align);
    size + (align - r)
  }

  lemma MultipleHasNoRemainder(k: nat, align: Align)
    ensures (k * align) % align == 0
  {
    var q, r := (k * align) / align, (k * align) % align;
    var d := k - q;
    assert d * align == r;
    assert d == 0;
  }

  /** `size as u32` on a 64-bit `usize`: the low 32 bits. */
  function TruncU32(n: nat): (r: u32)
    ensures n < U32_LIMIT ==> r == n
  {
    n % U32_LIMIT
  }

  /** What a field adds to its range when it is not the first of its run. */
  function FieldSize(f: PushConstantField, layout: Type -> TypeLayout): u32
  {
    TruncU32(PadToAlign(layout(f.field.ty)))
  }

  // ---------------------------------------------------------------------
  // Push-constant ranges
  // ---------------------------------------------------------------------

  /** A `(stages, start, size)` entry of the `ranges` vector. */
  datatype Range = Range(stages: ShaderStages, start: u32, size: u32)

  function Last<T>(s: seq<T>): T
    requires s != []
  {
    s[|s| - 1]
  }

  /** One iteration of the loop over the push-constant fields, from the
      ranges and the current stage set it had reached. */
  function RangeStep(rs: seq<Range>, current: ShaderStages, f: PushConstantField,
                     layout: Type -> TypeLayout): Result<(seq<Range>, ShaderStages)>
  {
    if f.stages != current then
      var start := if rs == [] then 0 else Last(rs).start + Last(rs).size;
      if start >= U32_LIMIT then Panic(OVERFLOW_MSG)
      else Ok((rs + [Range(f.stages, start, 0)], f.stages))
    else if rs == [] then Panic(UNWRAP_NONE_MSG)
    else
      var size := Last(rs).size + FieldSize(f, layout);
      if size >= U32_LIMIT then Panic(OVERFLOW_MSG)
      else Ok((rs[..|rs| - 1] + [Last(rs).(size := size)], current))
  }

  /** The ranges and the current stage set after the loop has gone over `fields`. */
  function RangesAfter(fields: seq<PushConstantField>, layout: Type -> TypeLayout): Result<(seq<Range>, ShaderStages)>
  {
    if fields == [] then Ok(([], {}))
    else
      var state :- RangesAfter(fields[..|fields| - 1], layout);
      RangeStep(state.0, state.1, Last(fields), layout)
  }

  function PushConstantRanges(fields: seq<PushConstantField>, layout: Type -> TypeLayout): Result<seq<Range>>
  {
    var state :- RangesAfter(fields, layout);
    Ok(state.0)
  }

  /** `vk::PushConstantRange`. */
  datatype VkPushConstantRange = VkPushConstantRange(stageFlags: seq<string>, offset: u32, size: u32)

  function RangeToVk(r: Range): VkPushConstantRange
  {
    VkPushConstantRange(StageFlagToVk(r.stages), r.start, r.size)
  }

  /** The result of `push_constant_layout_to_vk`. */
  function PushConstantLayout(fields: seq<PushConstantField>, layout: Type -> TypeLayout): Result<seq<VkPushConstantRange>>
  {
    var rs :- PushConstantRanges(fields, layout);
    Ok(seq(|rs|, i requires 0 <= i < |rs| => RangeToVk(rs[i])))
  }

  /** Once an iteration has aborted, so has the whole loop. */
  lemma {:induction false} FailureIsFinal(fields: seq<PushConstantField>, i: nat, layout: Type -> TypeLayout)
    requires i <= |fields| && RangesAfter(fields[..i], layout).IsFailure()
    ensures RangesAfter(fields, layout) == RangesAfter(fields[..i], layout)
    decreases |fields| - i
  {
    if i < |fields| {
      var longer := fields[..i + 1];
      assert longer[..i] == fields[..i];
      FailureIsFinal(fields, i + 1, layout);
    } else {
      assert fields[..i] == fields;
    }
  }

  /** The loop of `push_constant_layout_to_vk`: it keeps the ranges vector
      and the current stage set; a new range, starting where the last one
      ends, opens whenever a field's stages differ from the current ones, and
      otherwise the field's padded size is added to the last range. */
  method CollectRanges(fields: seq<PushConstantField>, layout: Type -> TypeLayout) returns (r: Result<seq<Range>>)
    ensures r == PushConstantRanges(fields, layout)
  {
    var ranges: seq<Range> := [];
    var current: ShaderStages := {};
    for i := 0 to |fields|
      invariant RangesAfter(fields[..i], layout) == Ok((ranges, current))
    {
      var field := fields[i];
      assert fields[..i + 1][..i] == fields[..i];
      assert RangesAfter(fields[..i + 1], layout) == RangeStep(ranges, current, field, layout);
      if field.stages != current {
        var start := if ranges == [] then 0 else Last(ranges).start + Last(ranges).size;
        if start >= U32_LIMIT {
          FailureIsFinal(fields, i + 1, layout);
          return Panic(OVERFLOW_MSG);
        }
        ranges := ranges + [Range(field.stages, start, 0)];
        current := field.stages;
      } else {
        if ranges == [] {
          FailureIsFinal(fields, i + 1, layout);
          return Panic(UNWRAP_NONE_MSG);
        }
        var size := Last(ranges).size + FieldSize(field, layout);
        if size >= U32_LIMIT {
          FailureIsFinal(fields, i + 1, layout);
          return Panic(OVERFLOW_MSG);
        }
        ranges := ranges[..|ranges| - 1] + [Last(ranges).(size := size)];
      }
    }
    assert fields[..|fields|] == fields;
    return Ok(ranges);
  }

  /** `push_constant_layout_to_vk`: the ranges, each as a `vk::PushConstantRange`. */
  method PushConstantLayoutToVk(fields: seq<PushConstantField>, layout: Type -> TypeLayout)
      returns (r: Result<seq<VkPushConstantRange>>)
    ensures r == PushConstantLayout(fields, layout)
  {
    var ranges :- CollectRanges(fields, layout);
    r := Ok(seq(|ranges|, i requires 0 <= i < |ranges| => RangeToVk(ranges[i])));
  }

  // ---------------------------------------------------------------------
  // What the ranges are
  // ---------------------------------------------------------------------

  /** Each range starts where the previous one ends, the first at 0. */
  ghost predicate Contiguous(rs: seq<Range>)
  {
    (rs != [] ==> rs[0].start == 0) &&
    forall i :: 0 < i < |rs| ==> rs[i].start == rs[i - 1].start + rs[i - 1].size
  }

  /** Neighbouring ranges are for different stage sets. */
  ghost predicate Alternating(rs: seq<Range>)
  {
    forall i :: 0 < i < |rs| ==> rs[i].stages != rs[i - 1].stages
  }

  /** The state the loop keeps: contiguous, alternating ranges, and the
      current stage set is the last range's (empty before the first). */
  ghost predicate RangeInvariant(rs: seq<Range>, current: ShaderStages)
  {
    Contiguous(rs) && Alternating(rs) && current == (if rs == [] then {} else Last(rs).stages)
  }

  lemma StepKeepsInvariant(rs: seq<Range>, current: ShaderStages, f: PushConstantField, layout: Type -> TypeLayout)
    requires RangeInvariant(rs, current) && RangeStep(rs, current, f, layout).Ok?
    ensures RangeInvariant(RangeStep(rs, current, f, layout).value.0, RangeStep(rs, current, f, layout).value.1)
  {
    var next := RangeStep(rs, current, f, layout).value.0;
    if f.stages == current {
      assert |next| == |rs| && forall i :: 0 <= i < |rs| - 1 ==> next[i] == rs[i];
    }
  }

  lemma {:induction false} RangesAfterInvariant(fields: seq<PushConstantField>, layout: Type -> TypeLayout)
    requires RangesAfter(fields, layout).Ok?
    ensures RangeInvariant(RangesAfter(fields, layout).value.0, RangesAfter(fields, layout).value.1)
  {
    if fields != [] {
      var before := RangesAfter(fields[..|fields| - 1], layout);
      RangesAfterInvariant(fields[..|fields| - 1], layout);
      StepKeepsInvariant(before.value.0, before.value.1, Last(fields), layout);
    }
  }

  /** The first push-constant range starts at 0 and every other one where
      the previous one ends, so the ranges neither overlap nor leave gaps;
      and no two neighbouring ranges are for the same stages. */
  lemma RangesContiguous(fields: seq<PushConstantField>, layout: Type -> TypeLayout)
    requires PushConstantRanges(fields, layout).Ok?
    ensures Contiguous(PushConstantRanges(fields, layout).value)
    ensures Alternating(PushConstantRanges(fields, layout).value)
  {
    RangesAfterInvariant(fields, layout);
  }

  // ---------------------------------------------------------------------
  // One range per run of fields
  // ---------------------------------------------------------------------

  /** The runs laid end to end. */
  function Flatten(runs: seq<seq<PushConstantField>>): seq<PushConstantField>
  {
    if runs == [] then [] else Flatten(runs[..|runs| - 1]) + Last(runs)
  }

  lemma FlattenSnoc(runs: seq<seq<PushConstantField>>, run: seq<PushConstantField>)
    ensures Flatten(runs + [run]) == Flatten(runs) + run
  {
    assert (runs + [run])[..|runs|] == runs;
  }

  /** Every field of a run has the stages of the run's first field. */
  ghost predicate Uniform(runs: seq<seq<PushConstantField>>)
  {
    forall k, i | 0 <= k < |runs| && 0 <= i < |runs[k]| :: runs[k][i].stages == runs[k][0].stages
  }

  /** Run `k` has stages other than the run before it. */
  ghost predicate Differ(runs: seq<seq<PushConstantField>>, k: nat)
    requires 0 < k < |runs|
  {
    runs[k - 1] != [] && runs[k] != [] && runs[k - 1][0].stages != runs[k][0].stages
  }

  /** Neighbouring runs have different stages. */
  ghost predicate Distinct(runs: seq<seq<PushConstantField>>)
  {
    forall k | 0 < k < |runs| :: Differ(runs, k)
  }

  lemma DistinctMeans(runs: seq<seq<PushConstantField>>)
    requires Distinct(runs) && forall k :: 0 <= k < |runs| ==> runs[k] != []
    ensures forall k | 0 < k < |runs| :: runs[k - 1][0].stages != runs[k][0].stages
  {
    forall k | 0 < k < |runs|
      ensures runs[k - 1][0].stages != runs[k][0].stages
    {
      assert Differ(runs, k);
    }
  }

  /** A field with the last run's stages extends it. */
  lemma RunsMerge(runs: seq<seq<PushConstantField>>, f: PushConstantField, next: seq<seq<PushConstantField>>)
    requires runs != [] && (forall k :: 0 <= k < |runs| ==> runs[k] != []) && Uniform(runs) && Distinct(runs)
    requires f.stages == Last(runs)[0].stages
    requires next == runs[..|runs| - 1] + [Last(runs) + [f]]
    ensures Uniform(next) && Distinct(next) && Flatten(next) == Flatten(runs) + [f]
    ensures (forall k :: 0 <= k < |next| ==> next[k] != []) && Last(Last(next)) == f
  {
    var n := |runs| - 1;
    var init := runs[..n];
    assert runs == init + [Last(runs)];
    FlattenSnoc(init, Last(runs));
    FlattenSnoc(init, Last(runs) + [f]);
    forall k, i | 0 <= k < |next| && 0 <= i < |next[k]|
      ensures next[k][i].stages == next[k][0].stages
    {
      if k < n {
        assert next[k] == runs[k];
      } else if i < |runs[n]| {
        assert next[k][i] == runs[n][i];
      }
    }
    forall k | 0 < k < |next|
      ensures Differ(next, k)
    {
      assert Differ(runs, k);
      assert next[k - 1] == runs[k - 1];
      if k < n {
        assert next[k] == runs[k];
      } else {
        assert next[k][0] == runs[k][0];
      }
    }
  }

  /** A field with stages other than the last run's starts a new run. */
  lemma RunsOpen(runs: seq<seq<PushConstantField>>, f: PushConstantField, next: seq<seq<PushConstantField>>)
    requires Uniform(runs) && Distinct(runs)
    requires (forall k :: 0 <= k < |runs| ==> runs[k] != [])
    requires runs != [] ==> f.stages != Last(runs)[0].stages
    requires next == runs + [[f]]
    ensures Uniform(next) && Distinct(next) && Flatten(next) == Flatten(runs) + [f]
    ensures (forall k :: 0 <= k < |next| ==> next[k] != []) && Last(Last(next)) == f
  {
    FlattenSnoc(runs, [f]);
    forall k, i | 0 <= k < |next| && 0 <= i < |next[k]|
      ensures next[k][i].stages == next[k][0].stages
    {
      if k < |runs| {
        assert next[k] == runs[k];
      }
    }
    forall k | 0 < k < |next|
      ensures Differ(next, k)
    {
      assert next[k - 1] == runs[k - 1];
      if k < |runs| {
        assert Differ(runs, k);
        assert next[k] == runs[k];
      }
    }
  }

  /** The maximal runs of neighbouring fields with equal stage sets: laid
      end to end they are the fields, every field of a run has the run's
      stages, and neighbouring runs have different ones. */
  function Runs(fields: seq<PushConstantField>): (runs: seq<seq<PushConstantField>>)
    ensures fields == [] <==> runs == []
    ensures forall k :: 0 <= k < |runs| ==> runs[k] != []
    ensures fields != [] ==> Last(Last(runs)) == Last(fields)
    ensures Flatten(runs) == fields
    ensures Uniform(runs) && Distinct(runs)
  {
    if fields == [] then []
    else
      var before := fields[..|fields| - 1];
      var runs := Runs(before);
      assert fields == before + [Last(fields)];
      assert runs != [] ==> Last(runs)[|Last(runs)| - 1] == Last(before);
      if before != [] && Last(before).stages == Last(fields).stages then
        var next := runs[..|runs| - 1] + [Last(runs) + [Last(fields)]];
        RunsMerge(runs, Last(fields), next);
        next
      else
        var next := runs + [[Last(fields)]];
        RunsOpen(runs, Last(fields), next);
        next
  }

  /** The runs are the fields cut where the stages change: laid end to end
      they give back the fields, each run's fields share its first field's
      stages, and each run's stages differ from the previous run's. */
  lemma RunsSplitAtStageChanges(fields: seq<PushConstantField>)
    ensures var runs := Runs(fields);
      && Flatten(runs) == fields
      && (forall k, i | 0 <= k < |runs| && 0 <= i < |runs[k]| :: runs[k][i].stages == runs[k][0].stages)
      && (forall k | 0 < k < |runs| :: runs[k - 1][0].stages != runs[k][0].stages)
  {
    DistinctMeans(Runs(fields));
  }

  /** The sum of the padded sizes of some fields. */
  function PaddedSum(fields: seq<PushConstantField>, layout: Type -> TypeLayout): nat
  {
    if fields == [] then 0
    else PaddedSum(fields[..|fields| - 1], layout) + FieldSize(Last(fields), layout)
  }

  /** What a run adds up to: every field but the first. */
  function RunSize(run: seq<PushConstantField>, layout: Type -> TypeLayout): nat
    requires run != []
  {
    PaddedSum(run[1..], layout)
  }

  /** The ranges are the runs: as many ranges as runs, each with its run's
      stages and with the padded sizes of every field of the run but the
      first as its size. */
  ghost predicate Matches(rs: seq<Range>, runs: seq<seq<PushConstantField>>, layout: Type -> TypeLayout)
  {
    |rs| == |runs| &&
    forall k :: 0 <= k < |rs| ==> runs[k] != [] && rs[k].stages == runs[k][0].stages && rs[k].size == RunSize(runs[k], layout)
  }

  ghost predicate RangesMatchRuns(rs: seq<Range>, fields: seq<PushConstantField>, layout: Type -> TypeLayout)
  {
    Matches(rs, Runs(fields), layout)
  }

  lemma PaddedSumSnoc(s: seq<PushConstantField>, f: PushConstantField, layout: Type -> TypeLayout)
    ensures PaddedSum(s + [f], layout) == PaddedSum(s, layout) + FieldSize(f, layout)
  {
    assert (s + [f])[..|s|] == s;
  }

  lemma RunSizeSnoc(run: seq<PushConstantField>, f: PushConstantField, layout: Type -> TypeLayout)
    requires run != []
    ensures RunSize(run + [f], layout) == RunSize(run, layout) + FieldSize(f, layout)
  {
    assert (run + [f])[1..] == run[1..] + [f];
    PaddedSumSnoc(run[1..], f, layout);
  }

  /** A field that continues the last run grows the last range. */
  lemma MatchesMerge(rs: seq<Range>, runs: seq<seq<PushConstantField>>, f: PushConstantField, layout: Type -> TypeLayout)
    requires Matches(rs, runs, layout) && rs != []
    requires Last(rs).size + FieldSize(f, layout) < U32_LIMIT
    ensures Matches(rs[..|rs| - 1] + [Last(rs).(size := Last(rs).size + FieldSize(f, layout))],
                    runs[..|runs| - 1] + [Last(runs) + [f]], layout)
  {
    RunSizeSnoc(Last(runs), f, layout);
    assert (Last(runs) + [f])[0] == Last(runs)[0];
  }

  /** A field that starts a run opens a range of size 0. */
  lemma MatchesOpen(rs: seq<Range>, runs: seq<seq<PushConstantField>>, f: PushConstantField, start: u32, layout: Type -> TypeLayout)
    requires Matches(rs, runs, layout)
    ensures Matches(rs + [Range(f.stages, start, 0)], runs + [[f]], layout)
  {
    assert [f][1..] == [];
  }

  lemma {:induction false} RangesAfterRuns(fields: seq<PushConstantField>, layout: Type -> TypeLayout)
    requires RangesAfter(fields, layout).Ok?
    ensures RangesMatchRuns(RangesAfter(fields, layout).value.0, fields, layout)
    ensures fields != [] ==> RangesAfter(fields, layout).value.1 == Last(fields).stages
  {
    RangesAfterInvariant(fields, layout);
    if fields != [] {
      var before := fields[..|fields| - 1];
      var f := Last(fields);
      RangesAfterRuns(before, layout);
      RangesAfterInvariant(before, layout);
      var state := RangesAfter(before, layout).value;
      assert RangeStep(state.0, state.1, f, layout).Ok?;
      if f.stages == state.1 {
        // the first field cannot continue a run: it would meet an empty
        // range list and abort
        assert before != [];
        MatchesMerge(state.0, Runs(before), f, layout);
      } else {
        MatchesOpen(state.0, Runs(before), f, RangesAfter(fields, layout).value.0[|state.0|].start, layout);
      }
    }
  }

  /** One range per maximal run of fields with equal stages: the range has
      the run's stages, and its size is the sum of the padded sizes of the
      run's fields after the first, so the first field of a run adds 0. */
  lemma RangesAreRuns(fields: seq<PushConstantField>, layout: Type -> TypeLayout)
    requires PushConstantRanges(fields, layout).Ok?
    ensures RangesMatchRuns(PushConstantRanges(fields, layout).value, fields, layout)
  {
    RangesAfterRuns(fields, layout);
  }

  // ---------------------------------------------------------------------
  // When the loop aborts
  // ---------------------------------------------------------------------

  /** A first field without stages meets `last_mut().unwrap()` on an empty
      vector. */
  lemma FirstFieldWithoutStagesPanics(fields: seq<PushConstantField>, layout: Type -> TypeLayout)
    requires fields != [] && fields[0].stages == {}
    ensures PushConstantRanges(fields, layout) == Panic(UNWRAP_NONE_MSG)
  {
    assert fields[..1][..0] == [];
    FailureIsFinal(fields, 1, layout);
  }

  lemma {:induction false} RangesAfterBounded(fields: seq<PushConstantField>, layout: Type -> TypeLayout)
    requires fields == [] || fields[0].stages != {}
    requires PaddedSum(fields, layout) < U32_LIMIT
    ensures RangesAfter(fields, layout).Ok?
    ensures fields == [] <==> RangesAfter(fields, layout).value.0 == []
    ensures fields != [] ==> Last(RangesAfter(fields, layout).value.0).start + Last(RangesAfter(fields, layout).value.0).size <= PaddedSum(fields, layout)
  {
    if fields != [] {
      var before := fields[..|fields| - 1];
      assert before == [] || before[0] == fields[0];
      RangesAfterBounded(before, layout);
      RangesAfterInvariant(before, layout);
    }
  }

  /** The loop does not abort when the first field has stages and the padded
      sizes of all fields together fit in a `u32`. */
  lemma RangesOkWhenSmall(fields: seq<PushConstantField>, layout: Type -> TypeLayout)
    requires fields == [] || fields[0].stages != {}
    requires PaddedSum(fields, layout) < U32_LIMIT
    ensures PushConstantRanges(fields, layout).Ok?
    ensures |PushConstantRanges(fields, layout).value| == |Runs(fields)|
  {
    RangesAfterBounded(fields, layout);
    RangesAfterRuns(fields, layout);
  }

  /** Every push-constant field of a module the parser produced has stages,
      so the `unwrap` never fails on it. */
  lemma ParsedModuleRangesOk(m: PlayoutModule, layout: Type -> TypeLayout)
    requires WellFormed(m)
    requires PaddedSum(m.pushConstants.fields, layout) < U32_LIMIT
    ensures PushConstantRanges(m.pushConstants.fields, layout).Ok?
  {
    var fields := m.pushConstants.fields;
    if fields != [] {
      assert fields[0] in fields;
    }
    RangesOkWhenSmall(fields, layout);
  }

  // ---------------------------------------------------------------------
  // Stage flags and descriptor types
  // ---------------------------------------------------------------------

  /** The stages of `s` declared at position `k` or later, in declaration order. */
  function StagesFrom(s: ShaderStages, k: nat): seq<Stage>
    requires k <= |DeclaredStages|
    decreases |DeclaredStages| - k
  {
    if k == |DeclaredStages| then []
    else (if DeclaredStages[k] in s then [DeclaredStages[k]] else []) + StagesFrom(s, k + 1)
  }

  /** `iter_names()`: the contained flags, in declaration order. */
  function IterNames(s: ShaderStages): seq<Stage>
  {
    StagesFrom(s, 0)
  }

  lemma {:induction false} StagesFromExact(s: ShaderStages, k: nat, t: Stage)
    requires k <= |DeclaredStages|
    ensures t in StagesFrom(s, k) <==> t in s && k <= DeclIndex(t)
    ensures forall i :: 0 <= i < |StagesFrom(s, k)| ==> k <= DeclIndex(StagesFrom(s, k)[i])
    ensures forall i, j :: 0 <= i < j < |StagesFrom(s, k)| ==> DeclIndex(StagesFrom(s, k)[i]) < DeclIndex(StagesFrom(s, k)[j])
    decreases |DeclaredStages| - k
  {
    if k < |DeclaredStages| {
      StagesFromExact(s, k + 1, t);
      DeclIndexInverse(k);
    }
  }

  /** `iter_names()` yields each stage of the set, and only those, once
      each and in declaration order. */
  lemma IterNamesExact(s: ShaderStages, t: Stage)
    ensures t in IterNames(s) <==> t in s
    ensures forall i, j :: 0 <= i < j < |IterNames(s)| ==> DeclIndex(IterNames(s)[i]) < DeclIndex(IterNames(s)[j])
  {
    StagesFromExact(s, 0, t);
  }

  /** `stage_flag_to_vk`: the `vk::ShaderStageFlags` constant names joined by `|`. */
  function StageFlagToVk(s: ShaderStages): seq<string>
  {
    seq(|IterNames(s)|, i requires 0 <= i < |IterNames(s)| => StageName(IterNames(s)[i]))
  }

  lemma StageNameInjective(a: Stage, b: Stage)
    ensures StageName(a) == StageName(b) <==> a == b
  {
  }

  /** One flag name for each stage in the set, and none for the others. */
  lemma StageFlagToVkExact(s: ShaderStages, t: Stage)
    ensures StageName(t) in StageFlagToVk(s) <==> t in s
  {
    var names := StageFlagToVk(s);
    IterNamesExact(s, t);
    if t in s {
      var i :| 0 <= i < |IterNames(s)| && IterNames(s)[i] == t;
      assert names[i] == StageName(t);
    }
    if StageName(t) in names {
      var i :| 0 <= i < |names| && names[i] == StageName(t);
      StageNameInjective(IterNames(s)[i], t);
    }
  }

  /** No flag name is emitted twice. */
  lemma StageFlagToVkDistinct(s: ShaderStages, i: nat, j: nat)
    requires i < j < |StageFlagToVk(s)|
    ensures StageFlagToVk(s)[i] != StageFlagToVk(s)[j]
  {
    IterNamesExact(s, Vertex);
    StageNameInjective(IterNames(s)[i], IterNames(s)[j]);
  }

  /** `descriptor_type_to_vk`: the `vk::DescriptorType` constant name. */
  function DescriptorTypeToVk(d: DescriptorType): string
  {
    match d
    case Sampler => "SAMPLER"
    case StorageImage(_) => "STORAGE_IMAGE"
    case SampledImage => "SAMPLED_IMAGE"
    case UniformBuffer(_) => "UNIFORM_BUFFER"
    case StorageBuffer(_) => "STORAGE_BUFFER"
    case AccelerationStructure => "ACCELERATION_STRUCTURE_KHR"
  }

  /** Two descriptor types get the same constant exactly when they are the
      same variant: the six variants get six distinct constants and the
      payload does not matter. */
  lemma DescriptorTypeToVkExact(a: DescriptorType, b: DescriptorType)
    ensures DescriptorTypeToVk(a) == DescriptorTypeToVk(b) <==> SameTypeAs(a, b)
  {
  }

  // ---------------------------------------------------------------------
  // Set layouts
  // ---------------------------------------------------------------------

  /** `vk::DescriptorSetLayoutBinding`; `p_immutable_samplers` is always null. */
  datatype VkLayoutBinding = VkLayoutBinding(
    binding: u32,
    descriptorType: string,
    descriptorCount: u32,
    stageFlags: seq<string>)

  /** `binding_to_vk`. */
  function BindingToVk(b: Binding): VkLayoutBinding
  {
    VkLayoutBinding(b.binding, DescriptorTypeToVk(b.descriptorType), b.descriptorCount, StageFlagToVk(b.stages))
  }

  /** `set_layout_to_vk`: one record per binding, in order. */
  function SetLayoutToVk(l: SetLayout): seq<VkLayoutBinding>
  {
    seq(|l.bindings|, i requires 0 <= i < |l.bindings| => BindingToVk(l.bindings[i]))
  }

  /** The k-th record is the k-th binding's: same binding number and count,
      the constant of its descriptor type, and the flags of exactly its
      stages. */
  lemma SetLayoutToVkExact(l: SetLayout, k: nat, t: Stage)
    requires k < |l.bindings|
    ensures |SetLayoutToVk(l)| == |l.bindings|
    ensures SetLayoutToVk(l)[k].binding == l.bindings[k].binding
    ensures SetLayoutToVk(l)[k].descriptorCount == l.bindings[k].descriptorCount
    ensures SetLayoutToVk(l)[k].descriptorType == DescriptorTypeToVk(l.bindings[k].descriptorType)
    ensures StageName(t) in SetLayoutToVk(l)[k].stageFlags <==> t in l.bindings[k].stages
  {
    StageFlagToVkExact(l.bindings[k].stages, t);
  }
}
