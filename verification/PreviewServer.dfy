/** An accepted preview is admitted by the server
  (apps/web/src/ScenarioWorkspace.tsx against packages/optimizer/ratereplay_optimizer/scenario.py). */
module PreviewServer {
  import opened Results
  import opened Sums
  import opened Scenarios
  import opened Admission
  import opened Preview

  function Schedule(slots: seq<Slot>, reference: seq<int>): (schedule: seq<ScheduleSlot>)
    requires |reference| == |slots|
    ensures |schedule| == |slots|
  {
    seq(|slots|, i requires 0 <= i < |slots| => ScheduleSlot(slots[i].start, slots[i].duration, reference[i]))
  }

  /** The request that the preview would send, as the server reads it. */
  function Request(slots: seq<Slot>, form: Form, p: Draft): Scenario
    requires |p.reference| == |slots| && p.window.first < p.window.last <= |slots|
  {
    var task := Task(
      0, 0, form.mode, form.spec, RequiredEnergy(form), Instant(slots, p.window.first), Instant(slots, p.window.last),
      Schedule(slots, p.reference));
    Scenario(slots, [Load(0, form.asset)], [task], form.siteCap, form.flexibleCap)
  }

  // ----- admission -----

  lemma {:induction false} SingleTask(slots: seq<Slot>, form: Form, p: Draft)
    requires Shows(slots, form, p) && p.window.first < p.window.last <= |slots|
    ensures var sc := Request(slots, form, p);
            && ReferencesAligned(sc) && References(sc) == [p.reference] && Shaped(sc, References(sc))
            && Profile(sc, References(sc)) == p.outcome && Flexible(sc, References(sc)) == p.reference
            && (p.background == FixedBackground(slots, form.mode, p.reference) ==> Background(sc) == p.background)
  {
    hide Executes, CapsHold, Sum;
    var sc := Request(slots, form, p);
    assert Energies(sc.tasks[0].reference) == p.reference;
    assert References(sc) == [p.reference];
    forall i | 0 <= i < |slots|
      ensures ShiftSum(sc.tasks, 1, i) == if form.mode == ShiftExisting then p.reference[i] else 0
      ensures ColumnSum(References(sc), 1, i) == p.reference[i]
    {
      assert ShiftSum(sc.tasks, 0, i) == 0 && ColumnSum(References(sc), 0, i) == 0;
    }
  }

  /** A request whose draft is sound is well typed, and the server admits it exactly on a uniform,
      contiguous grid: nothing else that it checks can fail. */
  lemma {:induction false} AdmittedExactly(slots: seq<Slot>, form: Form, p: Draft)
    requires Parsed(form) && Measured(slots)
    requires form.spec.Interruptible? ==> form.spec.minimumPower <= form.spec.maximumPower
    requires Shows(slots, form, p) && p.window.first < p.window.last <= |slots|
    requires p.background == FixedBackground(slots, form.mode, p.reference)
    ensures Admissible(Request(slots, form, p)) <==> UniformSlots(slots) && ContiguousSlots(slots)
    ensures ContiguousSlots(slots) ==> Typed(Request(slots, form, p))
  {
    hide UniformSlots, ContiguousSlots, BoundaryIndex, FixedBackground, Sum, UnderCap, Instant, ShiftSum, ColumnSum;
    var sc := Request(slots, form, p);
    if ContiguousSlots(slots) {
      WindowIsExact(slots, sc.tasks[0], p.window);
      InstantsIncrease(slots, p.window.first, p.window.last);
      SingleTask(slots, form, p);
      assert WindowOf(slots, sc.tasks[0]) == Some(p.window);
      assert Feasible(slots, sc.tasks[0], p.window, p.reference);
    }
  }

  /** The request says what the form says: one occurrence of its load, with its mode, its execution rule
      and its two instants, the energy that the reference delivers, the reference itself and both caps. */
  ghost predicate Asks(slots: seq<Slot>, form: Form, p: Draft, sc: Scenario) {
    && sc.slots == slots && sc.siteCap == form.siteCap && sc.flexibleCap == form.flexibleCap
    && |sc.loads| == |sc.tasks| == 1 && sc.loads[0].asset == form.asset
    && var task := sc.tasks[0];
       && task.mode == form.mode && task.spec == form.spec && task.required == Sum(p.reference)
       && Some(task.earliest) == form.earliest && Some(task.deadline) == form.deadline
       && Aligned(slots, task.reference) && Energies(task.reference) == p.reference
  }

  lemma {:induction false} RequestAsks(slots: seq<Slot>, form: Form, p: Draft)
    requires Shows(slots, form, p) && OnTime(slots, form, p)
    ensures Asks(slots, form, p, Request(slots, form, p))
  {
    hide Sum, Executes, CapsHold;
  }

  /** The browser builds a preview and sends it; the server validates. For the contiguous slots that a
      profile has, an accepted form is admitted exactly when all slots are equally long. */
  method SendPreview(slots: seq<Slot>, form: Form)
    returns (draft: Result<Draft, Issue>, request: Option<Scenario>, answer: Option<Result<Decomposition, Refusal>>)
    requires Parsed(form) && Measured(slots) && ContiguousSlots(slots)
    ensures draft.Ok? <==> Acceptable(slots, form)
    ensures draft.Ok? ==>
      && Shows(slots, form, draft.value) && OnTime(slots, form, draft.value)
      && request.Some? && Asks(slots, form, draft.value, request.value)
      && answer.Some? && (answer.value.Ok? <==> UniformSlots(slots))
    ensures draft.Err? ==> request.None? && answer.None? && Explains(slots, form, draft.error)
  {
    hide Shows, OnTime, Asks, Explains, Admissible, UniformSlots, ContiguousSlots, FixedBackground, Typed, Request;
    draft := BuildPreview(slots, form);
    if draft.Err? {
      return draft, None, None;
    }
    ShownLength(slots, form, draft.value);
    AdmittedExactly(slots, form, draft.value);
    RequestAsks(slots, form, draft.value);
    request := Some(Request(slots, form, draft.value));
    var validated := ValidateAndDecompose(request.value);
    answer := Some(validated);
  }

  lemma {:induction false} ShownLength(slots: seq<Slot>, form: Form, p: Draft)
    requires Shows(slots, form, p)
    ensures |p.reference| == |slots|
  {
  }
}
