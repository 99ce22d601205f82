/** Scenario admission, statement by statement: execution checks, the decomposition of the measured
  profile and the cap checks (packages/optimizer/ratereplay_optimizer/scenario.py, and the same checks
  repeated in verification.py). */
module Admission {
  import opened Results
  import opened Sums
  import opened Scenarios
  import opened Identities

  datatype Refusal =
    | ResolutionMismatch
    | SlotVectorInvalid
    | DuplicateIdentity(clash: Clash)
    | OverlappingOccurrences
    | BoundaryNotAligned
    | VectorMismatch
    | EnergyMismatch
    | OutsideWindow
    | MaximumPowerExceeded
    | MinimumPowerViolated
    | ShapeEnergyMismatch
    | ShapeMismatch
    | NegativeBackground
    | SiteCapExceeded
    | FlexibleCapExceeded

  /** `sum` over a list. */
  method Total(values: seq<int>) returns (total: int)
    ensures total == Sum(values)
  {
    total := 0;
    for i := 0 to |values|
      invariant total == Sum(values[..i])
    {
      SumPrefix(values, i);
      total := total + values[i];
    }
    assert values[..|values|] == values;
  }

  // ----- why a scenario is refused -----

  predicate PowerHolds(slots: seq<Slot>, spec: Spec, w: Window, e: seq<int>, i: nat)
    requires |e| == |slots| && spec.Interruptible? && i < |e|
  {
    (e[i] > 0 ==> w.first <= i < w.last) && WithinPower(spec, slots[i], e[i])
  }

  /** The first slot that breaks the rule of an interruptible load, and the first check it fails there. */
  predicate BreaksAt(slots: seq<Slot>, spec: Spec, w: Window, e: seq<int>, i: nat, refusal: Refusal)
    requires |e| == |slots| && spec.Interruptible?
  {
    && i < |e| && (forall j :: 0 <= j < i ==> PowerHolds(slots, spec, w, e, j))
    && var inside := e[i] > 0 ==> w.first <= i < w.last;
       var under := e[i] * WATT_SECONDS_PER_WATT_HOUR <= spec.maximumPower * slots[i].duration;
       match refusal
       case OutsideWindow => !inside
       case MaximumPowerExceeded => inside && !under
       case MinimumPowerViolated =>
         inside && under && e[i] > 0 && e[i] * WATT_SECONDS_PER_WATT_HOUR < spec.minimumPower * slots[i].duration
       case _ => false
  }

  /** Why a vector is not what its occurrence and its load require. */
  ghost predicate ExecutionFails(slots: seq<Slot>, task: Task, w: Window, e: seq<int>, refusal: Refusal)
    requires |e| == |slots|
  {
    match refusal
    case EnergyMismatch => Sum(e) != task.required
    case ShapeEnergyMismatch =>
      task.spec.FixedShape? && Sum(e) == task.required && Sum(task.spec.shape) != task.required
    case ShapeMismatch =>
      && task.spec.FixedShape? && Sum(e) == task.required == Sum(task.spec.shape)
      && forall c :: w.first <= c <= w.last - |task.spec.shape| ==> e != Placed(task.spec.shape, c, |slots|)
    case _ =>
      && task.spec.Interruptible? && Sum(e) == task.required
      && exists i: nat :: BreaksAt(slots, task.spec, w, e, i, refusal)
  }

  /** Why an occurrence is refused. */
  ghost predicate OccurrenceFails(slots: seq<Slot>, task: Task, refusal: Refusal) {
    match refusal
    case BoundaryNotAligned => WindowOf(slots, task).None?
    case VectorMismatch => WindowOf(slots, task).Some? && !Aligned(slots, task.reference)
    case _ =>
      && WindowOf(slots, task).Some? && Aligned(slots, task.reference)
      && ExecutionFails(slots, task, WindowOf(slots, task).value, Energies(task.reference), refusal)
  }

  predicate UnderCaps(sc: Scenario, profile: seq<int>, flexible: seq<int>, i: nat)
    requires |profile| == |flexible| == |sc.slots| && i < |sc.slots|
  {
    UnderCap(sc.siteCap, sc.slots[i], profile[i]) && UnderCap(sc.flexibleCap, sc.slots[i], flexible[i])
  }

  /** The first slot where a cap fails, and which of the two is reported there. */
  predicate CapFails(sc: Scenario, profile: seq<int>, flexible: seq<int>, i: nat, refusal: Refusal)
    requires |profile| == |flexible| == |sc.slots|
  {
    && i < |sc.slots| && (forall j :: 0 <= j < i ==> UnderCaps(sc, profile, flexible, j))
    && match refusal
       case SiteCapExceeded => !UnderCap(sc.siteCap, sc.slots[i], profile[i])
       case FlexibleCapExceeded =>
         UnderCap(sc.siteCap, sc.slots[i], profile[i]) && !UnderCap(sc.flexibleCap, sc.slots[i], flexible[i])
       case _ => false
  }

  /** The grid, the identities and the disjointness of occurrences. */
  ghost predicate WellNamed(sc: Scenario) {
    UniformSlots(sc.slots) && ContiguousSlots(sc.slots) && Identified(sc) && DisjointOccurrences(sc)
  }

  /** The one reason for which a scenario is refused: the first of the checks that fails. */
  ghost predicate RefusedFor(sc: Scenario, refusal: Refusal) {
    match refusal
    case ResolutionMismatch => !UniformSlots(sc.slots)
    case SlotVectorInvalid => UniformSlots(sc.slots) && !ContiguousSlots(sc.slots)
    case DuplicateIdentity(clash) =>
      && UniformSlots(sc.slots) && ContiguousSlots(sc.slots) && !Identified(sc)
      && (clash == DuplicateLoad <==> !LoadIdsDiffer(sc.loads))
      && (clash == DuplicateAsset <==> LoadIdsDiffer(sc.loads) && !AssetsDiffer(sc.loads))
    case OverlappingOccurrences =>
      UniformSlots(sc.slots) && ContiguousSlots(sc.slots) && Identified(sc) && !DisjointOccurrences(sc)
    case NegativeBackground =>
      && WellNamed(sc) && (forall t :: 0 <= t < |sc.tasks| ==> OccurrenceAdmissible(sc.slots, sc.tasks[t]))
      && ReferencesAligned(sc) && !BackgroundNonnegative(sc)
    case SiteCapExceeded => CapsRefuse(sc, refusal)
    case FlexibleCapExceeded => CapsRefuse(sc, refusal)
    case _ => WellNamed(sc) && exists k: nat :: FirstFails(sc, k, refusal)
  }

  ghost predicate FirstFails(sc: Scenario, k: nat, refusal: Refusal) {
    && k < |sc.tasks| && (forall t :: 0 <= t < k ==> OccurrenceAdmissible(sc.slots, sc.tasks[t]))
    && OccurrenceFails(sc.slots, sc.tasks[k], refusal)
  }

  ghost predicate CapsRefuse(sc: Scenario, refusal: Refusal) {
    && WellNamed(sc) && (forall t :: 0 <= t < |sc.tasks| ==> OccurrenceAdmissible(sc.slots, sc.tasks[t]))
    && ReferencesAligned(sc) && BackgroundNonnegative(sc)
    && exists i: nat :: CapFails(sc, Profile(sc, References(sc)), Flexible(sc, References(sc)), i, refusal)
  }

  // ----- the checks -----

  method CheckInterruptible(slots: seq<Slot>, spec: Spec, w: Window, e: seq<int>) returns (refusal: Option<Refusal>)
    requires |e| == |slots| && spec.Interruptible?
    ensures refusal.None? <==> Executes(slots, spec, w, e)
    ensures refusal.Some? ==> exists i: nat :: BreaksAt(slots, spec, w, e, i, refusal.value)
  {
    for i := 0 to |e|
      invariant forall j :: 0 <= j < i ==> (e[j] > 0 ==> w.first <= j < w.last) && WithinPower(spec, slots[j], e[j])
    {
      if e[i] > 0 && !(w.first <= i < w.last) {
        assert BreaksAt(slots, spec, w, e, i, OutsideWindow);
        return Some(OutsideWindow);
      }
      if e[i] * WATT_SECONDS_PER_WATT_HOUR > spec.maximumPower * slots[i].duration {
        assert BreaksAt(slots, spec, w, e, i, MaximumPowerExceeded);
        return Some(MaximumPowerExceeded);
      }
      if e[i] > 0 && e[i] * WATT_SECONDS_PER_WATT_HOUR < spec.minimumPower * slots[i].duration {
        assert BreaksAt(slots, spec, w, e, i, MinimumPowerViolated);
        return Some(MinimumPowerViolated);
      }
    }
    return None;
  }

  method CheckFixedShape(slots: seq<Slot>, spec: Spec, w: Window, e: seq<int>) returns (refusal: Option<Refusal>)
    requires |e| == |slots| && spec.FixedShape?
    ensures refusal.None? <==> Executes(slots, spec, w, e)
    ensures refusal in {None, Some(ShapeMismatch)}
  {
    hide Placed;
    var c := w.first;
    while c <= w.last - |spec.shape|
      invariant w.first <= c
      invariant forall d :: w.first <= d < c ==> e != Placed(spec.shape, d, |slots|)
      decreases w.last - c
    {
      if Placed(spec.shape, c, |slots|) == e {
        return None;
      }
      c := c + 1;
    }
    return Some(ShapeMismatch);
  }

  lemma {:induction false} PlacedSum(shape: seq<int>, c: nat, n: nat)
    requires c + |shape| <= n
    ensures Sum(Placed(shape, c, n)) == Sum(shape)
  {
    var before, after := seq(c, i => 0), seq(n - c - |shape|, i => 0);
    assert Placed(shape, c, n) == before + shape + after;
    SumConcat(before + shape, after);
    SumConcat(before, shape);
    SumZero(before);
    SumZero(after);
  }

  /** One occurrence's energy vector against its requirement and its load. */
  method CheckExecution(slots: seq<Slot>, task: Task, w: Window, e: seq<int>) returns (refusal: Option<Refusal>)
    requires |e| == |slots| && w.last <= |slots| && forall i :: 0 <= i < |e| ==> e[i] >= 0
    ensures refusal.None? <==> Feasible(slots, task, w, e)
    ensures refusal.Some? ==> ExecutionFails(slots, task, w, e, refusal.value)
  {
    var total := Total(e);
    if total != task.required {
      return Some(EnergyMismatch);
    }
    match task.spec {
      case Interruptible(_, _) =>
        refusal := CheckInterruptible(slots, task.spec, w, e);
      case FixedShape(shape) =>
        var shapeTotal := Total(shape);
        if shapeTotal != task.required {
          if Executes(slots, task.spec, w, e) {
            var c: nat :| w.first <= c <= w.last - |shape| && e == Placed(shape, c, |slots|);
            PlacedSum(shape, c, |slots|);
          }
          return Some(ShapeEnergyMismatch);
        }
        refusal := CheckFixedShape(slots, task.spec, w, e);
    }
  }

  // ----- admission of a whole scenario -----

  method CheckGrid(slots: seq<Slot>) returns (refusal: Option<Refusal>)
    requires |slots| > 0
    ensures refusal.None? <==> UniformSlots(slots) && ContiguousSlots(slots)
    ensures refusal == Some(ResolutionMismatch) <==> !UniformSlots(slots)
    ensures refusal == Some(SlotVectorInvalid) <==> UniformSlots(slots) && !ContiguousSlots(slots)
  {
    for i := 0 to |slots|
      invariant forall j :: 0 <= j < i ==> slots[j].duration == slots[0].duration
    {
      if slots[i].duration != slots[0].duration {
        return Some(ResolutionMismatch);
      }
    }
    for i := 1 to |slots|
      invariant forall j :: 0 < j < i ==> slots[j].start == End(slots[j - 1])
    {
      if slots[i].start != End(slots[i - 1]) {
        return Some(SlotVectorInvalid);
      }
    }
    return None;
  }

  /** Window, reference vector and execution of one occurrence, in the order they are checked. */
  method CheckOccurrence(slots: seq<Slot>, task: Task) returns (r: Result<seq<int>, Refusal>)
    requires TypedTask(task)
    ensures r.Ok? <==>
      (&& WindowOf(slots, task).Some? && Aligned(slots, task.reference)
       && Feasible(slots, task, WindowOf(slots, task).value, Energies(task.reference)))
    ensures r.Ok? ==> r.value == Energies(task.reference)
    ensures r.Err? ==> OccurrenceFails(slots, task, r.error)
  {
    var window := WindowOf(slots, task);
    if window.None? {
      return Err(BoundaryNotAligned);
    }
    WindowBounds(slots, task);
    if |task.reference| != |slots| {
      return Err(VectorMismatch);
    }
    var energy: seq<int> := [];
    for i := 0 to |slots|
      invariant |energy| == i && forall j :: 0 <= j < i ==> energy[j] == task.reference[j].energy
      invariant forall j :: 0 <= j < i ==>
        task.reference[j].start == slots[j].start && task.reference[j].duration == slots[j].duration
    {
      if task.reference[i].start != slots[i].start || task.reference[i].duration != slots[i].duration {
        return Err(VectorMismatch);
      }
      energy := energy + [task.reference[i].energy];
    }
    assert energy == Energies(task.reference);
    var refusal := CheckExecution(slots, task, window.value, energy);
    if refusal.Some? {
      return Err(refusal.value);
    }
    return Ok(energy);
  }

  datatype Decomposition = Decomposition(background: seq<int>, shifted: seq<int>, added: seq<int>, profile: seq<int>)

  /** Reference energy of the first `k` tasks in slot `i`, for those that add to the measured use. */
  function AddedSum(tasks: seq<Task>, k: nat, i: nat): int
    requires k <= |tasks| && forall t :: 0 <= t < k ==> i < |tasks[t].reference|
  {
    if k == 0 then 0
    else
      AddedSum(tasks, k - 1, i)
      + (if tasks[k - 1].mode == HistoricalAddition then tasks[k - 1].reference[i].energy else 0)
  }

  /** Adding one reference into a running total, in place. */
  method AddInto(target: array<int>, energy: seq<int>)
    requires target.Length == |energy|
    modifies target
    ensures forall i :: 0 <= i < |energy| ==> target[i] == old(target[i]) + energy[i]
  {
    for i := 0 to |energy|
      invariant forall j :: 0 <= j < i ==> target[j] == old(target[j]) + energy[j]
      invariant forall j :: i <= j < |energy| ==> target[j] == old(target[j])
    {
      target[i] := target[i] + energy[i];
    }
  }

  lemma {:induction false} ReferenceColumns(sc: Scenario, k: nat, i: nat)
    requires ReferencesAligned(sc) && k <= |sc.tasks| && i < |sc.slots|
    ensures ColumnSum(References(sc), k, i) == ShiftSum(sc.tasks, k, i) + AddedSum(sc.tasks, k, i)
  {
    if k > 0 {
      ReferenceColumns(sc, k - 1, i);
    }
  }

  method CheckCaps(sc: Scenario, profile: seq<int>, flexible: seq<int>) returns (refusal: Option<Refusal>)
    requires |profile| == |flexible| == |sc.slots|
    ensures refusal.None? <==> forall i :: 0 <= i < |sc.slots| ==>
      UnderCap(sc.siteCap, sc.slots[i], profile[i]) && UnderCap(sc.flexibleCap, sc.slots[i], flexible[i])
    ensures refusal.Some? ==> exists i: nat :: CapFails(sc, profile, flexible, i, refusal.value)
  {
    hide UnderCap;
    for i := 0 to |sc.slots|
      invariant forall j :: 0 <= j < i ==>
        UnderCap(sc.siteCap, sc.slots[j], profile[j]) && UnderCap(sc.flexibleCap, sc.slots[j], flexible[j])
    {
      if !UnderCap(sc.siteCap, sc.slots[i], profile[i]) {
        assert CapFails(sc, profile, flexible, i, SiteCapExceeded);
        return Some(SiteCapExceeded);
      }
      if !UnderCap(sc.flexibleCap, sc.slots[i], flexible[i]) {
        assert CapFails(sc, profile, flexible, i, FlexibleCapExceeded);
        return Some(FlexibleCapExceeded);
      }
    }
    return None;
  }

  /** What admission establishes. */
  ghost predicate Admissible(sc: Scenario) {
    && UniformSlots(sc.slots) && ContiguousSlots(sc.slots) && Identified(sc) && DisjointOccurrences(sc)
    && ReferencesAligned(sc) && WindowsOpen(sc) && BackgroundNonnegative(sc)
    && Admits(sc, References(sc))
  }

  ghost predicate OccurrenceAdmissible(slots: seq<Slot>, task: Task) {
    && WindowOf(slots, task).Some? && Aligned(slots, task.reference)
    && Feasible(slots, task, WindowOf(slots, task).value, Energies(task.reference))
  }

  /** What is checked before any occurrence: the grid, the identities, and overlaps. */
  method CheckNames(sc: Scenario) returns (refusal: Option<Refusal>)
    requires Typed(sc)
    ensures refusal.None? <==> WellNamed(sc)
    ensures refusal.Some? ==> RefusedFor(sc, refusal.value)
  {
    hide UniformSlots, ContiguousSlots, Identified, DisjointOccurrences, LoadIdsDiffer, AssetsDiffer;
    refusal := CheckGrid(sc.slots);
    if refusal.Some? {
      return;
    }
    var clash := CheckIdentities(sc);
    if clash.Some? {
      return Some(DuplicateIdentity(clash.value));
    }
    var disjoint := CheckDisjoint(sc, true);
    return if disjoint then None else Some(OverlappingOccurrences);
  }

  /** `validate_and_decompose_scenario`: accepted exactly when the reference is an admitted schedule
      on a uniform grid with nothing negative left over, and then the parts add up again. */
  method ValidateAndDecompose(sc: Scenario) returns (r: Result<Decomposition, Refusal>)
    requires Typed(sc)
    ensures r.Ok? <==> Admissible(sc)
    ensures r.Err? ==> RefusedFor(sc, r.error)
    ensures r.Ok? ==> r.value.background == Background(sc) && r.value.profile == Profile(sc, References(sc))
    ensures r.Ok? ==> |r.value.shifted| == |r.value.added| == |sc.slots| && forall i :: 0 <= i < |sc.slots| ==>
      && r.value.background[i] >= 0 && r.value.background[i] + r.value.shifted[i] == sc.slots[i].measured
      && r.value.profile[i] == sc.slots[i].measured + r.value.added[i]
  {
    hide Feasible, UnderCap, UniformSlots, ContiguousSlots, Identified, DisjointOccurrences, TypedTask, OccurrenceFails,
      CapsRefuse, BackgroundNonnegative, LoadIdsDiffer, AssetsDiffer;
    var n := |sc.slots|;
    var refusal := CheckNames(sc);
    if refusal.Some? {
      return Err(refusal.value);
    }
    var shifted := new int[n](_ => 0);
    var added := new int[n](_ => 0);
    for k := 0 to |sc.tasks|
      invariant forall t :: 0 <= t < k ==> OccurrenceAdmissible(sc.slots, sc.tasks[t])
      invariant forall i :: 0 <= i < n ==>
        shifted[i] == ShiftSum(sc.tasks, k, i) && added[i] == AddedSum(sc.tasks, k, i)
    {
      var energy := CheckOccurrence(sc.slots, sc.tasks[k]);
      if energy.Err? {
        assert !OccurrenceAdmissible(sc.slots, sc.tasks[k]);
        NotAdmissible(sc, k);
        assert FirstFails(sc, k, energy.error);
        OccurrenceReasons(sc.slots, sc.tasks[k], energy.error);
        return Err(energy.error);
      }
      if sc.tasks[k].mode == ShiftExisting {
        AddInto(shifted, energy.value);
      } else {
        AddInto(added, energy.value);
      }
    }
    r := Decompose(sc, shifted[..], added[..]);
  }

  lemma {:induction false} OccurrenceReasons(slots: seq<Slot>, task: Task, refusal: Refusal)
    requires OccurrenceFails(slots, task, refusal)
    ensures refusal in {BoundaryNotAligned, VectorMismatch, EnergyMismatch, OutsideWindow, MaximumPowerExceeded,
                        MinimumPowerViolated, ShapeEnergyMismatch, ShapeMismatch}
  {
    hide WindowOf, Aligned, Sum;
  }

  lemma {:induction false} NotAdmissible(sc: Scenario, k: nat)
    requires k < |sc.tasks| && !OccurrenceAdmissible(sc.slots, sc.tasks[k])
    ensures !Admissible(sc)
  {
    hide Feasible;
  }

  /** The second half of admission, once every occurrence has passed. */
  method Decompose(sc: Scenario, shifted: seq<int>, added: seq<int>) returns (r: Result<Decomposition, Refusal>)
    requires Typed(sc) && UniformSlots(sc.slots) && ContiguousSlots(sc.slots) && ReferencesAligned(sc)
    requires Identified(sc) && DisjointOccurrences(sc)
    requires forall t :: 0 <= t < |sc.tasks| ==> OccurrenceAdmissible(sc.slots, sc.tasks[t])
    requires |shifted| == |added| == |sc.slots| && forall i :: 0 <= i < |sc.slots| ==>
      shifted[i] == ShiftSum(sc.tasks, |sc.tasks|, i) && added[i] == AddedSum(sc.tasks, |sc.tasks|, i)
    ensures r.Ok? <==> Admissible(sc)
    ensures r.Err? ==> RefusedFor(sc, r.error)
    ensures r.Ok? ==> r.value.background == Background(sc) && r.value.profile == Profile(sc, References(sc))
    ensures r.Ok? ==> r.value.shifted == shifted && r.value.added == added && forall i :: 0 <= i < |sc.slots| ==>
      && r.value.background[i] >= 0 && r.value.background[i] + r.value.shifted[i] == sc.slots[i].measured
      && r.value.profile[i] == sc.slots[i].measured + r.value.added[i]
  {
    hide Feasible, UnderCap, UniformSlots, ContiguousSlots, Identified, DisjointOccurrences, TypedTask, ShiftSum,
      AddedSum, ColumnSum;
    var n := |sc.slots|;
    var background := seq(n, i requires 0 <= i < n => sc.slots[i].measured - shifted[i]);
    assert background == Background(sc);
    for i := 0 to n
      invariant forall j :: 0 <= j < i ==> background[j] >= 0
    {
      if background[i] < 0 {
        assert Background(sc)[i] < 0;
        return Err(NegativeBackground);
      }
    }
    var flexible := seq(n, i requires 0 <= i < n => shifted[i] + added[i]);
    var profile := seq(n, i requires 0 <= i < n => background[i] + flexible[i]);
    forall i | 0 <= i < n
      ensures flexible[i] == Flexible(sc, References(sc))[i] && profile[i] == Profile(sc, References(sc))[i]
    {
      ReferenceColumns(sc, |sc.tasks|, i);
    }
    assert flexible == Flexible(sc, References(sc)) && profile == Profile(sc, References(sc));
    var refusal := CheckCaps(sc, profile, flexible);
    assert refusal.None? <==> WithinCaps(sc, References(sc));
    if refusal.Some? {
      ghost var i: nat :| CapFails(sc, profile, flexible, i, refusal.value);
      assert refusal.value in {SiteCapExceeded, FlexibleCapExceeded};
      assert CapsRefuse(sc, refusal.value);
      return Err(refusal.value);
    }
    r := Ok(Decomposition(background, shifted, added, profile));
  }
}
