/** The independent verifier and the exact optimizer, statement by statement
  (packages/optimizer/ratereplay_optimizer/verification.py and solver.py). */
module Optimizer {
  import opened Results
  import opened Sums
  import opened Billing
  import opened BillSplit
  import opened Scenarios
  import opened Identities
  import opened Admission
  import opened Cp
  import opened Lowering
  import opened LoweredModel
  import opened Exactness
  import opened Staged
  import opened Compiler

  /** A candidate: one schedule for each task, in the order of the tasks. */
  type Candidate = seq<seq<ScheduleSlot>>

  datatype Verified = Verified(energy: Matrix, bill: seq<Line>, objective: Objective)

  datatype Rejection =
    | ProfileInvalid
    | AssetIdentityInvalid
    | OverlappingWindows
    | DuplicateSchedule
    | OccurrenceSetMismatch
    | ReferenceInvalid
    | NotAligned
    | Decomposition
    | Refused(reason: Refusal)
    | NotBillable(error: ReplayError)
    | CostMismatch

  const MAXIMUM_SLOT_SECONDS := 3_600

  /** The verifier's own view of the slot grid is stricter than admission: short slots on whole seconds. */
  predicate VerifierGrid(slots: seq<Slot>) {
    && UniformSlots(slots) && ContiguousSlots(slots)
    && forall i :: 0 <= i < |slots| ==> slots[i].duration <= MAXIMUM_SLOT_SECONDS && slots[i].start % SECOND == 0
  }

  /** What the verifier asks of a scenario before it looks at a candidate. */
  ghost predicate Verifiable(sc: Scenario) {
    VerifierGrid(sc.slots) && Identified(sc) && DisjointOccurrences(sc)
  }

  function EnergyOf(candidate: Candidate): Matrix {
    seq(|candidate|, t requires 0 <= t < |candidate| => Energies(candidate[t]))
  }

  predicate CandidateAligned(sc: Scenario, candidate: Candidate) {
    |candidate| == |sc.tasks| && forall t :: 0 <= t < |candidate| ==> Aligned(sc.slots, candidate[t])
  }

  /** What a verified candidate is: aligned, admitted, billable, and priced as claimed. */
  ghost predicate Verifies(sc: Scenario, rules: seq<Rule>, account: Account, candidate: Candidate, claimed: Option<int>)
    requires WellFormed(rules, |sc.slots|)
  {
    && Verifiable(sc) && ReferencesAligned(sc) && WindowsOpen(sc) && BackgroundNonnegative(sc)
    && CandidateAligned(sc, candidate) && Admits(sc, EnergyOf(candidate))
    && Bill(sc, rules, account, EnergyOf(candidate)).Ok?
    && (claimed.Some? ==> claimed.value == TotalCents(Bill(sc, rules, account, EnergyOf(candidate)).value))
  }

  method CheckVerifierGrid(slots: seq<Slot>) returns (ok: bool)
    ensures ok <==> |slots| > 0 && VerifierGrid(slots)
  {
    if slots == [] {
      return false;
    }
    for i := 0 to |slots|
      invariant forall j :: 0 <= j < i ==>
        slots[j].duration == slots[0].duration && slots[j].duration <= MAXIMUM_SLOT_SECONDS
      invariant forall j :: 0 <= j < i ==> slots[j].start % SECOND == 0
      invariant forall j :: 0 < j < i ==> slots[j].start == End(slots[j - 1])
    {
      if slots[i].duration != slots[0].duration || slots[i].duration > MAXIMUM_SLOT_SECONDS
        || slots[i].start % SECOND != 0 {
        return false;
      }
      if i > 0 && slots[i].start != End(slots[i - 1]) {
        return false;
      }
    }
    return true;
  }

  method CheckAligned(slots: seq<Slot>, schedule: seq<ScheduleSlot>) returns (ok: bool)
    ensures ok <==> Aligned(slots, schedule)
  {
    if |schedule| != |slots| {
      return false;
    }
    for i := 0 to |slots|
      invariant forall j :: 0 <= j < i ==>
        schedule[j].start == slots[j].start && schedule[j].duration == slots[j].duration
    {
      if schedule[i].start != slots[i].start || schedule[i].duration != slots[i].duration {
        return false;
      }
    }
    return true;
  }

  /** `_background_and_reference`: the background left when every shifted reference is taken out. */
  method ComputeBackground(sc: Scenario) returns (r: Result<seq<int>, Rejection>)
    requires |sc.slots| > 0
    ensures r.Ok? <==> ReferencesAligned(sc) && BackgroundNonnegative(sc)
    ensures r.Ok? ==> r.value == Background(sc)
    ensures r == Err(ReferenceInvalid) <==> !ReferencesAligned(sc)
    ensures r.Err? ==> r.error in {ReferenceInvalid, Rejection.Decomposition}
  {
    hide Aligned;
    var n := |sc.slots|;
    var shifted := new int[n](_ => 0);
    for k := 0 to |sc.tasks|
      invariant forall t :: 0 <= t < k ==> Aligned(sc.slots, sc.tasks[t].reference) && |sc.tasks[t].reference| == n
      invariant forall i :: 0 <= i < n ==> shifted[i] == ShiftSum(sc.tasks, k, i)
    {
      var aligned := CheckAligned(sc.slots, sc.tasks[k].reference);
      if !aligned {
        return Err(ReferenceInvalid);
      }
      AlignedSize(sc.slots, sc.tasks[k].reference);
      if sc.tasks[k].mode == ShiftExisting {
        AddInto(shifted, Energies(sc.tasks[k].reference));
      }
    }
    var background := seq(n, i requires 0 <= i < n => sc.slots[i].measured - ShiftSum(sc.tasks, |sc.tasks|, i));
    assert background == Background(sc);
    for i := 0 to n
      invariant forall j :: 0 <= j < i ==> background[j] >= 0
    {
      if sc.slots[i].measured - shifted[i] < 0 {
        assert Background(sc)[i] < 0;
        return Err(Rejection.Decomposition);
      }
    }
    return Ok(background);
  }

  lemma {:induction false} AlignedSize(slots: seq<Slot>, schedule: seq<ScheduleSlot>)
    requires Aligned(slots, schedule)
    ensures |schedule| == |slots|
  {
  }

  /** One occurrence: changed slots, last active slot and position-weighted energy. */
  method ScoreRow(task: Task, e: seq<int>, position: nat) returns (moved: int, last: nat, score: int)
    requires |task.reference| == |e|
    ensures moved == Sum(ChangedFlags(task, e)) && last == LastPositive(e, |e|) && score == Sum(Weighted(e, position))
  {
    var flags, weighted := ChangedFlags(task, e), Weighted(e, position);
    moved, last, score := 0, 0, 0;
    for i := 0 to |e|
      invariant moved == Sum(flags[..i]) && score == Sum(weighted[..i]) && last == LastPositive(e, i)
    {
      SumPrefix(flags, i);
      SumPrefix(weighted, i);
      if e[i] != task.reference[i].energy {
        moved := moved + 1;
      }
      if e[i] > 0 {
        last := i + 1;
      }
      score := score + (position + i + 1) * e[i];
    }
    assert flags[..|e|] == flags && weighted[..|e|] == weighted;
  }

  /** The objective tuple, counted over tasks and slots in one pass. */
  method ComputeObjective(sc: Scenario, es: Matrix, cost: int) returns (objective: Objective)
    requires ReferencesAligned(sc) && Shaped(sc, es)
    ensures objective == Objective(cost, ChangedCount(sc, es, |es|), CompletionSum(es, |es|),
      StableScore(es, |es|, |sc.slots|))
  {
    hide ChangedFlags, LastPositive, Weighted, Sum;
    var changed, completion, stable, position := 0, 0, 0, 0;
    for t := 0 to |es|
      invariant changed == ChangedCount(sc, es, t) && completion == CompletionSum(es, t)
      invariant stable == StableScore(es, t, |sc.slots|) && position == Base(t, |sc.slots|)
    {
      var moved, last, score := ScoreRow(sc.tasks[t], es[t], position);
      changed, completion, stable := changed + moved, completion + last, stable + score;
      position := position + |sc.slots|;
    }
    objective := Objective(cost, changed, completion, stable);
  }

  predicate TypedCandidate(candidate: Candidate) {
    forall t, i :: 0 <= t < |candidate| && 0 <= i < |candidate[t]| ==> candidate[t][i].energy >= 0
  }

  /** One occurrence of a candidate. */
  method CheckTask(sc: Scenario, candidate: Candidate, k: nat) returns (rejection: Option<Rejection>)
    requires Typed(sc) && |candidate| == |sc.tasks| && TypedCandidate(candidate) && k < |sc.tasks|
    ensures rejection.None? <==> TaskVerifies(sc, candidate, k)
    ensures rejection.Some? ==> TaskRejected(sc, candidate, k, rejection.value)
  {
    hide Feasible, Aligned, TypedTask, WindowOf, ExecutionFails;
    var aligned := CheckAligned(sc.slots, candidate[k]);
    if !aligned {
      return Some(NotAligned);
    }
    AlignedSize(sc.slots, candidate[k]);
    var window := WindowOf(sc.slots, sc.tasks[k]);
    if window.None? {
      return Some(NotAligned);
    }
    WindowBounds(sc.slots, sc.tasks[k]);
    var refusal := CheckExecution(sc.slots, sc.tasks[k], window.value, Energies(candidate[k]));
    if refusal.Some? {
      return Some(Refused(refusal.value));
    }
    return None;
  }

  /** The tasks of a candidate one by one, and the flexible energy they add up to. */
  method CheckTasks(sc: Scenario, candidate: Candidate) returns (r: Result<seq<int>, Rejection>)
    requires Typed(sc) && |candidate| == |sc.tasks| && TypedCandidate(candidate)
    ensures r.Ok? <==> forall t :: 0 <= t < |sc.tasks| ==> TaskVerifies(sc, candidate, t)
    ensures r.Ok? ==> Shaped(sc, EnergyOf(candidate)) && r.value == Flexible(sc, EnergyOf(candidate))
    ensures r.Err? ==> exists k: nat :: FirstRejected(sc, candidate, k, r.error)
  {
    hide TaskRejected, TaskVerifies, Typed, TypedCandidate;
    var n := |sc.slots|;
    var flexible := new int[n](_ => 0);
    ghost var es := EnergyOf(candidate);
    for k := 0 to |sc.tasks|
      invariant forall t :: 0 <= t < k ==> TaskVerifies(sc, candidate, t) && |es[t]| == n
      invariant forall i :: 0 <= i < n ==> flexible[i] == ColumnSum(es, k, i)
    {
      var rejection := CheckTask(sc, candidate, k);
      if rejection.Some? {
        assert FirstRejected(sc, candidate, k, rejection.value);
        return Err(rejection.value);
      }
      TaskVerifiesSize(sc, candidate, k);
      AddInto(flexible, Energies(candidate[k]));
    }
    assert flexible[..] == Flexible(sc, es);
    return Ok(flexible[..]);
  }

  lemma {:induction false} TaskVerifiesSize(sc: Scenario, candidate: Candidate, t: nat)
    requires |candidate| == |sc.tasks| && t < |sc.tasks| && TaskVerifies(sc, candidate, t)
    ensures |candidate[t]| == |sc.slots|
  {
  }

  ghost predicate TaskVerifies(sc: Scenario, candidate: Candidate, t: nat)
    requires |candidate| == |sc.tasks| && t < |sc.tasks|
  {
    && Aligned(sc.slots, candidate[t]) && WindowOf(sc.slots, sc.tasks[t]).Some?
    && Feasible(sc.slots, sc.tasks[t], WindowOf(sc.slots, sc.tasks[t]).value, Energies(candidate[t]))
  }

  /** Why one schedule of a candidate is rejected. */
  ghost predicate TaskRejected(sc: Scenario, candidate: Candidate, t: nat, rejection: Rejection)
    requires |candidate| == |sc.tasks| && t < |sc.tasks|
  {
    match rejection
    case NotAligned => !Aligned(sc.slots, candidate[t]) || WindowOf(sc.slots, sc.tasks[t]).None?
    case Refused(reason) =>
      && Aligned(sc.slots, candidate[t]) && WindowOf(sc.slots, sc.tasks[t]).Some?
      && ExecutionFails(
           sc.slots, sc.tasks[t], WindowOf(sc.slots, sc.tasks[t]).value, Energies(candidate[t]), reason)
    case _ => false
  }

  ghost predicate FirstRejected(sc: Scenario, candidate: Candidate, k: nat, rejection: Rejection)
    requires |candidate| == |sc.tasks|
  {
    && k < |sc.tasks| && (forall t :: 0 <= t < k ==> TaskVerifies(sc, candidate, t))
    && TaskRejected(sc, candidate, k, rejection)
  }

  /** Everything that a candidate is asked for before it is billed. */
  ghost predicate Admitted(sc: Scenario, candidate: Candidate) {
    && ReferencesAligned(sc) && WindowsOpen(sc) && BackgroundNonnegative(sc)
    && CandidateAligned(sc, candidate) && Admits(sc, EnergyOf(candidate))
  }

  /** The one reason for which the schedules of a verifiable scenario are rejected: the first check that
      fails. */
  ghost predicate SchedulesFail(
      sc: Scenario, rules: seq<Rule>, account: Account, candidate: Candidate, claimed: Option<int>,
      rejection: Rejection)
    requires WellFormed(rules, |sc.slots|) && |candidate| == |sc.tasks|
  {
    match rejection
    case ReferenceInvalid => !ReferencesAligned(sc)
    case Decomposition => ReferencesAligned(sc) && !BackgroundNonnegative(sc)
    case NotBillable(error) =>
      Admitted(sc, candidate) && Bill(sc, rules, account, EnergyOf(candidate)) == Err(error)
    case CostMismatch =>
      && Admitted(sc, candidate) && Bill(sc, rules, account, EnergyOf(candidate)).Ok? && claimed.Some?
      && claimed.value != TotalCents(Bill(sc, rules, account, EnergyOf(candidate)).value)
    case _ =>
      && ReferencesAligned(sc) && BackgroundNonnegative(sc)
      && ((exists k: nat :: FirstRejected(sc, candidate, k, rejection)) || CandidateCapFails(sc, candidate, rejection))
  }

  ghost predicate CandidateCapFails(sc: Scenario, candidate: Candidate, rejection: Rejection)
    requires ReferencesAligned(sc) && |candidate| == |sc.tasks|
  {
    && (forall t :: 0 <= t < |sc.tasks| ==> TaskVerifies(sc, candidate, t)) && Shaped(sc, EnergyOf(candidate))
    && rejection.Refused?
    && exists i: nat ::
         CapFails(sc, Profile(sc, EnergyOf(candidate)), Flexible(sc, EnergyOf(candidate)), i, rejection.reason)
  }

  lemma {:induction false} RejectionKinds(sc: Scenario, candidate: Candidate, k: nat, rejection: Rejection)
    requires |candidate| == |sc.tasks| && FirstRejected(sc, candidate, k, rejection)
    ensures rejection.NotAligned? || rejection.Refused?
  {
    hide TaskVerifies, Aligned, WindowOf, ExecutionFails;
  }

  lemma {:induction false} TasksVerify(sc: Scenario, candidate: Candidate)
    requires |candidate| == |sc.tasks| && ReferencesAligned(sc)
    ensures (forall t :: 0 <= t < |sc.tasks| ==> TaskVerifies(sc, candidate, t))
       <==> (&& CandidateAligned(sc, candidate) && WindowsOpen(sc) && Shaped(sc, EnergyOf(candidate))
             && forall t :: 0 <= t < |sc.tasks| ==>
                  Feasible(sc.slots, sc.tasks[t], WindowOf(sc.slots, sc.tasks[t]).value, EnergyOf(candidate)[t]))
  {
    hide Feasible, WindowOf;
    var es := EnergyOf(candidate);
    assert forall t :: 0 <= t < |sc.tasks| ==> es[t] == Energies(candidate[t]);
    if forall t :: 0 <= t < |sc.tasks| ==> TaskVerifies(sc, candidate, t) {
      forall t | 0 <= t < |sc.tasks|
        ensures Aligned(sc.slots, candidate[t]) && WindowOf(sc.slots, sc.tasks[t]).Some?
        ensures Feasible(sc.slots, sc.tasks[t], WindowOf(sc.slots, sc.tasks[t]).value, es[t])
      {
        assert TaskVerifies(sc, candidate, t);
      }
    }
  }

  /** Why a scenario cannot be verified at all. */
  ghost predicate ScenarioFails(sc: Scenario, rejection: Rejection) {
    match rejection
    case ProfileInvalid => !VerifierGrid(sc.slots)
    case AssetIdentityInvalid => VerifierGrid(sc.slots) && !Identified(sc)
    case OverlappingWindows => VerifierGrid(sc.slots) && !DisjointOccurrences(sc)
    case _ => false
  }

  /** The checks that do not look at the candidate. */
  method CheckScenario(sc: Scenario) returns (rejection: Option<Rejection>)
    requires Typed(sc)
    ensures rejection.None? <==> Verifiable(sc)
    ensures rejection.Some? ==> ScenarioFails(sc, rejection.value)
  {
    hide VerifierGrid, Identified, DisjointOccurrences, Typed;
    var grid := CheckVerifierGrid(sc.slots);
    if !grid {
      TypedHasSlots(sc);
      return Some(ProfileInvalid);
    }
    var clash := CheckIdentities(sc);
    if clash.Some? {
      return Some(AssetIdentityInvalid);
    }
    var disjoint := CheckDisjoint(sc, false);
    if !disjoint {
      return Some(OverlappingWindows);
    }
    return None;
  }

  /** The rest of the verification, with the schedules in the order of the tasks. */
  method VerifySchedules(sc: Scenario, rules: seq<Rule>, account: Account, candidate: Candidate, claimed: Option<int>)
    returns (r: Result<Verified, Rejection>)
    requires Typed(sc) && WellFormed(rules, |sc.slots|) && TypedCandidate(candidate) && |candidate| == |sc.tasks|
    requires Verifiable(sc)
    ensures r.Ok? <==> Verifies(sc, rules, account, candidate, claimed)
    ensures r.Err? ==> SchedulesFail(sc, rules, account, candidate, claimed, r.error)
    ensures r.Ok? ==>
      && r.value.energy == EnergyOf(candidate)
      && r.value.bill == Bill(sc, rules, account, EnergyOf(candidate)).value
      && r.value.objective == Score(sc, rules, account, EnergyOf(candidate))
  {
    hide VerifierGrid, Identified, DisjointOccurrences, Feasible, Typed, TypedCandidate, WellFormed, Replay, TotalCents,
      ColumnSum,
         TaskVerifies, Background, UnderCap, BackgroundNonnegative, ChangedCount, CompletionSum, StableScore;
    TypedHasSlots(sc);
    var background := ComputeBackground(sc);
    if background.Err? {
      return Err(background.error);
    }
    var flexible := CheckTasks(sc, candidate);
    TasksVerify(sc, candidate);
    if flexible.Err? {
      ghost var k: nat :| FirstRejected(sc, candidate, k, flexible.error);
      RejectionKinds(sc, candidate, k, flexible.error);
      return Err(flexible.error);
    }
    var es := EnergyOf(candidate);
    var profile := seq(|sc.slots|, i requires 0 <= i < |sc.slots| => background.value[i] + flexible.value[i]);
    assert profile == Profile(sc, es);
    var refusal := CheckCaps(sc, profile, flexible.value);
    assert refusal.None? <==> WithinCaps(sc, es);
    if refusal.Some? {
      ghost var i: nat :| CapFails(sc, profile, flexible.value, i, refusal.value);
      assert CandidateCapFails(sc, candidate, Refused(refusal.value));
      return Err(Refused(refusal.value));
    }
    var bill := ReplayCompiledTariff(rules, account, profile);
    if bill.Err? {
      return Err(NotBillable(bill.error));
    }
    var cost := BillTotal(bill.value);
    if claimed.Some? && claimed.value != cost {
      return Err(CostMismatch);
    }
    var objective := ComputeObjective(sc, es, cost);
    return Ok(Verified(es, bill.value, objective));
  }

  // ----- schedules submitted by occurrence id -----

  datatype OccurrenceSchedule = OccurrenceSchedule(id: nat, slots: seq<ScheduleSlot>)

  type Submission = seq<OccurrenceSchedule>

  function Ids(submission: Submission): set<nat> {
    set i | 0 <= i < |submission| :: submission[i].id
  }

  function TaskIds(sc: Scenario): set<nat> {
    set t | 0 <= t < |sc.tasks| :: sc.tasks[t].id
  }

  predicate OncePerId(submission: Submission) {
    forall i, j :: 0 <= i < j < |submission| ==> submission[i].id != submission[j].id
  }

  /** One schedule for every occurrence of the scenario, and none for anything else. */
  predicate Submits(sc: Scenario, submission: Submission) {
    OncePerId(submission) && Ids(submission) == TaskIds(sc)
  }

  /** The candidate holds, for each task, the schedule submitted under its id. */
  ghost predicate InTaskOrder(sc: Scenario, submission: Submission, candidate: Candidate) {
    && |candidate| == |sc.tasks|
    && forall t :: 0 <= t < |sc.tasks| ==> OccurrenceSchedule(sc.tasks[t].id, candidate[t]) in submission
  }

  predicate TypedSubmission(submission: Submission) {
    forall i, k :: 0 <= i < |submission| && 0 <= k < |submission[i].slots| ==> submission[i].slots[k].energy >= 0
  }

  /** The dictionary of `_schedule_map`. */
  method BuildMap(submission: Submission) returns (r: Option<map<nat, seq<ScheduleSlot>>>)
    ensures r.Some? <==> OncePerId(submission)
    ensures r.Some? ==> r.value.Keys == Ids(submission)
    ensures r.Some? ==> forall k :: k in r.value ==> OccurrenceSchedule(k, r.value[k]) in submission
  {
    var values: map<nat, seq<ScheduleSlot>> := map[];
    for i := 0 to |submission|
      invariant values.Keys == Ids(submission[..i]) && OncePerId(submission[..i])
      invariant forall k :: k in values ==> OccurrenceSchedule(k, values[k]) in submission
    {
      IdsSnoc(submission, i);
      if submission[i].id in values {
        return None;
      }
      assert submission[i] == OccurrenceSchedule(submission[i].id, submission[i].slots);
      values := values[submission[i].id := submission[i].slots];
    }
    assert submission[..|submission|] == submission;
    return Some(values);
  }

  lemma {:induction false} IdsSnoc(submission: Submission, i: nat)
    requires i < |submission|
    ensures Ids(submission[..i + 1]) == Ids(submission[..i]) + {submission[i].id}
    ensures submission[i].id in Ids(submission[..i]) ==> !OncePerId(submission)
    ensures submission[i].id !in Ids(submission[..i]) && OncePerId(submission[..i]) ==> OncePerId(submission[..i + 1])
  {
    var before, after := submission[..i], submission[..i + 1];
    assert after[i] == submission[i] && forall k :: 0 <= k < i ==> after[k] == before[k] == submission[k];
    assert forall k :: 0 <= k < i ==> before[k].id in Ids(before);
    forall x | x in Ids(after)
      ensures x in Ids(before) + {submission[i].id}
    {
      var k :| 0 <= k < |after| && after[k].id == x;
      assert k < i ==> before[k].id == x;
    }
    forall x | x in Ids(before)
      ensures x in Ids(after)
    {
      var k :| 0 <= k < |before| && before[k].id == x;
      assert after[k].id == x;
    }
    assert after[i].id in Ids(after);
  }

  /** `_schedule_map`, and the lookups that follow it. */
  method ScheduleMap(sc: Scenario, submission: Submission) returns (r: Result<Candidate, Rejection>)
    ensures r.Ok? <==> Submits(sc, submission)
    ensures r.Ok? ==> InTaskOrder(sc, submission, r.value)
    ensures r.Err? ==> r.error in {DuplicateSchedule, OccurrenceSetMismatch}
    ensures r == Err(DuplicateSchedule) <==> !OncePerId(submission)
    ensures r == Err(OccurrenceSetMismatch) <==> OncePerId(submission) && Ids(submission) != TaskIds(sc)
  {
    hide OncePerId, Ids;
    var values := BuildMap(submission);
    if values.None? {
      return Err(DuplicateSchedule);
    }
    if values.value.Keys != TaskIds(sc) {
      return Err(OccurrenceSetMismatch);
    }
    assert forall t :: 0 <= t < |sc.tasks| ==> sc.tasks[t].id in TaskIds(sc);
    return Ok(seq(|sc.tasks|, t requires 0 <= t < |sc.tasks| => values.value[sc.tasks[t].id]));
  }

  /** Distinct ids leave only one candidate in task order. */
  lemma {:induction false} OneTaskOrder(sc: Scenario, submission: Submission, a: Candidate, b: Candidate)
    requires Submits(sc, submission) && InTaskOrder(sc, submission, a) && InTaskOrder(sc, submission, b)
    ensures a == b
  {
    forall t | 0 <= t < |sc.tasks|
      ensures a[t] == b[t]
    {
      assert OccurrenceSchedule(sc.tasks[t].id, a[t]) in submission
        && OccurrenceSchedule(sc.tasks[t].id, b[t]) in submission;
      var i :| 0 <= i < |submission| && submission[i] == OccurrenceSchedule(sc.tasks[t].id, a[t]);
      var j :| 0 <= j < |submission| && submission[j] == OccurrenceSchedule(sc.tasks[t].id, b[t]);
      assert i < j || j < i || i == j;
    }
  }

  /** A candidate written out with the ids of its tasks. */
  function WithIds(sc: Scenario, candidate: Candidate): Submission
    requires |candidate| == |sc.tasks|
  {
    seq(|sc.tasks|, t requires 0 <= t < |sc.tasks| => OccurrenceSchedule(sc.tasks[t].id, candidate[t]))
  }

  lemma {:induction false} WithIdsSubmits(sc: Scenario, candidate: Candidate)
    requires |candidate| == |sc.tasks| && Identified(sc)
    ensures Submits(sc, WithIds(sc, candidate)) && InTaskOrder(sc, WithIds(sc, candidate), candidate)
  {
    var submission := WithIds(sc, candidate);
    assert forall t :: 0 <= t < |sc.tasks| ==> submission[t] == OccurrenceSchedule(sc.tasks[t].id, candidate[t]);
    forall x | x in TaskIds(sc)
      ensures x in Ids(submission)
    {
      var t :| 0 <= t < |sc.tasks| && sc.tasks[t].id == x;
      assert submission[t].id == x;
    }
  }

  /** Why a submission is rejected: the scenario, the set of ids, or the schedules in task order. */
  ghost predicate SubmissionFails(
      sc: Scenario, rules: seq<Rule>, account: Account, submission: Submission, claimed: Option<int>,
      rejection: Rejection)
    requires WellFormed(rules, |sc.slots|)
  {
    || ScenarioFails(sc, rejection)
    || (&& Verifiable(sc)
        && match rejection
           case DuplicateSchedule => !OncePerId(submission)
           case OccurrenceSetMismatch => OncePerId(submission) && Ids(submission) != TaskIds(sc)
           case _ => exists candidate ::
             && InTaskOrder(sc, submission, candidate) && |candidate| == |sc.tasks|
             && SchedulesFail(sc, rules, account, candidate, claimed, rejection))
  }

  /** `verify_candidate_schedule`: accepted exactly when there is one schedule for each occurrence and they
      verify together; the objective is then the score recomputed from the schedules alone. */
  method VerifyCandidate(sc: Scenario, rules: seq<Rule>, account: Account, submission: Submission, claimed: Option<int>)
    returns (r: Result<Verified, Rejection>)
    requires Typed(sc) && WellFormed(rules, |sc.slots|) && TypedSubmission(submission)
    ensures forall candidate :: InTaskOrder(sc, submission, candidate) ==>
      && (r.Ok? <==> Submits(sc, submission) && Verifies(sc, rules, account, candidate, claimed))
      && (r.Ok? ==>
            && r.value.energy == EnergyOf(candidate)
            && r.value.bill == Bill(sc, rules, account, EnergyOf(candidate)).value
            && r.value.objective == Score(sc, rules, account, EnergyOf(candidate)))
    ensures r.Ok? ==> Submits(sc, submission)
    ensures r.Err? ==> SubmissionFails(sc, rules, account, submission, claimed, r.error)
  {
    hide SchedulesFail, VerifierGrid, Identified, DisjointOccurrences, Typed, TypedSubmission, WellFormed, Score, Bill,
      Admits,
      CandidateAligned,
         BackgroundNonnegative, ReferencesAligned, WindowsOpen, EnergyOf, Submits, InTaskOrder;
    var rejection := CheckScenario(sc);
    if rejection.Some? {
      return Err(rejection.value);
    }
    var mapped := ScheduleMap(sc, submission);
    if mapped.Err? {
      return Err(mapped.error);
    }
    MappedIsTyped(sc, submission, mapped.value);
    r := VerifySchedules(sc, rules, account, mapped.value, claimed);
    if r.Err? {
      ScheduleReasons(sc, rules, account, mapped.value, claimed, r.error);
    }
    forall candidate | InTaskOrder(sc, submission, candidate)
      ensures candidate == mapped.value
    {
      OneTaskOrder(sc, submission, candidate, mapped.value);
    }
  }

  lemma {:induction false} ScheduleReasons(
      sc: Scenario, rules: seq<Rule>, account: Account, candidate: Candidate, claimed: Option<int>,
      rejection: Rejection)
    requires WellFormed(rules, |sc.slots|) && |candidate| == |sc.tasks|
    requires SchedulesFail(sc, rules, account, candidate, claimed, rejection)
    ensures !rejection.DuplicateSchedule? && !rejection.OccurrenceSetMismatch?
  {
    hide WellFormed, ReferencesAligned, BackgroundNonnegative, Admitted, Bill, FirstRejected;
    if k: nat :| FirstRejected(sc, candidate, k, rejection) {
      RejectionKinds(sc, candidate, k, rejection);
    }
  }

  lemma {:induction false} MappedIsTyped(sc: Scenario, submission: Submission, candidate: Candidate)
    requires TypedSubmission(submission) && InTaskOrder(sc, submission, candidate)
    ensures TypedCandidate(candidate) && |candidate| == |sc.tasks|
  {
    forall t, k | 0 <= t < |candidate| && 0 <= k < |candidate[t]|
      ensures candidate[t][k].energy >= 0
    {
      var i :| 0 <= i < |submission| && submission[i] == OccurrenceSchedule(sc.tasks[t].id, candidate[t]);
      assert submission[i].slots[k].energy >= 0;
    }
  }

  lemma {:induction false} TypedHasSlots(sc: Scenario)
    requires Typed(sc)
    ensures |sc.slots| > 0
  {
  }

  method BillTotal(lines: seq<Line>) returns (total: int)
    ensures total == TotalCents(lines)
  {
    total := 0;
    for i := 0 to |lines|
      invariant total == TotalCents(lines[..i])
    {
      assert lines[..i + 1][..i] == lines[..i];
      total := total + lines[i].cents;
    }
    assert lines[..|lines|] == lines;
  }

  // ----- the constant cost of the lowering -----

  /** `variable_reference_keys` and `constant_cost`: the lines of the reference bill that the lowering
      replaces by variables are taken out of its total. */
  method ComputeConstant(rules: seq<Rule>, lines: seq<Line>) returns (constant: int)
    ensures constant == ConstantCost(rules, lines)
  {
    hide TotalCents;
    var total := BillTotal(lines);
    var variable := 0;
    for i := 0 to |lines|
      invariant variable == CentsWithKeys(rules, lines[..i])
    {
      assert lines[..i + 1][..i] == lines[..i];
      var matched := MatchesVariableKey(rules, lines[i]);
      if matched {
        variable := variable + lines[i].cents;
      }
    }
    assert lines[..|lines|] == lines;
    constant := total - variable;
  }

  method MatchesVariableKey(rules: seq<Rule>, line: Line) returns (matched: bool)
    ensures matched <==> VariableKey(rules, line.rule, line.key)
  {
    hide IsVariableKey;
    for i := 0 to |rules|
      invariant forall k :: 0 <= k < i ==> !(rules[k].id == line.rule && IsVariableKey(rules[k], line.key))
    {
      if rules[i].id == line.rule {
        var own := RuleHasKey(rules[i], line.key);
        if own {
          return true;
        }
      }
    }
    return false;
  }

  method RuleHasKey(rule: Rule, key: string) returns (has: bool)
    ensures has <==> IsVariableKey(rule, key)
  {
    hide PeriodName;
    if !IsTimeCharge(rule) {
      return false;
    }
    for j := 0 to |rule.charge.rates|
      invariant forall k :: 0 <= k < j ==> key != rule.key + PeriodName(rule.charge.rates[k].period)
    {
      if key == rule.key + PeriodName(rule.charge.rates[j].period) {
        return true;
      }
    }
    return false;
  }

  // ----- the exact optimizer -----

  /** A matrix written out as schedules. */
  function CandidateOf(sc: Scenario, es: Matrix): (candidate: Candidate)
    requires Shaped(sc, es)
    ensures |candidate| == |sc.tasks|
  {
    seq(|es|, t requires 0 <= t < |es| =>
      seq(|sc.slots|, i requires 0 <= i < |sc.slots| =>
        ScheduleSlot(sc.slots[i].start, sc.slots[i].duration, es[t][i])))
  }

  function ReferenceCandidate(sc: Scenario): (candidate: Candidate)
    ensures |candidate| == |sc.tasks|
  {
    seq(|sc.tasks|, t requires 0 <= t < |sc.tasks| => sc.tasks[t].reference)
  }

  datatype OptimizeError =
    | ReferenceRejected(rejection: Rejection)
    | NotLowered(error: LoweringError)
    | UnverifiedIncumbent(reason: Rejection)
    | ObjectiveMismatch

  datatype Exact = Exact(status: SearchStatus, proved: nat, published: Matrix, objective: Objective)

  lemma {:induction false} ReferenceCandidateIsReference(sc: Scenario)
    ensures EnergyOf(ReferenceCandidate(sc)) == References(sc)
    ensures Typed(sc) ==> TypedCandidate(ReferenceCandidate(sc))
    ensures CandidateAligned(sc, ReferenceCandidate(sc)) <==> ReferencesAligned(sc)
  {
    hide Aligned;
    var candidate := ReferenceCandidate(sc);
    assert forall t :: 0 <= t < |sc.tasks| ==> candidate[t] == sc.tasks[t].reference;
    if Typed(sc) {
      forall t, i | 0 <= t < |candidate| && 0 <= i < |candidate[t]|
        ensures candidate[t][i].energy >= 0
      {
        assert TypedTask(sc.tasks[t]);
      }
    }
  }

  lemma {:induction false} CandidateOfMatrix(sc: Scenario, es: Matrix)
    requires Shaped(sc, es)
    ensures EnergyOf(CandidateOf(sc, es)) == es && CandidateAligned(sc, CandidateOf(sc, es))
    ensures (forall t, i :: 0 <= t < |es| && 0 <= i < |es[t]| ==> es[t][i] >= 0) ==> TypedCandidate(CandidateOf(sc, es))
  {
    var candidate := CandidateOf(sc, es);
    forall t | 0 <= t < |es|
      ensures Energies(candidate[t]) == es[t]
    {
    }
  }

  lemma {:induction false} ReferenceReady(sc: Scenario, rules: seq<Rule>, account: Account)
    requires Typed(sc) && WellFormed(rules, |sc.slots|) && UniqueIds(rules)
    requires Verifies(sc, rules, account, ReferenceCandidate(sc), None)
    ensures Ready(sc, rules, account) && Verifiable(sc)
  {
    hide Admits, Replay, WellFormed, UniqueIds, Typed, VerifierGrid, BackgroundNonnegative;
    ReferenceCandidateIsReference(sc);
  }

  /** A solver incumbent passes the verification that follows every stage. */
  lemma {:induction false} IncumbentVerifies(sc: Scenario, rules: seq<Rule>, account: Account, a: Assignment)
    requires Ready(sc, rules, account) && Verifiable(sc) && Satisfies(a, Lowered(sc, rules))
    ensures TypedCandidate(CandidateOf(sc, Extract(a, sc)))
    ensures EnergyOf(CandidateOf(sc, Extract(a, sc))) == Extract(a, sc)
    ensures Verifies(sc, rules, account, CandidateOf(sc, Extract(a, sc)), Some(StageValues(a, sc, rules, account).cost))
    ensures Bill(sc, rules, account, Extract(a, sc)).Ok?
    ensures StageValues(a, sc, rules, account) == Score(sc, rules, account, Extract(a, sc))
  {
    hide Replay, WellFormed, UniqueIds, Typed, VerifierGrid, BackgroundNonnegative, Satisfies, Lowered, StageValues,
      Extract, WithinCaps,
         Executes, TypedCandidate, CandidateOf, CandidateAligned, TotalCents, ChangedCount, CompletionSum, StableScore;
    LoweringIsSound(a, sc, rules, account);
    CandidateOfMatrix(sc, Extract(a, sc));
  }

  lemma {:induction false} SubmittedIsTyped(sc: Scenario, candidate: Candidate)
    requires |candidate| == |sc.tasks| && TypedCandidate(candidate)
    ensures TypedSubmission(WithIds(sc, candidate))
  {
  }

  /** Under the ids of its tasks a candidate verifies exactly when it verifies in their order. */
  method VerifyInOrder(sc: Scenario, rules: seq<Rule>, account: Account, candidate: Candidate, claimed: Option<int>)
    returns (r: Result<Verified, Rejection>)
    requires Typed(sc) && WellFormed(rules, |sc.slots|) && TypedCandidate(candidate) && |candidate| == |sc.tasks|
    ensures r.Ok? <==> Verifies(sc, rules, account, candidate, claimed)
    ensures r.Ok? ==>
      && r.value.energy == EnergyOf(candidate)
      && r.value.bill == Bill(sc, rules, account, EnergyOf(candidate)).value
      && r.value.objective == Score(sc, rules, account, EnergyOf(candidate))
  {
    hide VerifierGrid, Identified, DisjointOccurrences, Typed, TypedSubmission, TypedCandidate, WellFormed, Score, Bill,
      Admits,
         CandidateAligned, BackgroundNonnegative, ReferencesAligned, WindowsOpen, EnergyOf, Submits, InTaskOrder,
           WithIds;
    SubmittedIsTyped(sc, candidate);
    r := VerifyCandidate(sc, rules, account, WithIds(sc, candidate), claimed);
    WithIdsInOrder(sc, candidate);
    if Identified(sc) {
      WithIdsSubmits(sc, candidate);
    }
  }

  lemma {:induction false} WithIdsInOrder(sc: Scenario, candidate: Candidate)
    requires |candidate| == |sc.tasks|
    ensures InTaskOrder(sc, WithIds(sc, candidate), candidate)
  {
    var submission := WithIds(sc, candidate);
    assert forall t :: 0 <= t < |sc.tasks| ==> submission[t] == OccurrenceSchedule(sc.tasks[t].id, candidate[t]);
  }

  /** `_verify_solver_incumbent`: the candidate read from an assignment must verify at the cost the
      solver claims, and all four solver values must equal the recomputed objective. */
  method VerifySolverIncumbent(sc: Scenario, rules: seq<Rule>, account: Account, stages: seq<Linear>, a: Assignment)
    returns (r: Result<Verified, OptimizeError>)
    requires Typed(sc) && WellFormed(rules, |sc.slots|) && |stages| == 4
      && TypedCandidate(CandidateOf(sc, Extract(a, sc)))
    ensures r.Ok? <==>
      (&& Verifies(sc, rules, account, CandidateOf(sc, Extract(a, sc)), Some(Eval(a, stages[0])))
       && Objective(Eval(a, stages[0]), Eval(a, stages[1]), Eval(a, stages[2]), Eval(a, stages[3]))
          == Score(sc, rules, account, EnergyOf(CandidateOf(sc, Extract(a, sc)))))
    ensures r.Ok? ==>
      && r.value.energy == EnergyOf(CandidateOf(sc, Extract(a, sc)))
      && r.value.objective == Score(sc, rules, account, EnergyOf(CandidateOf(sc, Extract(a, sc))))
  {
    hide Typed, WellFormed, TypedCandidate, Extract, Eval, Score, Verifies, EnergyOf, CandidateOf;
    var candidate := CandidateOf(sc, Extract(a, sc));
    var verified := VerifyInOrder(sc, rules, account, candidate, Some(Eval(a, stages[0])));
    if verified.Err? {
      return Err(UnverifiedIncumbent(verified.error));
    }
    var values := Objective(Eval(a, stages[0]), Eval(a, stages[1]), Eval(a, stages[2]), Eval(a, stages[3]));
    if values != verified.value.objective {
      return Err(ObjectiveMismatch);
    }
    return Ok(verified.value);
  }

  /** The four stages: each is minimised over the model so far, its incumbent is verified, and a proved
      optimum is added to the model before the next. Verification cannot fail here, so no error is
      propagated. */
  method SearchStages(solve: Solver, model: CpModel, sc: Scenario, rules: seq<Rule>, account: Account,
      stages: seq<Linear>)
    returns (status: SearchStatus, incumbent: Option<Verified>, proved: nat)
    requires HonestSolver(solve) && Ready(sc, rules, account) && Verifiable(sc)
    requires stages == StagesOf(sc, rules, account) && model.constraints == Lowered(sc, rules)
    modifies model
    ensures var s := ExactSearch(solve, sc, rules, account);
            status == s.status && proved == s.proved && Tracked(sc, rules, account, incumbent, s.incumbent)
  {
    hide HonestSolver, Verifiable, Stages, Constant, Lowered, Satisfies, Eval, StageValues, Extract, Tracked, Admits,
      WellFormed, Replay,
         UniqueIds, Typed, ReferencesAligned, WindowsOpen, BackgroundNonnegative, Verifies, Score, TypedCandidate;
    ghost var found: Option<Assignment> := None;
    NothingTracked(sc, rules, account);
    ghost var search := ExactSearch(solve, sc, rules, account);
    incumbent, proved := None, 0;
    for k := 0 to 4
      invariant proved == k && Tracked(sc, rules, account, incumbent, found)
      invariant search == RunStages(solve, model.constraints, stages, k, found)
      invariant forall b :: Satisfies(b, model.constraints) ==> Satisfies(b, Lowered(sc, rules))
    {
      var answer := solve(model.constraints, stages[k]);
      if answer.Optimal? || answer.Found? {
        var a := if answer.Optimal? then answer.best else answer.found;
        HonestAnswer(solve, model.constraints, stages[k]);
        IncumbentPasses(sc, rules, account, stages, a);
        var verified := VerifySolverIncumbent(sc, rules, account, stages, a);
        incumbent, found := Some(verified.value), Some(a);
        VerifiedIsTracked(sc, rules, account, verified.value, a);
      }
      if answer.Optimal? {
        proved := k + 1;
        forall b | Satisfies(b, model.constraints + [FixedAt(stages[k], Eval(answer.best, stages[k]))])
          ensures Satisfies(b, Lowered(sc, rules))
        {
          FixedMeaning(b, model.constraints, stages[k], Eval(answer.best, stages[k]));
        }
        model.Add(FixedAt(stages[k], Eval(answer.best, stages[k])));
        continue;
      }
      if answer.Found? {
        return BestFound, incumbent, proved;
      } else if answer.Unknown? {
        TrackedTogether(sc, rules, account, incumbent, found);
        return if incumbent.Some? then BestFound else NothingFound, incumbent, proved;
      } else if answer.Invalid? {
        return ModelInvalid, incumbent, proved;
      } else {
        return ContractViolation, incumbent, proved;
      }
    }
    return AllOptimal, incumbent, proved;
  }

  /** The verified incumbent is the schedule of the last assignment found. */
  ghost predicate Tracked(sc: Scenario, rules: seq<Rule>, account: Account, incumbent: Option<Verified>,
      found: Option<Assignment>)
    requires Ready(sc, rules, account)
  {
    if found.None? then incumbent.None? else
      && incumbent.Some? && incumbent.value.energy == Extract(found.value, sc)
      && Admits(sc, incumbent.value.energy) && Bill(sc, rules, account, incumbent.value.energy).Ok?
      && incumbent.value.objective == Score(sc, rules, account, incumbent.value.energy)
  }

  lemma {:induction false} NothingTracked(sc: Scenario, rules: seq<Rule>, account: Account)
    requires Ready(sc, rules, account)
    ensures Tracked(sc, rules, account, None, None)
  {
    hide Ready, Admits;
  }

  lemma {:induction false} TrackedTogether(sc: Scenario, rules: seq<Rule>, account: Account,
      incumbent: Option<Verified>, found: Option<Assignment>)
    requires Ready(sc, rules, account) && Tracked(sc, rules, account, incumbent, found)
    ensures incumbent.Some? <==> found.Some?
  {
    hide Ready, Admits, Score, Extract;
  }

  lemma {:induction false} HonestAnswer(solve: Solver, cs: seq<Constraint>, objective: Linear)
    requires HonestSolver(solve)
    ensures Honest(cs, objective, solve(cs, objective))
  {
  }

  lemma {:induction false} IncumbentPasses(sc: Scenario, rules: seq<Rule>, account: Account, stages: seq<Linear>,
      a: Assignment)
    requires Ready(sc, rules, account) && Verifiable(sc) && Satisfies(a, Lowered(sc, rules))
    requires stages == StagesOf(sc, rules, account)
    ensures Typed(sc) && TypedCandidate(CandidateOf(sc, Extract(a, sc)))
    ensures Verifies(sc, rules, account, CandidateOf(sc, Extract(a, sc)), Some(Eval(a, stages[0])))
    ensures Objective(Eval(a, stages[0]), Eval(a, stages[1]), Eval(a, stages[2]), Eval(a, stages[3]))
         == Score(sc, rules, account, EnergyOf(CandidateOf(sc, Extract(a, sc))))
  {
    hide Satisfies, Lowered, Verifies, Extract, CandidateOf, TypedCandidate, EnergyOf, Eval, Score, Admits, WellFormed,
      UniqueIds, Replay,
         Verifiable;
    IncumbentVerifies(sc, rules, account, a);
  }

  lemma {:induction false} VerifiedIsTracked(sc: Scenario, rules: seq<Rule>, account: Account, verified: Verified,
      a: Assignment)
    requires Ready(sc, rules, account) && Verifiable(sc) && Satisfies(a, Lowered(sc, rules))
    requires verified.energy == EnergyOf(CandidateOf(sc, Extract(a, sc)))
    requires Bill(sc, rules, account, verified.energy).Ok? ==>
      verified.objective == Score(sc, rules, account, verified.energy)
    ensures Tracked(sc, rules, account, Some(verified), Some(a))
  {
    hide Satisfies, Lowered, Extract, CandidateOf, TypedCandidate, EnergyOf, Eval, Score, Admits, WellFormed, UniqueIds,
      Replay,
         Verifiable, Verifies;
    IncumbentVerifies(sc, rules, account, a);
    LoweringIsSound(a, sc, rules, account);
  }

  /** The reference itself has a start, so every fixed shape has one. */
  lemma {:induction false} ReadyStarts(sc: Scenario, rules: seq<Rule>, account: Account)
    requires Ready(sc, rules, account)
    ensures StartsExist(sc)
  {
    hide WithinCaps, Replay, WellFormed, UniqueIds, Typed, WindowOf, BackgroundNonnegative, Placed, Sum;
    forall t | 0 <= t < |sc.tasks| && sc.tasks[t].spec.FixedShape?
      ensures StartCount(sc.tasks[t].spec.shape, WindowAt(sc, t)) > 0
    {
      assert Feasible(sc.slots, sc.tasks[t], WindowAt(sc, t), References(sc)[t]);
    }
  }

  /** `optimize_exact`: it fails only when the reference does not verify or a time charge cannot be
      lowered; an incumbent is never rejected. Otherwise it publishes the selected schedule of the
      staged search with its recomputed objective. */
  method OptimizeExact(sc: Scenario, rules: seq<Rule>, account: Account, solve: Solver)
      returns (r: Result<Exact, OptimizeError>)
    requires Typed(sc) && WellFormed(rules, |sc.slots|) && UniqueIds(rules) && HonestSolver(solve)
    ensures r.Ok? <==> Verifies(sc, rules, account, ReferenceCandidate(sc), None) && Lowerable(rules, |sc.slots|)
    ensures r.Err? ==> r.error.ReferenceRejected? || r.error.NotLowered?
    ensures r.Err? ==>
      (r.error.ReferenceRejected? <==> !Verifies(sc, rules, account, ReferenceCandidate(sc), None))
    ensures r.Ok? ==>
      && Ready(sc, rules, account)
      && r.value.status == ExactSearch(solve, sc, rules, account).status
      && r.value.proved == ExactSearch(solve, sc, rules, account).proved
      && r.value.published == Published(solve, sc, rules, account)
      && Bill(sc, rules, account, r.value.published).Ok?
      && r.value.objective == Score(sc, rules, account, r.value.published)
  {
    hide HonestSolver, Verifiable, Stages, Lowered, Satisfies, Eval, Extract, Admits, WellFormed, Replay, RunStages,
      ConstantCost,
         UniqueIds, Typed, ReferencesAligned, WindowsOpen, BackgroundNonnegative, Verifies, Score, TypedCandidate,
           Lowerable, StartsExist;
    ReferenceCandidateIsReference(sc);
    var reference := VerifyInOrder(sc, rules, account, ReferenceCandidate(sc), None);
    if reference.Err? {
      return Err(ReferenceRejected(reference.error));
    }
    ReferenceReady(sc, rules, account);
    ReadyStarts(sc, rules, account);
    var compiled := CompileScenarioModel(sc, rules);
    if compiled.Err? {
      return Err(NotLowered(compiled.error));
    }
    var constant := ComputeConstant(rules, reference.value.bill);
    var stages := Stages(sc, rules, constant);
    var status, incumbent, proved := SearchStages(solve, compiled.value, sc, rules, account, stages);
    IncumbentsVerify(solve, sc, rules, account);
    if incumbent.Some? && Less(incumbent.value.objective, reference.value.objective) {
      return Ok(Exact(status, proved, incumbent.value.energy, incumbent.value.objective));
    }
    return Ok(Exact(status, proved, reference.value.energy, reference.value.objective));
  }
}
