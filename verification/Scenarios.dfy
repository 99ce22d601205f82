/** Historical flexible-load scenarios: what a schedule must satisfy, and how the measured profile is
  taken apart (packages/optimizer/ratereplay_optimizer/models.py and scenario.py).

  A task is one occurrence together with the execution rule and mode of its load, which it names by
  position. Instants are microseconds. */
module Scenarios {
  import opened Results
  import opened Sums

  const SECOND := 1_000_000
  const WATT_SECONDS_PER_WATT_HOUR := 3_600

  datatype Slot = Slot(start: int, duration: int, measured: int)

  datatype ScheduleSlot = ScheduleSlot(start: int, duration: int, energy: int)

  datatype Spec = Interruptible(maximumPower: int, minimumPower: int) | FixedShape(shape: seq<int>)

  datatype Mode = ShiftExisting | HistoricalAddition

  datatype Load = Load(id: nat, asset: string)

  datatype Task = Task(id: nat, load: nat, mode: Mode, spec: Spec, required: int, earliest: int, deadline: int,
                       reference: seq<ScheduleSlot>)

  datatype Scenario = Scenario(slots: seq<Slot>, loads: seq<Load>, tasks: seq<Task>, siteCap: Option<int>,
    flexibleCap: Option<int>)

  /** Energy of every task in every slot, in the order of the tasks. */
  type Matrix = seq<seq<int>>

  // ----- what the typed contracts already guarantee -----

  predicate TypedSpec(spec: Spec) {
    match spec
    case Interruptible(maximum, minimum) => 0 <= minimum <= maximum && maximum > 0
    case FixedShape(shape) => |shape| > 0 && (forall i :: 0 <= i < |shape| ==> shape[i] >= 0) && Sum(shape) > 0
  }

  predicate TypedTask(task: Task) {
    && TypedSpec(task.spec) && task.required > 0 && task.earliest < task.deadline
    && forall i :: 0 <= i < |task.reference| ==> task.reference[i].energy >= 0
  }

  predicate Typed(sc: Scenario) {
    && |sc.slots| > 0 && |sc.tasks| > 0
    && (forall i :: 0 <= i < |sc.slots| ==> sc.slots[i].duration > 0 && sc.slots[i].measured >= 0)
    && (forall t :: 0 <= t < |sc.tasks| ==> TypedTask(sc.tasks[t]) && sc.tasks[t].load < |sc.loads|)
    && (sc.siteCap.Some? ==> sc.siteCap.value > 0)
    && (sc.flexibleCap.Some? ==> sc.flexibleCap.value > 0)
  }

  // ----- identities -----

  /** No load, asset or occurrence is named twice. */
  ghost predicate Identified(sc: Scenario) {
    && (forall i, j :: 0 <= i < j < |sc.loads| ==>
      sc.loads[i].id != sc.loads[j].id && sc.loads[i].asset != sc.loads[j].asset)
    && (forall t, u :: 0 <= t < u < |sc.tasks| ==> sc.tasks[t].id != sc.tasks[u].id)
  }

  /** Two half-open windows do not overlap. */
  predicate Apart(a: Task, b: Task) {
    a.deadline <= b.earliest || b.deadline <= a.earliest
  }

  /** No two occurrences of one load overlap. */
  ghost predicate DisjointOccurrences(sc: Scenario) {
    forall t, u :: 0 <= t < u < |sc.tasks| && sc.tasks[t].load == sc.tasks[u].load ==> Apart(sc.tasks[t], sc.tasks[u])
  }

  // ----- the slot grid -----

  function End(slot: Slot): int {
    slot.start + slot.duration * SECOND
  }

  predicate UniformSlots(slots: seq<Slot>) {
    forall i :: 0 <= i < |slots| ==> slots[i].duration == slots[0].duration
  }

  predicate ContiguousSlots(slots: seq<Slot>) {
    forall i :: 0 < i < |slots| ==> slots[i].start == End(slots[i - 1])
  }

  /** The last of the first `n` slots that starts at `t`. */
  function StartIndex(slots: seq<Slot>, n: nat, t: int): Option<nat>
    requires n <= |slots|
  {
    if n == 0 then None else if slots[n - 1].start == t then Some(n - 1) else StartIndex(slots, n - 1, t)
  }

  /** The boundary table: slot starts, then the end of the profile, which is written last. */
  function BoundaryIndex(slots: seq<Slot>, t: int): Option<nat> {
    if |slots| > 0 && End(slots[|slots| - 1]) == t then Some(|slots|) else StartIndex(slots, |slots|, t)
  }

  datatype Window = Window(first: nat, last: nat)

  /** The half-open range of slots an occurrence may use. */
  function WindowOf(slots: seq<Slot>, task: Task): Option<Window> {
    match (BoundaryIndex(slots, task.earliest), BoundaryIndex(slots, task.deadline))
    case (Some(first), Some(last)) => if first < last then Some(Window(first, last)) else None
    case _ => None
  }

  lemma {:induction false} StartIndexBounds(slots: seq<Slot>, n: nat, t: int)
    requires n <= |slots|
    ensures StartIndex(slots, n, t).Some? ==> StartIndex(slots, n, t).value < n
    ensures StartIndex(slots, n, t).Some? ==> slots[StartIndex(slots, n, t).value].start == t
  {
    if n > 0 {
      StartIndexBounds(slots, n - 1, t);
    }
  }

  lemma {:induction false} WindowBounds(slots: seq<Slot>, task: Task)
    ensures WindowOf(slots, task).Some? ==>
      WindowOf(slots, task).value.first < WindowOf(slots, task).value.last <= |slots|
  {
    StartIndexBounds(slots, |slots|, task.earliest);
    StartIndexBounds(slots, |slots|, task.deadline);
  }

  // ----- the same, by the clock -----

  /** The instant of a boundary. */
  function Instant(slots: seq<Slot>, index: nat): int
    requires |slots| > 0 && index <= |slots|
  {
    if index == |slots| then End(slots[|slots| - 1]) else slots[index].start
  }

  predicate PositiveDurations(slots: seq<Slot>) {
    forall i :: 0 <= i < |slots| ==> slots[i].duration > 0
  }

  lemma {:induction false} StartsIncrease(slots: seq<Slot>, i: nat, j: nat)
    requires ContiguousSlots(slots) && PositiveDurations(slots) && i < j < |slots|
    ensures End(slots[i]) <= slots[j].start
  {
    if i + 1 < j {
      StartsIncrease(slots, i, j - 1);
    }
  }

  lemma {:induction false} InstantsIncrease(slots: seq<Slot>, i: nat, j: nat)
    requires ContiguousSlots(slots) && PositiveDurations(slots) && i < j <= |slots|
    ensures Instant(slots, i) < Instant(slots, j)
  {
    if j < |slots| {
      StartsIncrease(slots, i, j);
    } else if i < |slots| - 1 {
      StartsIncrease(slots, i, |slots| - 1);
    }
  }

  lemma {:induction false} StartIsFound(slots: seq<Slot>, n: nat, i: nat)
    requires ContiguousSlots(slots) && PositiveDurations(slots) && i < n <= |slots|
    ensures StartIndex(slots, n, slots[i].start) == Some(i)
  {
    if i < n - 1 {
      StartsIncrease(slots, i, n - 1);
      StartIsFound(slots, n - 1, i);
    }
  }

  /** On contiguous slots the boundary table is the inverse of the instants. */
  lemma {:induction false} InstantIsBoundary(slots: seq<Slot>, index: nat, t: int)
    requires ContiguousSlots(slots) && PositiveDurations(slots) && |slots| > 0 && index <= |slots|
    ensures BoundaryIndex(slots, t) == Some(index) <==> Instant(slots, index) == t
  {
    StartIndexBounds(slots, |slots|, t);
    if index < |slots| {
      StartIsFound(slots, |slots|, index);
      InstantsIncrease(slots, index, |slots|);
    }
  }

  /** On contiguous slots an occurrence has the window that begins and ends at its own instants. */
  lemma {:induction false} WindowIsExact(slots: seq<Slot>, task: Task, w: Window)
    requires ContiguousSlots(slots) && PositiveDurations(slots) && |slots| > 0
    ensures WindowOf(slots, task) == Some(w) <==>
            w.first < w.last <= |slots| && Instant(slots, w.first) == task.earliest
              && Instant(slots, w.last) == task.deadline
  {
    hide BoundaryIndex, Instant, ContiguousSlots;
    WindowBounds(slots, task);
    if w.first <= |slots| && w.last <= |slots| {
      InstantIsBoundary(slots, w.first, task.earliest);
      InstantIsBoundary(slots, w.last, task.deadline);
    }
  }

  /** Energy inside a window is used between its two instants. */
  lemma {:induction false} UsedInTime(slots: seq<Slot>, w: Window, i: nat)
    requires ContiguousSlots(slots) && PositiveDurations(slots) && w.first <= i < w.last <= |slots|
    ensures Instant(slots, w.first) <= slots[i].start && End(slots[i]) <= Instant(slots, w.last)
  {
    if w.first < i {
      StartsIncrease(slots, w.first, i);
    }
    if i + 1 < w.last && w.last < |slots| {
      StartsIncrease(slots, i, w.last);
    } else if i + 1 < w.last {
      StartsIncrease(slots, i, |slots| - 1);
    }
  }

  // ----- one task's energy vector -----

  /** A fixed shape written at slot `first` of an otherwise empty profile. */
  function Placed(shape: seq<int>, first: nat, slots: nat): seq<int> {
    seq(slots, i requires 0 <= i < slots => if first <= i < first + |shape| then shape[i - first] else 0)
  }

  predicate WithinPower(spec: Spec, slot: Slot, amount: int)
    requires spec.Interruptible?
  {
    && amount * WATT_SECONDS_PER_WATT_HOUR <= spec.maximumPower * slot.duration
    && (amount > 0 ==> amount * WATT_SECONDS_PER_WATT_HOUR >= spec.minimumPower * slot.duration)
  }

  predicate Executes(slots: seq<Slot>, spec: Spec, w: Window, e: seq<int>)
    requires |e| == |slots|
  {
    match spec
    case Interruptible(_, _) =>
      forall i :: 0 <= i < |e| ==> (e[i] > 0 ==> w.first <= i < w.last) && WithinPower(spec, slots[i], e[i])
    case FixedShape(shape) =>
      exists c :: w.first <= c <= w.last - |shape| && e == Placed(shape, c, |slots|)
  }

  /** The vector delivers the required energy, inside the window, as the load can execute it. */
  predicate Feasible(slots: seq<Slot>, task: Task, w: Window, e: seq<int>) {
    && |e| == |slots|
    && (forall i :: 0 <= i < |e| ==> e[i] >= 0)
    && Sum(e) == task.required
    && Executes(slots, task.spec, w, e)
  }

  // ----- the reference and the background -----

  function Energies(schedule: seq<ScheduleSlot>): seq<int> {
    seq(|schedule|, i requires 0 <= i < |schedule| => schedule[i].energy)
  }

  /** A schedule that names every slot of the profile, in order. */
  predicate Aligned(slots: seq<Slot>, schedule: seq<ScheduleSlot>) {
    && |schedule| == |slots|
    && forall i :: 0 <= i < |slots| ==> schedule[i].start == slots[i].start && schedule[i].duration == slots[i].duration
  }

  /** An aligned schedule is the profile's slots with energies written into them. */
  lemma {:induction false} AlignedExactly(slots: seq<Slot>, schedule: seq<ScheduleSlot>)
    ensures Aligned(slots, schedule) <==>
            && |schedule| == |slots|
            && schedule == seq(|slots|, i requires 0 <= i < |slots| && |schedule| == |slots| =>
                 ScheduleSlot(slots[i].start, slots[i].duration, Energies(schedule)[i]))
  {
    if |schedule| == |slots| {
      var written := seq(|slots|, i requires 0 <= i < |slots| && |schedule| == |slots| =>
        ScheduleSlot(slots[i].start, slots[i].duration, Energies(schedule)[i]));
      if schedule == written {
        assert forall i :: 0 <= i < |slots| ==> schedule[i] == written[i];
      }
    }
  }

  predicate ReferencesAligned(sc: Scenario) {
    forall t :: 0 <= t < |sc.tasks| ==> Aligned(sc.slots, sc.tasks[t].reference)
  }

  function References(sc: Scenario): Matrix {
    seq(|sc.tasks|, t requires 0 <= t < |sc.tasks| => Energies(sc.tasks[t].reference))
  }

  predicate Shaped(sc: Scenario, es: Matrix) {
    |es| == |sc.tasks| && forall t :: 0 <= t < |es| ==> |es[t]| == |sc.slots|
  }

  /** Energy of the first `k` tasks in slot `i`. */
  function ColumnSum(es: Matrix, k: nat, i: nat): int
    requires k <= |es| && forall t :: 0 <= t < k ==> i < |es[t]|
  {
    if k == 0 then 0 else ColumnSum(es, k - 1, i) + es[k - 1][i]
  }

  /** Reference energy of the first `k` tasks in slot `i`, for those that shift existing use. */
  function ShiftSum(tasks: seq<Task>, k: nat, i: nat): int
    requires k <= |tasks| && forall t :: 0 <= t < k ==> i < |tasks[t].reference|
  {
    if k == 0 then 0
    else
      ShiftSum(tasks, k - 1, i)
      + (if tasks[k - 1].mode == ShiftExisting then tasks[k - 1].reference[i].energy else 0)
  }

  /** What is left of the measured profile when existing flexible use is taken out. */
  function Background(sc: Scenario): (background: seq<int>)
    requires ReferencesAligned(sc)
    ensures |background| == |sc.slots|
  {
    seq(|sc.slots|, i requires 0 <= i < |sc.slots| => sc.slots[i].measured - ShiftSum(sc.tasks, |sc.tasks|, i))
  }

  function Flexible(sc: Scenario, es: Matrix): (flexible: seq<int>)
    requires Shaped(sc, es)
    ensures |flexible| == |sc.slots|
  {
    seq(|sc.slots|, i requires 0 <= i < |sc.slots| => ColumnSum(es, |es|, i))
  }

  /** The profile that results from a schedule. */
  function Profile(sc: Scenario, es: Matrix): (profile: seq<int>)
    requires ReferencesAligned(sc) && Shaped(sc, es)
    ensures |profile| == |sc.slots|
  {
    seq(|sc.slots|, i requires 0 <= i < |sc.slots| => Background(sc)[i] + ColumnSum(es, |es|, i))
  }

  predicate UnderCap(cap: Option<int>, slot: Slot, amount: int) {
    cap.Some? ==> amount * WATT_SECONDS_PER_WATT_HOUR <= cap.value * slot.duration
  }

  predicate WithinCaps(sc: Scenario, es: Matrix)
    requires ReferencesAligned(sc) && Shaped(sc, es)
  {
    forall i :: 0 <= i < |sc.slots| ==>
      UnderCap(sc.siteCap, sc.slots[i], Profile(sc, es)[i])
        && UnderCap(sc.flexibleCap, sc.slots[i], Flexible(sc, es)[i])
  }

  predicate BackgroundNonnegative(sc: Scenario)
    requires ReferencesAligned(sc)
  {
    forall i :: 0 <= i < |sc.slots| ==> Background(sc)[i] >= 0
  }

  predicate WindowsOpen(sc: Scenario) {
    forall t :: 0 <= t < |sc.tasks| ==> WindowOf(sc.slots, sc.tasks[t]).Some?
  }

  /** A schedule for every task that the scenario's electrical limits allow. */
  predicate Admits(sc: Scenario, es: Matrix)
    requires ReferencesAligned(sc) && WindowsOpen(sc)
  {
    && Shaped(sc, es)
    && (forall t :: 0 <= t < |es| ==> Feasible(sc.slots, sc.tasks[t], WindowOf(sc.slots, sc.tasks[t]).value, es[t]))
    && WithinCaps(sc, es)
  }

  // ----- conservation -----

  lemma {:induction false} ColumnsAndRows(es: Matrix, k: nat, slots: nat, columns: seq<int>, rows: seq<int>)
    requires k <= |es| && (forall t :: 0 <= t < k ==> |es[t]| == slots)
    requires |columns| == slots && (forall i :: 0 <= i < slots ==> columns[i] == ColumnSum(es, k, i))
    requires |rows| == k && (forall t :: 0 <= t < k ==> rows[t] == Sum(es[t]))
    ensures Sum(columns) == Sum(rows)
  {
    if k == 0 {
      SumZero(columns);
    } else {
      var before := seq(slots, i requires 0 <= i < slots => ColumnSum(es, k - 1, i));
      ColumnsAndRows(es, k - 1, slots, before, rows[..k - 1]);
      SumAdd(before, es[k - 1], columns);
    }
  }

  function Required(tasks: seq<Task>): seq<int> {
    seq(|tasks|, t requires 0 <= t < |tasks| => tasks[t].required)
  }

  /** Every admitted schedule has the same total energy. */
  lemma {:induction false} ProfileEnergyIsInvariant(sc: Scenario, es: Matrix)
    requires ReferencesAligned(sc) && WindowsOpen(sc) && Admits(sc, es)
    ensures Sum(Profile(sc, es)) == Sum(Background(sc)) + Sum(Required(sc.tasks))
  {
    hide Feasible, WithinCaps, ShiftSum;
    var n := |sc.slots|;
    var flexible := Flexible(sc, es);
    var rows := Required(sc.tasks);
    forall t | 0 <= t < |es|
      ensures rows[t] == Sum(es[t])
    {
      FeasibleDelivers(sc.slots, sc.tasks[t], WindowOf(sc.slots, sc.tasks[t]).value, es[t]);
    }
    ColumnsAndRows(es, |es|, n, flexible, rows);
    SumAdd(Background(sc), flexible, Profile(sc, es));
  }

  lemma {:induction false} FeasibleDelivers(slots: seq<Slot>, task: Task, w: Window, e: seq<int>)
    requires Feasible(slots, task, w, e)
    ensures Sum(e) == task.required
  {
  }
}
