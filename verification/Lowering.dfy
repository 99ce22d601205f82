/** The exact lowering of a scenario to CP-SAT constraints
  (packages/optimizer/ratereplay_optimizer/lowering.py), as the constraints it adds, in order. */
module Lowering {
  import opened Sums
  import opened Scenarios
  import opened Cp

  // ----- one interruptible occurrence -----

  function MaximumEnergy(spec: Spec, slot: Slot, w: Window, i: nat): int
    requires spec.Interruptible?
  {
    if w.first <= i < w.last then spec.maximumPower * slot.duration / WATT_SECONDS_PER_WATT_HOUR else 0
  }

  function InterruptibleRow(t: nat, i: nat, slot: Slot, spec: Spec, w: Window): seq<Constraint>
    requires spec.Interruptible?
  {
    [ Domain(Energy(t, i), 0, MaximumEnergy(spec, slot, w, i)),
      Compare(WATT_SECONDS_PER_WATT_HOUR, Energy(t, i), AtMost, spec.maximumPower * slot.duration, Always),
      Domain(Active(t, i), 0, 1),
      Compare(1, Energy(t, i), AtLeast, 1, If(Active(t, i))),
      Compare(1, Energy(t, i), Equal, 0, Unless(Active(t, i))) ]
    + if spec.minimumPower == 0 then []
      else [ Compare(WATT_SECONDS_PER_WATT_HOUR, Energy(t, i), AtLeast, spec.minimumPower * slot.duration,
        If(Active(t, i))) ]
  }

  function InterruptibleRows(t: nat, slots: seq<Slot>, spec: Spec, w: Window, n: nat): seq<Constraint>
    requires spec.Interruptible? && n <= |slots|
  {
    if n == 0 then [] else
    InterruptibleRows(t, slots, spec, w, n - 1) + InterruptibleRow(t, n - 1, slots[n - 1], spec, w)
  }

  /** What one row says: the slot is off, or it runs between its two power limits. */
  predicate InterruptibleRowMeans(slot: Slot, spec: Spec, w: Window, i: nat, energy: int, active: int)
    requires spec.Interruptible?
  {
    && 0 <= energy <= MaximumEnergy(spec, slot, w, i)
    && energy * WATT_SECONDS_PER_WATT_HOUR <= spec.maximumPower * slot.duration
    && (active == 0 || active == 1)
    && (active == 1 ==> energy >= 1)
    && (active == 0 ==> energy == 0)
    && (spec.minimumPower != 0 && active == 1 ==>
      energy * WATT_SECONDS_PER_WATT_HOUR >= spec.minimumPower * slot.duration)
  }

  lemma {:induction false} InterruptibleRowMeaning(a: Assignment, t: nat, i: nat, slot: Slot, spec: Spec, w: Window)
    requires spec.Interruptible?
    ensures Satisfies(a, InterruptibleRow(t, i, slot, spec, w))
       <==> InterruptibleRowMeans(slot, spec, w, i, Value(a, Energy(t, i)), Value(a, Active(t, i)))
  {
    hide MaximumEnergy, Value;
    var cs := InterruptibleRow(t, i, slot, spec, w);
    assert |cs| == if spec.minimumPower == 0 then 5 else 6;
    if Satisfies(a, cs) {
      assert Holds(a, cs[0]) && Holds(a, cs[1]) && Holds(a, cs[2]) && Holds(a, cs[3]) && Holds(a, cs[4]);
      if spec.minimumPower != 0 {
        assert Holds(a, cs[5]);
      }
    }
  }

  lemma {:induction false} InterruptibleRowsMeaning(a: Assignment, t: nat, slots: seq<Slot>, spec: Spec, w: Window,
      n: nat)
    requires spec.Interruptible? && n <= |slots|
    ensures Satisfies(a, InterruptibleRows(t, slots, spec, w, n))
       <==> forall i :: 0 <= i < n ==>
              InterruptibleRowMeans(slots[i], spec, w, i, Value(a, Energy(t, i)), Value(a, Active(t, i)))
  {
    hide InterruptibleRow, InterruptibleRowMeans, Value, Satisfies;
    if n == 0 {
      SatisfiesNone(a);
    } else {
      InterruptibleRowsMeaning(a, t, slots, spec, w, n - 1);
      InterruptibleRowMeaning(a, t, n - 1, slots[n - 1], spec, w);
      SatisfiesConcat(a, InterruptibleRows(t, slots, spec, w, n - 1),
        InterruptibleRow(t, n - 1, slots[n - 1], spec, w));
    }
  }

  lemma {:induction false} SatisfiesNone(a: Assignment)
    ensures Satisfies(a, [])
  {
  }

  // ----- one fixed-shape occurrence -----

  /** How many starts the window leaves. */
  function StartCount(shape: seq<int>, w: Window): nat {
    if w.last - w.first >= |shape| then w.last - w.first - |shape| + 1 else 0
  }

  function StartDomains(t: nat, first: nat, k: nat): seq<Constraint> {
    if k == 0 then [] else StartDomains(t, first, k - 1) + [Domain(Start(t, first + k - 1), 0, 1)]
  }

  function StartVars(t: nat, first: nat, k: nat): seq<Var> {
    seq(k, c requires 0 <= c < k => Start(t, first + c))
  }

  predicate Covers(shape: seq<int>, c: nat, i: nat) {
    c <= i < c + |shape|
  }

  /** What each of the first `k` starts would put into slot `i`. */
  function ShapeTerms(t: nat, i: nat, shape: seq<int>, first: nat, k: nat): seq<Term> {
    if k == 0 then [] else
    var c := first + k - 1;
    ShapeTerms(t, i, shape, first, k - 1) + if Covers(shape, c, i) then [Term(shape[i - c], Start(t, c))] else []
  }

  function ShapeMaximum(i: nat, shape: seq<int>, first: nat, k: nat): int {
    if k == 0 then 0 else
    var c := first + k - 1;
    var before := ShapeMaximum(i, shape, first, k - 1);
    if Covers(shape, c, i) && shape[i - c] > before then shape[i - c] else before
  }

  function ShapeRows(t: nat, shape: seq<int>, first: nat, k: nat, n: nat): seq<Constraint> {
    if n == 0 then [] else
    ShapeRows(t, shape, first, k, n - 1)
    + [ Domain(Energy(t, n - 1), 0, ShapeMaximum(n - 1, shape, first, k)),
        Equals(Energy(t, n - 1), Linear(ShapeTerms(t, n - 1, shape, first, k), 0)) ]
  }

  function ShapeConstraints(t: nat, shape: seq<int>, first: nat, k: nat, n: nat): seq<Constraint> {
    StartDomains(t, first, k) + [ExactlyOne(StartVars(t, first, k))] + ShapeRows(t, shape, first, k, n)
  }

  /** The start chosen among the first `k` places from `first`, and no other. */
  ghost predicate Chosen(a: Assignment, t: nat, first: nat, k: nat, c: nat) {
    && first <= c < first + k
    && forall d :: first <= d < first + k ==> Value(a, Start(t, d)) == if d == c then 1 else 0
  }

  lemma {:induction false} StartDomainsMeaning(a: Assignment, t: nat, first: nat, k: nat)
    ensures Satisfies(a, StartDomains(t, first, k)) <==> forall d :: first <= d < first + k ==>
      0 <= Value(a, Start(t, d)) <= 1
  {
    hide Value;
    if k > 0 {
      StartDomainsMeaning(a, t, first, k - 1);
      SatisfiesConcat(a, StartDomains(t, first, k - 1), [Domain(Start(t, first + k - 1), 0, 1)]);
      SatisfiesOne(a, Domain(Start(t, first + k - 1), 0, 1));
    }
  }

  lemma {:induction false} ExactlyOneMeaning(a: Assignment, t: nat, first: nat, k: nat)
    ensures Holds(a, ExactlyOne(StartVars(t, first, k))) ==> exists c: nat :: Chosen(a, t, first, k, c)
    ensures forall c: nat :: Chosen(a, t, first, k, c) ==> Holds(a, ExactlyOne(StartVars(t, first, k)))
  {
    hide Value;
    var vs := StartVars(t, first, k);
    if Holds(a, ExactlyOne(vs)) {
      var j: nat :| j < |vs| && Value(a, vs[j]) == 1 && forall d :: 0 <= d < |vs| && d != j ==> Value(a, vs[d]) == 0;
      assert Chosen(a, t, first, k, first + j) by {
        forall d: nat | first <= d < first + k
          ensures Value(a, Start(t, d)) == if d == first + j then 1 else 0
        {
          assert vs[d - first] == Start(t, d);
        }
      }
    }
    forall c: nat | Chosen(a, t, first, k, c)
      ensures Holds(a, ExactlyOne(vs))
    {
      assert vs[c - first] == Start(t, c);
    }
  }

  /** The terms of a slot add up to what the chosen start puts there. */
  lemma {:induction false} ShapeTermsValue(a: Assignment, t: nat, i: nat, shape: seq<int>, first: nat, k: nat, c: nat,
      all: nat)
    requires k <= all && Chosen(a, t, first, all, c)
    ensures Sum(TermValues(a, ShapeTerms(t, i, shape, first, k)))
         == if c < first + k && Covers(shape, c, i) then shape[i - c] else 0
  {
    hide Value;
    if k > 0 {
      ShapeTermsValue(a, t, i, shape, first, k - 1, c, all);
      var d := first + k - 1;
      var last := if Covers(shape, d, i) then [Term(shape[i - d], Start(t, d))] else [];
      TermValuesConcat(a, ShapeTerms(t, i, shape, first, k - 1), last);
      if last != [] {
        TermValuesOne(a, shape[i - d], Start(t, d), if d == c then 1 else 0);
      }
    }
  }

  lemma {:induction false} TermValuesOne(a: Assignment, k: int, v: Var, value: int)
    requires Value(a, v) == value && (value == 0 || value == 1)
    ensures Sum(TermValues(a, [Term(k, v)])) == if value == 1 then k else 0
  {
    hide Value;
    assert TermValues(a, [Term(k, v)]) == [k * Value(a, v)];
    SumOne(k * Value(a, v));
  }

  lemma {:induction false} SumOne(x: int)
    ensures Sum([x]) == x
  {
    assert [x][..0] == [];
  }

  lemma {:induction false} ShapeMaximumBounds(i: nat, shape: seq<int>, first: nat, k: nat, c: nat)
    requires first <= c < first + k && Covers(shape, c, i)
    ensures shape[i - c] <= ShapeMaximum(i, shape, first, k)
  {
    if c < first + k - 1 {
      ShapeMaximumBounds(i, shape, first, k - 1, c);
    }
  }

  lemma {:induction false} ShapeMaximumNonnegative(i: nat, shape: seq<int>, first: nat, k: nat)
    ensures ShapeMaximum(i, shape, first, k) >= 0
  {
    if k > 0 {
      ShapeMaximumNonnegative(i, shape, first, k - 1);
    }
  }

  lemma {:induction false} ShapeRowsMeaning(a: Assignment, t: nat, shape: seq<int>, first: nat, k: nat, n: nat, c: nat)
    requires Chosen(a, t, first, k, c) && (forall i :: 0 <= i < |shape| ==> shape[i] >= 0)
    ensures Satisfies(a, ShapeRows(t, shape, first, k, n))
       <==> forall i :: 0 <= i < n ==> Value(a, Energy(t, i)) == if Covers(shape, c, i) then shape[i - c] else 0
  {
    hide Value, Chosen, ShapeTerms, ShapeMaximum;
    if n > 0 {
      ShapeRowsMeaning(a, t, shape, first, k, n - 1, c);
      var i := n - 1;
      var domain := Domain(Energy(t, i), 0, ShapeMaximum(i, shape, first, k));
      var equal := Equals(Energy(t, i), Linear(ShapeTerms(t, i, shape, first, k), 0));
      assert [domain, equal] == [domain] + [equal];
      SatisfiesConcat(a, ShapeRows(t, shape, first, k, n - 1), [domain, equal]);
      SatisfiesConcat(a, [domain], [equal]);
      SatisfiesOne(a, domain);
      SatisfiesOne(a, equal);
      ChosenBounds(a, t, first, k, c);
      ShapeTermsValue(a, t, i, shape, first, k, c, k);
      ShapeMaximumNonnegative(i, shape, first, k);
      if Covers(shape, c, i) {
        ShapeMaximumBounds(i, shape, first, k, c);
      }
    }
  }

  lemma {:induction false} ChosenBounds(a: Assignment, t: nat, first: nat, k: nat, c: nat)
    requires Chosen(a, t, first, k, c)
    ensures first <= c < first + k
  {
  }

  // ----- every occurrence: energy, change and completion -----

  function EnergyTerms(t: nat, n: nat): seq<Term> {
    seq(n, i requires 0 <= i < n => Term(1, Energy(t, i)))
  }

  function ObjectiveRow(t: nat, i: nat, reference: int): seq<Constraint> {
    [ Domain(Changed(t, i), 0, 1),
      Compare(1, Energy(t, i), Equal, reference, Unless(Changed(t, i))),
      Compare(1, Energy(t, i), Unequal, reference, If(Changed(t, i))),
      Domain(Working(t, i), 0, 1),
      Compare(1, Energy(t, i), AtLeast, 1, If(Working(t, i))),
      Compare(1, Energy(t, i), Equal, 0, Unless(Working(t, i))) ]
  }

  function ObjectiveRows(t: nat, reference: seq<int>, n: nat): seq<Constraint>
    requires n <= |reference|
  {
    if n == 0 then [] else ObjectiveRows(t, reference, n - 1) + ObjectiveRow(t, n - 1, reference[n - 1])
  }

  function CompletionTerms(t: nat, n: nat): seq<Term> {
    seq(n, i requires 0 <= i < n => Term(i + 1, Working(t, i)))
  }

  function CompletionConstraints(t: nat, n: nat): seq<Constraint> {
    [ Domain(Completion(t), 1, n), Maximum(Completion(t), CompletionTerms(t, n)) ]
  }

  predicate ObjectiveRowMeans(reference: int, energy: int, changed: int, working: int) {
    && (changed == 0 || changed == 1) && (changed == 0 ==> energy == reference)
      && (changed == 1 ==> energy != reference)
    && (working == 0 || working == 1) && (working == 1 ==> energy >= 1) && (working == 0 ==> energy == 0)
  }

  lemma {:induction false} ObjectiveRowMeaning(a: Assignment, t: nat, i: nat, reference: int)
    ensures Satisfies(a, ObjectiveRow(t, i, reference))
       <==> ObjectiveRowMeans(reference, Value(a, Energy(t, i)), Value(a, Changed(t, i)), Value(a, Working(t, i)))
  {
    hide Value;
    var cs := ObjectiveRow(t, i, reference);
    if Satisfies(a, cs) {
      assert Holds(a, cs[0]) && Holds(a, cs[1]) && Holds(a, cs[2]) && Holds(a, cs[3]) && Holds(a, cs[4])
        && Holds(a, cs[5]);
    }
  }

  lemma {:induction false} ObjectiveRowsMeaning(a: Assignment, t: nat, reference: seq<int>, n: nat)
    requires n <= |reference|
    ensures Satisfies(a, ObjectiveRows(t, reference, n))
       <==> forall i :: 0 <= i < n ==>
              ObjectiveRowMeans(reference[i], Value(a, Energy(t, i)), Value(a, Changed(t, i)), Value(a, Working(t, i)))
  {
    hide ObjectiveRow, ObjectiveRowMeans, Value, Satisfies;
    if n == 0 {
      SatisfiesNone(a);
    } else {
      ObjectiveRowsMeaning(a, t, reference, n - 1);
      ObjectiveRowMeaning(a, t, n - 1, reference[n - 1]);
      SatisfiesConcat(a, ObjectiveRows(t, reference, n - 1), ObjectiveRow(t, n - 1, reference[n - 1]));
    }
  }

  /** The one-based index of the last positive entry among the first `n`; 0 when there is none. */
  function LastPositive(e: seq<int>, n: nat): nat
    requires n <= |e|
  {
    if n == 0 then 0 else if e[n - 1] > 0 then n else LastPositive(e, n - 1)
  }

  lemma {:induction false} LastPositiveFacts(e: seq<int>, n: nat)
    requires n <= |e|
    ensures LastPositive(e, n) <= n
    ensures LastPositive(e, n) > 0 ==> e[LastPositive(e, n) - 1] > 0
    ensures forall i :: LastPositive(e, n) <= i < n ==> e[i] <= 0
  {
    if n > 0 && e[n - 1] <= 0 {
      LastPositiveFacts(e, n - 1);
    }
  }

  /** The completion variable is the last slot in use. */
  lemma {:induction false} CompletionMeaning(a: Assignment, t: nat, e: seq<int>)
    requires forall i :: 0 <= i < |e| ==> e[i] >= 0 && Value(a, Working(t, i)) == if e[i] > 0 then 1 else 0
    requires exists i :: 0 <= i < |e| && e[i] > 0
    ensures Satisfies(a, CompletionConstraints(t, |e|)) <==> Value(a, Completion(t)) == LastPositive(e, |e|)
  {
    hide Value;
    var n, last := |e|, LastPositive(e, |e|);
    var domain, maximum := Domain(Completion(t), 1, n), Maximum(Completion(t), CompletionTerms(t, n));
    assert CompletionConstraints(t, n) == [domain] + [maximum];
    SatisfiesConcat(a, [domain], [maximum]);
    SatisfiesOne(a, domain);
    SatisfiesOne(a, maximum);
    LastPositiveFacts(e, n);
    var values := TermValues(a, CompletionTerms(t, n));
    forall i | 0 <= i < n
      ensures values[i] == if e[i] > 0 then i + 1 else 0
    {
    }
    assert last > 0 && values[last - 1] == last;
  }

  // ----- what one occurrence's constraints mean -----

  function SpecConstraints(slots: seq<Slot>, spec: Spec, t: nat, w: Window): seq<Constraint> {
    match spec
    case Interruptible(_, _) => InterruptibleRows(t, slots, spec, w, |slots|)
    case FixedShape(shape) => ShapeConstraints(t, shape, w.first, StartCount(shape, w), |slots|)
  }

  function TaskConstraints(slots: seq<Slot>, task: Task, t: nat, w: Window): seq<Constraint>
    requires |task.reference| == |slots|
  {
    SpecConstraints(slots, task.spec, t, w)
    + [CompareLinear(Linear(EnergyTerms(t, |slots|), 0), Equal, task.required)]
    + ObjectiveRows(t, Energies(task.reference), |slots|)
    + CompletionConstraints(t, |slots|)
  }

  /** The energy an assignment gives to one task. */
  function Row(a: Assignment, t: nat, n: nat): seq<int> {
    seq(n, i requires 0 <= i < n => Value(a, Energy(t, i)))
  }

  function Flag(b: bool): int {
    if b then 1 else 0
  }

  /** The auxiliary variables of one task that its energy vector determines. */
  ghost predicate Tracks(a: Assignment, task: Task, t: nat, e: seq<int>)
    requires |task.reference| == |e|
  {
    && (forall i :: 0 <= i < |e| ==>
          && Value(a, Changed(t, i)) == Flag(e[i] != task.reference[i].energy)
          && Value(a, Working(t, i)) == Flag(e[i] > 0))
    && Value(a, Completion(t)) == LastPositive(e, |e|)
  }

  /** The auxiliary variables that realise the execution rule. */
  ghost predicate Realises(a: Assignment, spec: Spec, t: nat, w: Window, e: seq<int>) {
    match spec
    case Interruptible(_, _) => forall i :: 0 <= i < |e| ==> Value(a, Active(t, i)) == Flag(e[i] > 0)
    case FixedShape(shape) =>
      exists c: nat :: Chosen(a, t, w.first, StartCount(shape, w), c) && e == Placed(shape, c, |e|)
  }

  /** The energy an assignment gives to one task can be executed, and the assignment shows how. */
  ghost predicate Runs(a: Assignment, slots: seq<Slot>, spec: Spec, t: nat, w: Window) {
    var e := Row(a, t, |slots|);
    (forall i :: 0 <= i < |e| ==> e[i] >= 0) && Executes(slots, spec, w, e) && Realises(a, spec, t, w, e)
  }

  lemma {:induction false} RowArithmetic(slot: Slot, spec: Spec, w: Window, i: nat, energy: int, active: int)
    requires spec.Interruptible? && TypedSpec(spec) && slot.duration > 0
    ensures InterruptibleRowMeans(slot, spec, w, i, energy, active)
       <==> && energy >= 0 && (energy > 0 ==> w.first <= i < w.last) && WithinPower(spec, slot, energy)
            && active == Flag(energy > 0)
  {
    var product := spec.maximumPower * slot.duration;
    assert product > 0;
    WholeUnits(energy, product);
    var floor := spec.minimumPower * slot.duration;
    assert spec.minimumPower == 0 ==> floor == 0;
  }

  lemma {:induction false} WholeUnits(energy: int, product: int)
    ensures energy * WATT_SECONDS_PER_WATT_HOUR <= product <==> energy <= product / WATT_SECONDS_PER_WATT_HOUR
  {
  }

  lemma {:induction false} InterruptibleMeaning(a: Assignment, t: nat, slots: seq<Slot>, spec: Spec, w: Window)
    requires spec.Interruptible? && TypedSpec(spec) && forall i :: 0 <= i < |slots| ==> slots[i].duration > 0
    ensures Satisfies(a, InterruptibleRows(t, slots, spec, w, |slots|)) <==> Runs(a, slots, spec, t, w)
  {
    hide Value, InterruptibleRowMeans, WithinPower, Satisfies;
    var n, e := |slots|, Row(a, t, |slots|);
    InterruptibleRowsMeaning(a, t, slots, spec, w, n);
    forall i | 0 <= i < n
      ensures InterruptibleRowMeans(slots[i], spec, w, i, Value(a, Energy(t, i)), Value(a, Active(t, i)))
         <==> && e[i] >= 0 && (e[i] > 0 ==> w.first <= i < w.last) && WithinPower(spec, slots[i], e[i])
              && Value(a, Active(t, i)) == Flag(e[i] > 0)
    {
      RowArithmetic(slots[i], spec, w, i, e[i], Value(a, Active(t, i)));
    }
  }

  lemma {:induction false} StartCountMeaning(shape: seq<int>, w: Window, c: int)
    requires |shape| > 0
    ensures w.first <= c < w.first + StartCount(shape, w) <==> w.first <= c <= w.last - |shape|
  {
  }

  lemma {:induction false} ShapeMeaning(a: Assignment, t: nat, slots: seq<Slot>, shape: seq<int>, w: Window)
    requires TypedSpec(FixedShape(shape))
    ensures Satisfies(a, ShapeConstraints(t, shape, w.first, StartCount(shape, w), |slots|))
       <==> Runs(a, slots, FixedShape(shape), t, w)
  {
    hide Value, Satisfies, Holds, Chosen, StartCount, Covers, StartVars;
    var n, k, e := |slots|, StartCount(shape, w), Row(a, t, |slots|);
    var one := ExactlyOne(StartVars(t, w.first, k));
    SatisfiesConcat(a, StartDomains(t, w.first, k) + [one], ShapeRows(t, shape, w.first, k, n));
    SatisfiesConcat(a, StartDomains(t, w.first, k), [one]);
    SatisfiesOne(a, one);
    ExactlyOneMeaning(a, t, w.first, k);
    forall c: nat | Chosen(a, t, w.first, k, c)
      ensures Satisfies(a, StartDomains(t, w.first, k))
      ensures Satisfies(a, ShapeRows(t, shape, w.first, k, n)) <==> e == Placed(shape, c, n)
      ensures w.first <= c <= w.last - |shape| && forall i :: 0 <= i < n ==> Placed(shape, c, n)[i] >= 0
    {
      PlacedNonnegative(shape, c, n);
      ChosenStart(a, t, w.first, k, c);
      StartCountMeaning(shape, w, c);
      ShapeRowsMeaning(a, t, shape, w.first, k, n, c);
      PlacedMeaning(a, t, shape, c, n);
    }
  }

  lemma {:induction false} ChosenStart(a: Assignment, t: nat, first: nat, k: nat, c: nat)
    requires Chosen(a, t, first, k, c)
    ensures first <= c < first + k && Satisfies(a, StartDomains(t, first, k))
  {
    StartDomainsMeaning(a, t, first, k);
  }

  lemma {:induction false} PlacedMeaning(a: Assignment, t: nat, shape: seq<int>, c: nat, n: nat)
    ensures Row(a, t, n) == Placed(shape, c, n)
       <==> forall i :: 0 <= i < n ==> Value(a, Energy(t, i)) == if Covers(shape, c, i) then shape[i - c] else 0
  {
    hide Value;
    if Row(a, t, n) == Placed(shape, c, n) {
      forall i | 0 <= i < n
        ensures Value(a, Energy(t, i)) == if Covers(shape, c, i) then shape[i - c] else 0
      {
        assert Row(a, t, n)[i] == Placed(shape, c, n)[i];
      }
    }
  }

  lemma {:induction false} EnergyTermsValue(a: Assignment, t: nat, n: nat)
    ensures TermValues(a, EnergyTerms(t, n)) == Row(a, t, n)
  {
    hide Value;
  }

  lemma {:induction false} PlacedNonnegative(shape: seq<int>, c: nat, n: nat)
    requires forall i :: 0 <= i < |shape| ==> shape[i] >= 0
    ensures forall i :: 0 <= i < n ==> Placed(shape, c, n)[i] >= 0
  {
  }

  lemma {:induction false} SomePositive(e: seq<int>)
    requires Sum(e) > 0
    ensures exists i :: 0 <= i < |e| && e[i] > 0
  {
    if forall i :: 0 <= i < |e| ==> e[i] <= 0 {
      SumLe(e, seq(|e|, i => 0));
      SumZero(seq(|e|, i => 0));
    }
  }

  lemma {:induction false} SpecMeaning(a: Assignment, slots: seq<Slot>, spec: Spec, t: nat, w: Window)
    requires TypedSpec(spec) && forall i :: 0 <= i < |slots| ==> slots[i].duration > 0
    ensures Satisfies(a, SpecConstraints(slots, spec, t, w)) <==> Runs(a, slots, spec, t, w)
  {
    hide Satisfies, InterruptibleRows, ShapeConstraints, Runs;
    if spec.Interruptible? {
      InterruptibleMeaning(a, t, slots, spec, w);
    } else {
      ShapeMeaning(a, t, slots, spec.shape, w);
    }
  }

  /** The constraints of one occurrence say exactly that its vector is feasible and that the
      auxiliary variables have the values the vector gives them. */
  lemma {:induction false} TaskMeaning(a: Assignment, slots: seq<Slot>, task: Task, t: nat, w: Window)
    requires TypedTask(task) && |task.reference| == |slots| && forall i :: 0 <= i < |slots| ==> slots[i].duration > 0
    ensures Satisfies(a, TaskConstraints(slots, task, t, w))
       <==> (&& Feasible(slots, task, w, Row(a, t, |slots|))
             && Tracks(a, task, t, Row(a, t, |slots|))
             && Realises(a, task.spec, t, w, Row(a, t, |slots|)))
  {
    hide Value, Satisfies, Executes, Realises, SpecConstraints, ObjectiveRows, CompletionConstraints, Tracks;
    var n, e := |slots|, Row(a, t, |slots|);
    var spec := SpecConstraints(slots, task.spec, t, w);
    var total := CompareLinear(Linear(EnergyTerms(t, n), 0), Equal, task.required);
    var rows := ObjectiveRows(t, Energies(task.reference), n);
    SatisfiesConcat(a, spec + [total] + rows, CompletionConstraints(t, n));
    SatisfiesConcat(a, spec + [total], rows);
    SatisfiesConcat(a, spec, [total]);
    SatisfiesOne(a, total);
    EnergyTermsValue(a, t, n);
    SpecMeaning(a, slots, task.spec, t, w);
    if (forall i :: 0 <= i < n ==> e[i] >= 0) && Sum(e) == task.required {
      SomePositive(e);
      TracksMeaning(a, task, t, n);
    }
  }

  lemma {:induction false} TracksMeaning(a: Assignment, task: Task, t: nat, n: nat)
    requires |task.reference| == n && (forall i :: 0 <= i < n ==> Row(a, t, n)[i] >= 0)
    requires exists i :: 0 <= i < n && Row(a, t, n)[i] > 0
    ensures Satisfies(a, ObjectiveRows(t, Energies(task.reference), n)) && Satisfies(a, CompletionConstraints(t, n))
       <==> Tracks(a, task, t, Row(a, t, n))
  {
    hide Value, Satisfies, CompletionConstraints, LastPositive, ObjectiveRows;
    var e := Row(a, t, n);
    ObjectiveRowsMeaning(a, t, Energies(task.reference), n);
    if forall i :: 0 <= i < n ==> Value(a, Working(t, i)) == Flag(e[i] > 0) {
      CompletionMeaning(a, t, e);
    }
  }
}
