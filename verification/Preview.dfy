/** The scenario form's preview: a reference schedule is built greedily or placed as a fixed shape, the
  background is taken out, and the caps are checked, before anything is sent
  (apps/web/src/ScenarioWorkspace.tsx).

  Form fields are already parsed; a boundary is `None` where its text is not a date. */
module Preview {
  import opened Arithmetic
  import opened Results
  import opened Sums
  import opened Scenarios
  import opened Admission

  datatype Form = Form(
    asset: string, mode: Mode, spec: Spec, requiredEnergy: int, earliest: Option<int>, deadline: Option<int>,
      referenceStart: Option<int>,
    siteCap: Option<int>, flexibleCap: Option<int>, attested: bool)

  datatype Issue =
    | MinimumPowerExceedsMaximum
    | NonAlignedBoundary
    | ReferenceOutsideWindow
    | FixedShapeMismatch
    | ReferenceMinimumPowerViolated
    | EnergyDoesNotFitWindow
    | NegativeFixedBackground
    | FlexibleLoadCapExceeded
    | SiteImportCapExceeded
    | AttestationMissing

  /** The four totals that the preview displays. */
  datatype Totals = Totals(measured: int, background: int, reference: int, outcome: int)

  datatype Draft = Draft(window: Window, reference: seq<int>, background: seq<int>, outcome: seq<int>, totals: Totals)

  /** What parsing the fields guarantees. */
  predicate Parsed(form: Form) {
    && (match form.spec
        case Interruptible(maximum, minimum) => maximum > 0 && minimum >= 0 && form.requiredEnergy > 0
        case FixedShape(shape) => TypedSpec(form.spec))
    && (form.siteCap.Some? ==> form.siteCap.value > 0)
    && (form.flexibleCap.Some? ==> form.flexibleCap.value > 0)
  }

  function RequiredEnergy(form: Form): int {
    match form.spec
    case Interruptible(_, _) => form.requiredEnergy
    case FixedShape(shape) => Sum(shape)
  }

  // ----- boundaries -----

  /** The first slot, from `i` on, that starts at `t`. */
  function FirstStart(slots: seq<Slot>, i: nat, t: int): Option<nat>
    requires i <= |slots|
    decreases |slots| - i
  {
    if i == |slots| then None else if slots[i].start == t then Some(i) else FirstStart(slots, i + 1, t)
  }

  /** `boundaryIndex`: a slot start, or for a deadline also the end of the last slot. */
  function PreviewBoundary(slots: seq<Slot>, value: Option<int>, startOnly: bool): Option<nat> {
    if value.None? then None else
    var index := FirstStart(slots, 0, value.value);
    if index.Some? then index
    else if !startOnly && |slots| > 0 && End(slots[|slots| - 1]) == value.value then Some(|slots|)
    else None
  }

  /** What a boundary is: the first slot that starts at the instant, or for a deadline that no slot starts
      at, the end of the last slot. */
  predicate IsBoundary(slots: seq<Slot>, value: Option<int>, startOnly: bool, i: nat) {
    && value.Some? && i <= |slots| && (forall j :: 0 <= j < i ==> slots[j].start != value.value)
    && if i < |slots| then slots[i].start == value.value
       else !startOnly && |slots| > 0 && End(slots[|slots| - 1]) == value.value
  }

  lemma {:induction false} FirstStartIsFirst(slots: seq<Slot>, i: nat, t: int)
    requires i <= |slots|
    ensures var f := FirstStart(slots, i, t);
            && (f.Some? ==> i <= f.value < |slots| && slots[f.value].start == t)
            && (forall j :: i <= j < (if f.Some? then f.value else |slots|) ==> slots[j].start != t)
    decreases |slots| - i
  {
    if i < |slots| {
      FirstStartIsFirst(slots, i + 1, t);
    }
  }

  lemma {:induction false} BoundaryIsExact(slots: seq<Slot>, value: Option<int>, startOnly: bool, i: nat)
    ensures PreviewBoundary(slots, value, startOnly) == Some(i) <==> IsBoundary(slots, value, startOnly, i)
  {
    if value.Some? {
      FirstStartIsFirst(slots, 0, value.value);
    }
  }

  method FindBoundary(slots: seq<Slot>, value: Option<int>, startOnly: bool) returns (index: Option<nat>)
    ensures index == PreviewBoundary(slots, value, startOnly)
    ensures index.Some? ==> IsBoundary(slots, value, startOnly, index.value)
    ensures index.None? ==> forall i :: !IsBoundary(slots, value, startOnly, i)
  {
    forall i: nat
      ensures PreviewBoundary(slots, value, startOnly) == Some(i) <==> IsBoundary(slots, value, startOnly, i)
    {
      BoundaryIsExact(slots, value, startOnly, i);
    }
    if value.None? {
      return None;
    }
    for i := 0 to |slots|
      invariant FirstStart(slots, 0, value.value) == FirstStart(slots, i, value.value)
    {
      if slots[i].start == value.value {
        return Some(i);
      }
    }
    if !startOnly && |slots| > 0 && End(slots[|slots| - 1]) == value.value {
      return Some(|slots|);
    }
    return None;
  }

  // ----- the greedy fill -----

  function Capacity(spec: Spec, slot: Slot): int
    requires spec.Interruptible?
  {
    (spec.maximumPower * slot.duration) / WATT_SECONDS_PER_WATT_HOUR
  }

  /** What each slot can take: its capacity between the reference start and the deadline. */
  function Room(slots: seq<Slot>, spec: Spec, first: nat, last: nat): (room: seq<int>)
    requires spec.Interruptible?
    ensures |room| == |slots|
  {
    seq(|slots|, i requires 0 <= i < |slots| => if first <= i < last then Capacity(spec, slots[i]) else 0)
  }

  /** Every slot takes what is left, up to its room. */
  function Greedy(room: seq<int>, required: int): (g: seq<int>)
    ensures |g| == |room|
  {
    seq(|room|, i requires 0 <= i < |room| => Min(room[i], required - Min(required, Sum(room[..i]))))
  }

  predicate Nonnegative(s: seq<int>) {
    forall i :: 0 <= i < |s| ==> s[i] >= 0
  }

  predicate MeetsMinimum(slots: seq<Slot>, spec: Spec, e: seq<int>)
    requires spec.Interruptible? && |e| == |slots|
  {
    forall i :: 0 <= i < |e| && e[i] > 0 ==> e[i] * WATT_SECONDS_PER_WATT_HOUR >= spec.minimumPower * slots[i].duration
  }

  /** The greedy prefix sums: everything that fits so far, and never more than is required. */
  lemma {:induction false} GreedyPrefix(room: seq<int>, required: int, k: nat)
    requires Nonnegative(room) && k <= |room| && required >= 0
    ensures Sum(Greedy(room, required)[..k]) == Min(required, Sum(room[..k]))
  {
    if k > 0 {
      GreedyPrefix(room, required, k - 1);
      SumPrefix(Greedy(room, required), k - 1);
      SumPrefix(room, k - 1);
    }
  }

  /** A vector that no slot's room is too small for. */
  predicate Fits(room: seq<int>, e: seq<int>) {
    |e| == |room| && forall i :: 0 <= i < |e| ==> 0 <= e[i] <= room[i]
  }

  lemma {:induction false} GreedyAt(room: seq<int>, required: int, i: nat)
    requires Nonnegative(room) && required >= 0 && i < |room|
    ensures Greedy(room, required)[i] == Min(room[i], required - Min(required, Sum(room[..i])))
    ensures 0 <= Greedy(room, required)[i] <= room[i]
  {
    hide Sum;
  }

  lemma {:induction false} GreedyFits(room: seq<int>, required: int)
    requires Nonnegative(room) && required >= 0
    ensures Fits(room, Greedy(room, required))
    ensures Sum(Greedy(room, required)) == Min(required, Sum(room))
  {
    hide Sum, Greedy;
    forall i | 0 <= i < |room|
      ensures 0 <= Greedy(room, required)[i] <= room[i]
    {
      GreedyAt(room, required, i);
    }
    GreedyPrefix(room, required, |room|);
    assert room[..|room|] == room && Greedy(room, required)[..|room|] == Greedy(room, required);
  }

  lemma {:induction false} SumSplit(s: seq<int>, k: nat)
    requires k <= |s|
    ensures Sum(s) == Sum(s[..k]) + Sum(s[k..])
  {
    SumConcat(s[..k], s[k..]);
    assert s[..k] + s[k..] == s;
  }

  /** At every slot the greedy schedule has delivered at least as much as any other. */
  lemma {:induction false} GreedyDominates(room: seq<int>, required: int, e: seq<int>, k: nat)
    requires Nonnegative(room) && Fits(room, e) && Sum(e) == required && k <= |room|
    ensures Sum(Greedy(room, required)[..k]) >= Sum(e[..k])
  {
    hide Sum, Greedy;
    SumNonnegative(e);
    SumNonnegative(e[k..]);
    SumSplit(e, k);
    SumLe(e[..k], room[..k]);
    GreedyPrefix(room, required, k);
  }

  /** So it is finished no later than any other. */
  lemma {:induction false} GreedyFinishesFirst(room: seq<int>, required: int, e: seq<int>, k: nat)
    requires Nonnegative(room) && Fits(room, e) && Sum(e) == required && k <= |room|
    requires forall i :: k <= i < |e| ==> e[i] == 0
    ensures forall i :: k <= i < |room| ==> Greedy(room, required)[i] == 0
  {
    hide Sum, Greedy;
    SumSplit(e, k);
    SumZero(e[k..]);
    SumNonnegative(e);
    SumLe(e[..k], room[..k]);
    GreedyStops(room, required, k);
  }

  /** When the room is too small, nothing that fits delivers the required energy. */
  lemma {:induction false} TooSmallMeansInfeasible(room: seq<int>, required: int, e: seq<int>)
    requires Sum(room) < required && Fits(room, e)
    ensures Sum(e) != required
  {
    SumLe(e, room);
  }

  /** A nonnegative vector between two slots that never exceeds maximum power. */
  predicate WithinMaximum(slots: seq<Slot>, spec: Spec, first: nat, last: nat, e: seq<int>)
    requires spec.Interruptible?
  {
    && |e| == |slots|
    && forall i :: 0 <= i < |e| ==>
         && e[i] >= 0 && (e[i] > 0 ==> first <= i < last)
         && e[i] * WATT_SECONDS_PER_WATT_HOUR <= spec.maximumPower * slots[i].duration
  }

  lemma {:induction false} RoomIsExact(slots: seq<Slot>, spec: Spec, first: nat, last: nat, e: seq<int>)
    requires spec.Interruptible? && spec.maximumPower > 0 && PositiveDurations(slots)
    ensures Fits(Room(slots, spec, first, last), e) <==> WithinMaximum(slots, spec, first, last, e)
  {
    hide Capacity;
    if |e| == |slots| {
      forall i | 0 <= i < |slots|
        ensures e[i] * WATT_SECONDS_PER_WATT_HOUR <= spec.maximumPower * slots[i].duration <==>
                e[i] <= Capacity(spec, slots[i])
        ensures Capacity(spec, slots[i]) >= 0
      {
        CapacityIsExact(spec, slots[i], e[i]);
      }
    }
  }

  lemma {:induction false} CapacityIsExact(spec: Spec, slot: Slot, amount: int)
    requires spec.Interruptible? && spec.maximumPower > 0 && slot.duration > 0
    ensures amount * WATT_SECONDS_PER_WATT_HOUR <= spec.maximumPower * slot.duration <==> amount <= Capacity(spec, slot)
    ensures Capacity(spec, slot) >= 0
  {
    assert spec.maximumPower * slot.duration >= 0;
  }

  /** The fill, when it succeeds, is ahead of every schedule within maximum power at every slot. */
  lemma {:induction false} FillDominates(
      slots: seq<Slot>, spec: Spec, first: nat, last: nat, required: int, e: seq<int>, k: nat)
    requires spec.Interruptible? && spec.maximumPower > 0 && PositiveDurations(slots) && k <= |slots|
    requires WithinMaximum(slots, spec, first, last, e) && Sum(e) == required
    ensures var g := Greedy(Room(slots, spec, first, last), required);
            WithinMaximum(slots, spec, first, last, g) && Sum(g) == required && Sum(g[..k]) >= Sum(e[..k])
  {
    hide Sum, Greedy, Room, WithinMaximum;
    var room := Room(slots, spec, first, last);
    RoomIsNonnegative(slots, spec, first, last);
    RoomIsExact(slots, spec, first, last, e);
    SumNonnegative(e);
    SumLe(e, room);
    GreedyFits(room, required);
    RoomIsExact(slots, spec, first, last, Greedy(room, required));
    GreedyDominates(room, required, e, k);
  }

  lemma {:induction false} RoomIsNonnegative(slots: seq<Slot>, spec: Spec, first: nat, last: nat)
    requires spec.Interruptible? && spec.maximumPower > 0 && forall i :: 0 <= i < |slots| ==> slots[i].duration > 0
    ensures Nonnegative(Room(slots, spec, first, last))
  {
    forall i | 0 <= i < |slots|
      ensures Room(slots, spec, first, last)[i] >= 0
    {
      assert spec.maximumPower * slots[i].duration >= 0;
    }
  }

  lemma {:induction false} PrefixGrows(room: seq<int>, k: nat, i: nat)
    requires Nonnegative(room) && k <= i <= |room|
    ensures 0 <= Sum(room[..k]) <= Sum(room[..i])
  {
    hide Sum;
    SumNonnegative(room[..k]);
    SumSplit(room[..i], k);
    assert room[..i][..k] == room[..k];
    SumNonnegative(room[..i][k..]);
  }

  /** From the deadline on, or once nothing is left, the greedy vector is zero. */
  lemma {:induction false} GreedyStops(room: seq<int>, required: int, k: nat)
    requires Nonnegative(room) && required >= 0 && k <= |room|
    requires Sum(room[..k]) >= required || forall i :: k <= i < |room| ==> room[i] == 0
    ensures forall i :: k <= i < |room| ==> Greedy(room, required)[i] == 0
    ensures Sum(room[..k]) >= required <==> Sum(room) >= required
  {
    hide Sum, Greedy;
    PrefixGrows(room, k, |room|);
    assert room[..|room|] == room;
    if Sum(room[..k]) < required {
      SumSplit(room, k);
      SumZero(room[k..]);
    }
    forall i | k <= i < |room|
      ensures Greedy(room, required)[i] == 0
    {
      PrefixGrows(room, k, i);
      GreedyAt(room, required, i);
    }
  }

  /** The fill loop: it succeeds exactly when the room suffices and the greedy vector meets minimum
      power, and the two failures are told apart by which of these fails. */
  method FillReference(slots: seq<Slot>, spec: Spec, first: nat, last: nat, required: int)
      returns (r: Result<seq<int>, Issue>)
    requires spec.Interruptible? && spec.maximumPower > 0 && required > 0 && first < last <= |slots|
    requires forall i :: 0 <= i < |slots| ==> slots[i].duration > 0
    ensures var room := Room(slots, spec, first, last); var g := Greedy(room, required);
            && (r == Ok(g) <==> Sum(room) >= required && MeetsMinimum(slots, spec, g))
            && (r == Err(EnergyDoesNotFitWindow) <==> Sum(room) < required && MeetsMinimum(slots, spec, g))
            && (r == Err(ReferenceMinimumPowerViolated) <==> !MeetsMinimum(slots, spec, g))
  {
    hide MeetsMinimum, Capacity, Greedy, Sum, EnoughPower;
    ghost var room := Room(slots, spec, first, last);
    ghost var g := Greedy(room, required);
    RoomIsNonnegative(slots, spec, first, last);
    NothingBefore(slots, spec, first, last, required);
    var reference := new int[|slots|](_ => 0);
    var remaining, index := required, first;
    while index < last && remaining > 0
      invariant first <= index <= last
      invariant remaining == required - Min(required, Sum(room[..index]))
      invariant forall i :: 0 <= i < index ==> reference[i] == g[i]
      invariant forall i :: index <= i < |slots| ==> reference[i] == 0
      invariant forall i :: 0 <= i < index && g[i] > 0 ==> EnoughPower(slots[i], spec, g[i])
    {
      var capacity := Capacity(spec, slots[index]);
      var energy := Min(remaining, capacity);
      GreedyAt(room, required, index);
      assert room[index] == capacity && energy == g[index];
      if energy > 0 && !EnoughPower(slots[index], spec, energy) {
        MinimumFails(slots, spec, g, index);
        return Err(ReferenceMinimumPowerViolated);
      }
      SumPrefix(room, index);
      reference[index] := energy;
      remaining := remaining - energy;
      index := index + 1;
    }
    GreedyStops(room, required, index);
    MinimumHolds(slots, spec, g);
    if remaining != 0 {
      return Err(EnergyDoesNotFitWindow);
    }
    assert reference[..] == g;
    return Ok(reference[..]);
  }

  lemma {:induction false} NothingBefore(slots: seq<Slot>, spec: Spec, first: nat, last: nat, required: int)
    requires spec.Interruptible? && first <= |slots| && required >= 0 && Nonnegative(Room(slots, spec, first, last))
    ensures Sum(Room(slots, spec, first, last)[..first]) == 0
    ensures forall i :: 0 <= i < first ==> Greedy(Room(slots, spec, first, last), required)[i] == 0
  {
    hide Sum, Greedy;
    var room := Room(slots, spec, first, last);
    SumZero(room[..first]);
    forall i | 0 <= i < first
      ensures Greedy(room, required)[i] == 0
    {
      GreedyAt(room, required, i);
    }
  }

  predicate EnoughPower(slot: Slot, spec: Spec, amount: int)
    requires spec.Interruptible?
  {
    amount * WATT_SECONDS_PER_WATT_HOUR >= spec.minimumPower * slot.duration
  }

  lemma {:induction false} MinimumFails(slots: seq<Slot>, spec: Spec, e: seq<int>, i: nat)
    requires spec.Interruptible? && |e| == |slots| && i < |e| && e[i] > 0 && !EnoughPower(slots[i], spec, e[i])
    ensures !MeetsMinimum(slots, spec, e)
  {
  }

  lemma {:induction false} MinimumHolds(slots: seq<Slot>, spec: Spec, e: seq<int>)
    requires spec.Interruptible? && |e| == |slots| && forall i :: 0 <= i < |e| && e[i] > 0 ==>
      EnoughPower(slots[i], spec, e[i])
    ensures MeetsMinimum(slots, spec, e)
  {
  }

  // ----- the whole preview -----

  predicate WindowChosen(slots: seq<Slot>, form: Form) {
    var first, last, start := PreviewBoundary(slots, form.earliest, true), PreviewBoundary(slots, form.deadline, false),
                              PreviewBoundary(slots, form.referenceStart, true);
    && first.Some? && last.Some? && start.Some?
    && first.value < last.value && first.value <= start.value < last.value
  }

  function ChosenWindow(slots: seq<Slot>, form: Form): Window
    requires WindowChosen(slots, form)
  {
    Window(PreviewBoundary(slots, form.earliest, true).value, PreviewBoundary(slots, form.deadline, false).value)
  }

  function ChosenStart(slots: seq<Slot>, form: Form): nat
    requires WindowChosen(slots, form)
  {
    PreviewBoundary(slots, form.referenceStart, true).value
  }

  /** The reference schedule, where one can be built. */
  function Reference(slots: seq<Slot>, form: Form, start: nat, last: nat): (r: Option<seq<int>>)
    ensures r.Some? ==> |r.value| == |slots|
  {
    match form.spec
    case FixedShape(shape) => if start + |shape| <= last then Some(Placed(shape, start, |slots|)) else None
    case Interruptible(_, _) =>
      var room := Room(slots, form.spec, start, last);
      var g := Greedy(room, form.requiredEnergy);
      if Sum(room) >= form.requiredEnergy && MeetsMinimum(slots, form.spec, g) then Some(g) else None
  }

  function FixedBackground(slots: seq<Slot>, mode: Mode, reference: seq<int>): (background: seq<int>)
    requires |reference| == |slots|
    ensures |background| == |slots|
  {
    seq(|slots|, i requires 0 <= i < |slots| => if mode == ShiftExisting then slots[i].measured - reference[i]
      else slots[i].measured)
  }

  function Added(a: seq<int>, b: seq<int>): (c: seq<int>)
    requires |a| == |b|
    ensures |c| == |a|
  {
    seq(|a|, i requires 0 <= i < |a| => a[i] + b[i])
  }

  predicate CapsHold(slots: seq<Slot>, form: Form, reference: seq<int>, outcome: seq<int>)
    requires |reference| == |outcome| == |slots|
  {
    forall i :: 0 <= i < |slots| ==>
      UnderCap(form.flexibleCap, slots[i], reference[i]) && UnderCap(form.siteCap, slots[i], outcome[i])
  }

  predicate ReferenceAcceptable(slots: seq<Slot>, form: Form, reference: seq<int>)
    requires |reference| == |slots|
  {
    var background := FixedBackground(slots, form.mode, reference);
    && Nonnegative(background) && CapsHold(slots, form, reference, Added(background, reference))
    && (form.mode == ShiftExisting ==> form.attested)
  }

  /** When a form yields a request. */
  predicate Acceptable(slots: seq<Slot>, form: Form) {
    && (form.spec.Interruptible? ==> form.spec.minimumPower <= form.spec.maximumPower)
    && WindowChosen(slots, form)
    && var reference := Reference(slots, form, ChosenStart(slots, form), ChosenWindow(slots, form).last);
       reference.Some? && ReferenceAcceptable(slots, form, reference.value)
  }

  predicate Measured(slots: seq<Slot>) {
    PositiveDurations(slots) && forall i :: 0 <= i < |slots| ==> slots[i].measured >= 0
  }

  // ----- why a form is refused -----

  predicate PowersCross(form: Form) {
    form.spec.Interruptible? && form.spec.minimumPower > form.spec.maximumPower
  }

  predicate CapsAt(slots: seq<Slot>, form: Form, reference: seq<int>, outcome: seq<int>, i: nat)
    requires |reference| == |outcome| == |slots| && i < |slots|
  {
    UnderCap(form.flexibleCap, slots[i], reference[i]) && UnderCap(form.siteCap, slots[i], outcome[i])
  }

  /** The first slot where a cap fails, and which of the two fails there. */
  predicate FirstCapFails(
      slots: seq<Slot>, form: Form, reference: seq<int>, outcome: seq<int>, i: nat, flexible: bool)
    requires |reference| == |outcome| == |slots|
  {
    && i < |slots| && (forall j :: 0 <= j < i ==> CapsAt(slots, form, reference, outcome, j))
    && flexible == !UnderCap(form.flexibleCap, slots[i], reference[i])
    && (!flexible ==> !UnderCap(form.siteCap, slots[i], outcome[i]))
  }

  /** What is wrong with a reference that was built. */
  ghost predicate ExplainsReference(slots: seq<Slot>, form: Form, reference: seq<int>, issue: Issue)
    requires |reference| == |slots|
  {
    var background := FixedBackground(slots, form.mode, reference);
    var outcome := Added(background, reference);
    match issue
    case NegativeFixedBackground => !Nonnegative(background)
    case FlexibleLoadCapExceeded =>
      Nonnegative(background) && exists i :: FirstCapFails(slots, form, reference, outcome, i, true)
    case SiteImportCapExceeded =>
      Nonnegative(background) && exists i :: FirstCapFails(slots, form, reference, outcome, i, false)
    case AttestationMissing =>
      && Nonnegative(background) && CapsHold(slots, form, reference, outcome)
      && form.mode == ShiftExisting && !form.attested
    case _ => false
  }

  /** Why a reference cannot be built. */
  ghost predicate ExplainsBuild(slots: seq<Slot>, form: Form, start: nat, last: nat, issue: Issue) {
    match issue
    case FixedShapeMismatch => form.spec.FixedShape? && start + |form.spec.shape| > last
    case ReferenceMinimumPowerViolated =>
      && form.spec.Interruptible?
      && !MeetsMinimum(slots, form.spec, Greedy(Room(slots, form.spec, start, last), form.requiredEnergy))
    case EnergyDoesNotFitWindow =>
      && form.spec.Interruptible?
      && MeetsMinimum(slots, form.spec, Greedy(Room(slots, form.spec, start, last), form.requiredEnergy))
      && forall e :: WithinMaximum(slots, form.spec, start, last, e) ==> Sum(e) != form.requiredEnergy
    case _ => false
  }

  ghost predicate BoundariesFound(slots: seq<Slot>, form: Form) {
    && (exists i :: IsBoundary(slots, form.earliest, true, i))
      && (exists i :: IsBoundary(slots, form.deadline, false, i))
    && (exists i :: IsBoundary(slots, form.referenceStart, true, i))
  }

  /** The one reason for which a form is refused: the first of the checks that fails. */
  ghost predicate Explains(slots: seq<Slot>, form: Form, issue: Issue) {
    match issue
    case MinimumPowerExceedsMaximum => PowersCross(form)
    case NonAlignedBoundary => !PowersCross(form) && !BoundariesFound(slots, form)
    case ReferenceOutsideWindow =>
      !PowersCross(form) && BoundariesFound(slots, form) && !WindowChosen(slots, form)
    case _ =>
      && !PowersCross(form) && WindowChosen(slots, form)
      && var start, last := ChosenStart(slots, form), ChosenWindow(slots, form).last;
         || ExplainsBuild(slots, form, start, last, issue)
         || (&& Reference(slots, form, start, last).Some?
             && ExplainsReference(slots, form, Reference(slots, form, start, last).value, issue))
  }

  // ----- what an accepted form promises -----

  /** The window is the one that was asked for, and nothing is used outside it or before the reference
      start. */
  ghost predicate OnTime(slots: seq<Slot>, form: Form, p: Draft) {
    && |slots| > 0 && p.window.first < p.window.last <= |slots| == |p.reference|
    && form.earliest == Some(Instant(slots, p.window.first)) && form.deadline == Some(Instant(slots, p.window.last))
    && form.referenceStart.Some?
    && (ContiguousSlots(slots) ==>
          forall i :: 0 <= i < |slots| && p.reference[i] > 0 ==>
            form.referenceStart.value <= slots[i].start && End(slots[i]) <= form.deadline.value)
  }

  /** At every slot at least as much has been delivered. */
  ghost predicate Ahead(e: seq<int>, other: seq<int>) {
    |e| == |other| && forall k :: 0 <= k <= |e| ==> Sum(e[..k]) >= Sum(other[..k])
  }

  /** From the reference start: a fixed shape begins there, and an interruptible load is ahead of every
      schedule within maximum power from there to the deadline. */
  ghost predicate BeginsAt(slots: seq<Slot>, form: Form, start: nat, last: nat, e: seq<int>)
    requires |e| == |slots|
  {
    match form.spec
    case FixedShape(shape) => start + |shape| <= last && last <= |slots| && e[start..start + |shape|] == shape
    case Interruptible(_, _) =>
      forall other :: WithinMaximum(slots, form.spec, start, last, other) && Sum(other) == form.requiredEnergy ==>
        Ahead(e, other)
  }

  function Measurements(slots: seq<Slot>): (m: seq<int>)
    ensures |m| == |slots|
  {
    seq(|slots|, i requires 0 <= i < |slots| => slots[i].measured)
  }

  /** The displayed totals are the sums of what they name, and they reconcile: background plus reference
      is the outcome, which is the measured total for a shift and that plus the required energy for an
      addition. */
  predicate Reconciles(slots: seq<Slot>, form: Form, p: Draft) {
    && p.totals == Totals(Sum(Measurements(slots)), Sum(p.background), Sum(p.reference), Sum(p.outcome))
    && p.totals.reference == RequiredEnergy(form)
    && p.totals.outcome == p.totals.background + p.totals.reference
    && p.totals.outcome == p.totals.measured + if form.mode == ShiftExisting then 0 else RequiredEnergy(form)
  }

  /** What an accepted preview shows: the required energy, inside the window, executable by the load,
      over a nonnegative background, under both caps, with the measured profile accounted for. */
  predicate Shows(slots: seq<Slot>, form: Form, p: Draft) {
    && |p.reference| == |p.background| == |p.outcome| == |slots|
    && Nonnegative(p.reference) && Sum(p.reference) == RequiredEnergy(form)
    && (forall i :: 0 <= i < |slots| && p.reference[i] > 0 ==> p.window.first <= i < p.window.last)
    && Executes(slots, form.spec, p.window, p.reference)
    && Nonnegative(p.background) && CapsHold(slots, form, p.reference, p.outcome)
    && (forall i :: 0 <= i < |slots| ==>
          && p.outcome[i] == p.background[i] + p.reference[i]
          && p.outcome[i] == slots[i].measured + if form.mode == ShiftExisting then 0 else p.reference[i])
  }

  lemma {:induction false} ReferenceExecutes(slots: seq<Slot>, form: Form, w: Window, start: nat)
    requires Parsed(form) && Measured(slots) && w.first <= start < w.last <= |slots|
    requires Reference(slots, form, start, w.last).Some?
    ensures var e := Reference(slots, form, start, w.last).value;
            && Nonnegative(e) && Sum(e) == RequiredEnergy(form) && Executes(slots, form.spec, w, e)
            && forall i :: 0 <= i < |slots| && e[i] > 0 ==> w.first <= i < w.last
  {
    hide Sum;
    match form.spec {
      case FixedShape(shape) =>
        PlacedSum(shape, start, |slots|);
      case Interruptible(_, _) =>
        var room := Room(slots, form.spec, start, w.last);
        RoomIsNonnegative(slots, form.spec, start, w.last);
        GreedyFits(room, form.requiredEnergy);
        var g := Greedy(room, form.requiredEnergy);
        forall i | 0 <= i < |slots|
          ensures (g[i] > 0 ==> w.first <= i < w.last) && WithinPower(form.spec, slots[i], g[i])
        {
          assert form.spec.maximumPower * slots[i].duration >= 0;
        }
    }
  }

  lemma {:induction false} AcceptedShows(slots: seq<Slot>, form: Form, w: Window, start: nat)
    requires Parsed(form) && Measured(slots) && w.first <= start < w.last <= |slots|
    requires Reference(slots, form, start, w.last).Some?
      && ReferenceAcceptable(slots, form, Reference(slots, form, start, w.last).value)
    ensures var reference := Reference(slots, form, start, w.last).value;
            var background := FixedBackground(slots, form.mode, reference);
            forall totals :: Shows(slots, form, Draft(w, reference, background, Added(background, reference), totals))
  {
    hide Reference, Executes, Sum, CapsHold, Required;
    ReferenceExecutes(slots, form, w, start);
  }

  /** The fixed shape spliced into an empty vector, in place. */
  method PlaceShape(shape: seq<int>, start: nat, n: nat) returns (reference: seq<int>)
    requires start + |shape| <= n
    ensures reference == Placed(shape, start, n)
  {
    var energy := new int[n](_ => 0);
    for i := 0 to |shape|
      invariant forall j :: 0 <= j < n ==> energy[j] == if start <= j < start + i then shape[j - start] else 0
    {
      energy[start + i] := shape[i];
    }
    return energy[..];
  }

  method BuildReference(slots: seq<Slot>, form: Form, start: nat, last: nat) returns (r: Result<seq<int>, Issue>)
    requires Parsed(form) && Measured(slots) && start < last <= |slots|
    ensures r.Ok? <==> Reference(slots, form, start, last).Some?
    ensures r.Ok? ==> r.value == Reference(slots, form, start, last).value
    ensures r.Err? ==> ExplainsBuild(slots, form, start, last, r.error)
  {
    hide Sum, Room, Greedy, MeetsMinimum, Placed, WithinMaximum;
    match form.spec {
      case FixedShape(shape) =>
        if start + |shape| > last {
          return Err(FixedShapeMismatch);
        }
        var reference := PlaceShape(shape, start, |slots|);
        return Ok(reference);
      case Interruptible(_, _) =>
        r := FillReference(slots, form.spec, start, last, form.requiredEnergy);
        if Sum(Room(slots, form.spec, start, last)) < form.requiredEnergy {
          NothingFits(slots, form.spec, start, last, form.requiredEnergy);
        }
    }
  }

  method CheckReference(slots: seq<Slot>, form: Form, reference: seq<int>, background: seq<int>, outcome: seq<int>)
    returns (issue: Option<Issue>)
    requires |reference| == |slots| && background == FixedBackground(slots, form.mode, reference)
      && outcome == Added(background, reference)
    ensures issue.None? <==> ReferenceAcceptable(slots, form, reference)
    ensures issue.Some? ==> ExplainsReference(slots, form, reference, issue.value)
  {
    hide FixedBackground, Added, UnderCap;
    for i := 0 to |slots|
      invariant forall j :: 0 <= j < i ==> background[j] >= 0
    {
      if background[i] < 0 {
        return Some(NegativeFixedBackground);
      }
    }
    for i := 0 to |slots|
      invariant forall j :: 0 <= j < i ==>
        UnderCap(form.flexibleCap, slots[j], reference[j]) && UnderCap(form.siteCap, slots[j], outcome[j])
    {
      if !UnderCap(form.flexibleCap, slots[i], reference[i]) {
        assert FirstCapFails(slots, form, reference, outcome, i, true);
        return Some(FlexibleLoadCapExceeded);
      }
      if !UnderCap(form.siteCap, slots[i], outcome[i]) {
        assert FirstCapFails(slots, form, reference, outcome, i, false);
        return Some(SiteImportCapExceeded);
      }
    }
    if form.mode == ShiftExisting && !form.attested {
      return Some(AttestationMissing);
    }
    return None;
  }

  /** `buildPreview`: a request exactly for an acceptable form; what it shows is sound and on time; a form
      that is refused is refused for the first check that fails. */
  method BuildPreview(slots: seq<Slot>, form: Form) returns (r: Result<Draft, Issue>)
    requires Parsed(form) && Measured(slots)
    ensures r.Ok? <==> Acceptable(slots, form)
    ensures r.Ok? ==> Shows(slots, form, r.value) && Reconciles(slots, form, r.value)
    ensures r.Ok? ==>
      r.value.window == ChosenWindow(slots, form) && r.value.window.first < r.value.window.last <= |slots|
    ensures r.Ok? ==>
      Reference(slots, form, ChosenStart(slots, form), ChosenWindow(slots, form).last) == Some(r.value.reference)
    ensures r.Ok? ==> r.value.background == FixedBackground(slots, form.mode, r.value.reference)
    ensures r.Ok? ==> OnTime(slots, form, r.value)
    ensures r.Ok? ==>
      forall start :: IsBoundary(slots, form.referenceStart, true, start) ==>
        BeginsAt(slots, form, start, r.value.window.last, r.value.reference)
    ensures r.Err? ==> Explains(slots, form, r.error)
  {
    hide Reference, PreviewBoundary, Sum, Room, ReferenceAcceptable, Shows, Reconciles, FixedBackground, Added, OnTime,
      BeginsAt, IsBoundary, MeetsMinimum, Greedy, WithinMaximum, Nonnegative, FirstCapFails, CapsHold;
    if form.spec.Interruptible? && form.spec.minimumPower > form.spec.maximumPower {
      return Err(MinimumPowerExceedsMaximum);
    }
    var first := FindBoundary(slots, form.earliest, true);
    var last := FindBoundary(slots, form.deadline, false);
    var start := FindBoundary(slots, form.referenceStart, true);
    if first.None? || last.None? || start.None? {
      return Err(NonAlignedBoundary);
    }
    if first.value >= last.value || start.value < first.value || start.value >= last.value {
      return Err(ReferenceOutsideWindow);
    }
    var reference := BuildReference(slots, form, start.value, last.value);
    if reference.Err? {
      return Err(reference.error);
    }
    var background := seq(|slots|, i requires 0 <= i < |slots| =>
      if form.mode == ShiftExisting then slots[i].measured - reference.value[i] else slots[i].measured);
    var outcome := seq(|slots|, i requires 0 <= i < |slots| => background[i] + reference.value[i]);
    Parts(slots, form.mode, reference.value, background, outcome);
    var issue := CheckReference(slots, form, reference.value, background, outcome);
    if issue.Some? {
      return Err(issue.value);
    }
    AcceptedShows(slots, form, Window(first.value, last.value), start.value);
    var totals := ComputeTotals(slots, reference.value, background, outcome);
    var draft := Draft(Window(first.value, last.value), reference.value, background, outcome, totals);
    ShownReconciles(slots, form, draft);
    DraftIsOnTime(slots, form, draft, start.value);
    ReferenceBegins(slots, form, start.value, last.value);
    OneBoundary(slots, form.referenceStart, start.value);
    return Ok(draft);
  }

  method ComputeTotals(slots: seq<Slot>, reference: seq<int>, background: seq<int>, outcome: seq<int>)
      returns (totals: Totals)
    ensures totals == Totals(Sum(Measurements(slots)), Sum(background), Sum(reference), Sum(outcome))
  {
    hide Sum;
    var a := Total(Measurements(slots));
    var b := Total(background);
    var c := Total(reference);
    var d := Total(outcome);
    return Totals(a, b, c, d);
  }

  /** Slot by slot implies in total. */
  lemma {:induction false} ShownReconciles(slots: seq<Slot>, form: Form, p: Draft)
    requires Shows(slots, form, p)
    requires p.totals == Totals(Sum(Measurements(slots)), Sum(p.background), Sum(p.reference), Sum(p.outcome))
    ensures Reconciles(slots, form, p)
  {
    hide Sum, Executes, CapsHold;
    SumAdd(p.background, p.reference, p.outcome);
    if form.mode == ShiftExisting {
      assert p.outcome == Measurements(slots);
    } else {
      SumAdd(Measurements(slots), p.reference, p.outcome);
    }
  }

  lemma {:induction false} Parts(slots: seq<Slot>, mode: Mode, reference: seq<int>, background: seq<int>,
      outcome: seq<int>)
    requires |reference| == |background| == |outcome| == |slots|
    requires forall i :: 0 <= i < |slots| ==> background[i] == if mode == ShiftExisting then
      slots[i].measured - reference[i] else slots[i].measured
    requires forall i :: 0 <= i < |slots| ==> outcome[i] == background[i] + reference[i]
    ensures background == FixedBackground(slots, mode, reference) && outcome == Added(background, reference)
  {
  }

  lemma {:induction false} NothingFits(slots: seq<Slot>, spec: Spec, first: nat, last: nat, required: int)
    requires spec.Interruptible? && spec.maximumPower > 0 && PositiveDurations(slots)
    requires Sum(Room(slots, spec, first, last)) < required
    ensures forall e :: WithinMaximum(slots, spec, first, last, e) ==> Sum(e) != required
  {
    hide Sum, Fits, WithinMaximum, Room;
    forall e | WithinMaximum(slots, spec, first, last, e)
      ensures Sum(e) != required
    {
      RoomIsExact(slots, spec, first, last, e);
      TooSmallMeansInfeasible(Room(slots, spec, first, last), required, e);
    }
  }

  lemma {:induction false} OneBoundary(slots: seq<Slot>, value: Option<int>, i: nat)
    requires IsBoundary(slots, value, true, i)
    ensures forall j :: IsBoundary(slots, value, true, j) ==> j == i
  {
  }

  lemma {:induction false} WithinLength(slots: seq<Slot>, spec: Spec, first: nat, last: nat, e: seq<int>)
    requires spec.Interruptible? && WithinMaximum(slots, spec, first, last, e)
    ensures |e| == |slots|
  {
  }

  /** Nothing of the reference lies before its start. */
  lemma {:induction false} ReferenceFrom(slots: seq<Slot>, form: Form, start: nat, last: nat)
    requires Parsed(form) && Measured(slots) && start < last <= |slots| && Reference(slots, form, start, last).Some?
    ensures forall i :: 0 <= i < |slots| && Reference(slots, form, start, last).value[i] > 0 ==> start <= i < last
  {
    hide Sum;
    ReferenceExecutes(slots, form, Window(start, last), start);
  }

  lemma {:induction false} ReferenceBegins(slots: seq<Slot>, form: Form, start: nat, last: nat)
    requires Parsed(form) && Measured(slots) && start < last <= |slots| && Reference(slots, form, start, last).Some?
    ensures BeginsAt(slots, form, start, last, Reference(slots, form, start, last).value)
  {
    hide Sum, Greedy, Room, WithinMaximum;
    if form.spec.Interruptible? {
      var e := Reference(slots, form, start, last).value;
      forall other | WithinMaximum(slots, form.spec, start, last, other) && Sum(other) == form.requiredEnergy
        ensures Ahead(e, other)
      {
        WithinLength(slots, form.spec, start, last, other);
        forall k | 0 <= k <= |slots|
          ensures Sum(e[..k]) >= Sum(other[..k])
        {
          FillDominates(slots, form.spec, start, last, form.requiredEnergy, other, k);
        }
      }
    }
  }

  lemma {:induction false} DraftIsOnTime(slots: seq<Slot>, form: Form, p: Draft, start: nat)
    requires Parsed(form) && Measured(slots) && p.window.first <= start < p.window.last <= |slots|
    requires Reference(slots, form, start, p.window.last) == Some(p.reference)
    requires IsBoundary(slots, form.earliest, true, p.window.first)
    requires IsBoundary(slots, form.deadline, false, p.window.last)
      && IsBoundary(slots, form.referenceStart, true, start)
    ensures OnTime(slots, form, p)
  {
    hide Reference, ContiguousSlots;
    ReferenceFrom(slots, form, start, p.window.last);
    if ContiguousSlots(slots) {
      forall i | 0 <= i < |slots| && p.reference[i] > 0
        ensures form.referenceStart.value <= slots[i].start && End(slots[i]) <= form.deadline.value
      {
        UsedInTime(slots, Window(start, p.window.last), i);
      }
    }
  }
}
