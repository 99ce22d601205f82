/** Exactly when the preview's greedy fill succeeds on a uniform grid, and exactly when an interruptible
  load has any schedule at all (apps/web/src/ScenarioWorkspace.tsx). */
module PreviewGrid {
  import opened Sums
  import opened Arithmetic
  import opened Scenarios
  import opened Preview

  predicate UniformRun(slots: seq<Slot>, first: nat, last: nat, duration: int) {
    first < last <= |slots| && duration > 0 && forall i :: first <= i < last ==> slots[i].duration == duration
  }

  function FullSlot(spec: Spec, duration: int): int
    requires spec.Interruptible?
  {
    (spec.maximumPower * duration) / WATT_SECONDS_PER_WATT_HOUR
  }

  /** The least energy that meets minimum power for a whole slot. */
  function LeastSlot(spec: Spec, duration: int): int
    requires spec.Interruptible?
  {
    (spec.minimumPower * duration + WATT_SECONDS_PER_WATT_HOUR - 1) / WATT_SECONDS_PER_WATT_HOUR
  }

  lemma {:induction false} SlotBounds(spec: Spec, duration: int, amount: int)
    requires spec.Interruptible? && spec.maximumPower > 0 && spec.minimumPower >= 0 && duration > 0
    ensures 0 <= FullSlot(spec, duration) && 0 <= LeastSlot(spec, duration)
    ensures amount * WATT_SECONDS_PER_WATT_HOUR <= spec.maximumPower * duration <==> amount <= FullSlot(spec, duration)
    ensures amount * WATT_SECONDS_PER_WATT_HOUR >= spec.minimumPower * duration <==> amount >= LeastSlot(spec, duration)
  {
    var most, least := spec.maximumPower * duration, spec.minimumPower * duration;
    assert most >= 0 && least >= 0;
  }

  /** What an interruptible load needs of a schedule between two slots. */
  predicate Delivers(slots: seq<Slot>, spec: Spec, first: nat, last: nat, required: int, e: seq<int>)
    requires spec.Interruptible?
  {
    && |e| == |slots| && Nonnegative(e) && Sum(e) == required
    && Executes(slots, spec, Window(first, last), e)
  }

  // ----- counting active slots -----

  function Active(e: seq<int>): nat {
    if e == [] then 0 else Active(e[..|e| - 1]) + if e[|e| - 1] > 0 then 1 else 0
  }

  /** With every active slot between two levels, the total lies between the same multiples of the count. */
  lemma {:induction false} ActiveBounds(e: seq<int>, least: int, full: int)
    requires Nonnegative(e) && forall i :: 0 <= i < |e| && e[i] > 0 ==> least <= e[i] <= full
    ensures Active(e) * least <= Sum(e) <= Active(e) * full
  {
    if e != [] {
      ActiveBounds(e[..|e| - 1], least, full);
      NextMultiple(Active(e[..|e| - 1]), least);
      NextMultiple(Active(e[..|e| - 1]), full);
    }
  }

  lemma {:induction false} ActiveInside(e: seq<int>, first: nat, last: nat)
    requires first <= last && forall i :: 0 <= i < |e| && e[i] > 0 ==> first <= i < last
    ensures Active(e) <= if |e| <= first then 0 else if |e| <= last then |e| - first else last - first
  {
    if e != [] {
      ActiveInside(e[..|e| - 1], first, last);
    }
  }

  /** The least number of slots that can carry the energy. */
  function SlotsNeeded(required: int, full: int): int
    requires full > 0
  {
    (required + full - 1) / full
  }

  lemma {:induction false} SlotsNeededIsLeast(required: int, full: int, k: int)
    requires full > 0
    ensures k * full >= required <==> k >= SlotsNeeded(required, full)
  {
    var n := SlotsNeeded(required, full);
    var up := required + full - 1;
    assert up == full * n + up % full && 0 <= up % full < full;
    assert full * n == n * full;
    if k >= n {
      assert (k - n) * full >= 0;
      assert k * full == n * full + (k - n) * full;
    } else {
      MultiplesApart(k, n, full);
    }
  }

  predicate SlotsSuffice(spec: Spec, duration: int, slots: int, required: int)
    requires spec.Interruptible?
  {
    var full := FullSlot(spec, duration);
    && full > 0 && SlotsNeeded(required, full) <= slots
    && SlotsNeeded(required, full) * LeastSlot(spec, duration) <= required
  }

  lemma {:induction false} PositiveLevel(k: int, level: int)
    requires k * level > 0 && level >= 0
    ensures level > 0
  {
    assert k * 0 == 0;
  }

  lemma {:induction false} DeliveryLevels(slots: seq<Slot>, spec: Spec, first: nat, last: nat, duration: int,
      required: int, e: seq<int>)
    requires spec.Interruptible? && spec.maximumPower > 0 && spec.minimumPower >= 0
    requires UniformRun(slots, first, last, duration) && Delivers(slots, spec, first, last, required, e)
    ensures Nonnegative(e) && Sum(e) == required
    ensures forall i :: 0 <= i < |e| && e[i] > 0 ==>
      first <= i < last && LeastSlot(spec, duration) <= e[i] <= FullSlot(spec, duration)
  {
    hide Sum, FullSlot, LeastSlot;
    forall i | 0 <= i < |e| && e[i] > 0
      ensures first <= i < last && LeastSlot(spec, duration) <= e[i] <= FullSlot(spec, duration)
    {
      assert WithinPower(spec, slots[i], e[i]);
      SlotBounds(spec, duration, e[i]);
    }
  }

  lemma {:induction false} DeliveryNeedsSlots(slots: seq<Slot>, spec: Spec, first: nat, last: nat, duration: int,
      required: int, e: seq<int>)
    requires spec.Interruptible? && spec.maximumPower > 0 && spec.minimumPower >= 0 && required > 0
    requires UniformRun(slots, first, last, duration) && Delivers(slots, spec, first, last, required, e)
    ensures SlotsSuffice(spec, duration, last - first, required)
  {
    hide Sum, FullSlot, LeastSlot, SlotsNeeded, Active, Delivers;
    var full, least, k := FullSlot(spec, duration), LeastSlot(spec, duration), Active(e);
    SlotBounds(spec, duration, 0);
    DeliveryLevels(slots, spec, first, last, duration, required, e);
    ActiveBounds(e, least, full);
    ActiveInside(e, first, last);
    PositiveLevel(k, full);
    SlotsNeededIsLeast(required, full, k);
    ProductAtMost(SlotsNeeded(required, full), k, least);
  }

  // ----- a schedule whenever the slots suffice -----

  /** A vector that is `level` between two slots and zero elsewhere. */
  function Block(n: nat, first: nat, count: nat, level: int): (b: seq<int>)
    ensures |b| == n
  {
    seq(n, i requires 0 <= i < n => if first <= i < first + count then level else 0)
  }

  lemma {:induction false} BlockSum(n: nat, first: nat, count: nat, level: int)
    requires first + count <= n
    ensures Sum(Block(n, first, count, level)) == count * level
  {
    if count == 0 {
      SumZero(Block(n, first, count, level));
    } else {
      var smaller := Block(n, first, count - 1, level);
      BlockSum(n, first, count - 1, level);
      assert Block(n, first, count, level) == smaller[first + count - 1 := level];
      SumUpdate(smaller, first + count - 1, level);
      NextMultiple(count - 1, level);
    }
  }

  /** The least energy in each of the needed slots, and the rest poured in greedily. */
  function Spread(n: nat, first: nat, count: nat, least: int, full: int, required: int): (e: seq<int>)
    ensures |e| == n
  {
    var extra := Greedy(Block(n, first, count, full - least), required - count * least);
    seq(n, i requires 0 <= i < n => Block(n, first, count, least)[i] + extra[i])
  }

  lemma {:induction false} SpreadIsLevel(n: nat, first: nat, count: nat, least: int, full: int, required: int)
    requires first + count <= n && 0 <= least <= full && count * least <= required <= count * full
    ensures var e := Spread(n, first, count, least, full, required);
            && Sum(e) == required
            && forall i :: 0 <= i < n ==> if first <= i < first + count then least <= e[i] <= full else e[i] == 0
  {
    hide Sum, Greedy;
    var room, floor := Block(n, first, count, full - least), Block(n, first, count, least);
    var extra := Greedy(room, required - count * least);
    BlockSum(n, first, count, full - least);
    BlockSum(n, first, count, least);
    assert count * (full - least) == count * full - count * least;
    GreedyFits(room, required - count * least);
    SumAdd(floor, extra, Spread(n, first, count, least, full, required));
  }

  lemma {:induction false} SlotsCarryDelivery(slots: seq<Slot>, spec: Spec, first: nat, last: nat, duration: int,
      required: int) returns (e: seq<int>)
    requires spec.Interruptible? && spec.maximumPower > 0 && 0 <= spec.minimumPower && required > 0
    requires UniformRun(slots, first, last, duration) && Measured(slots)
    requires SlotsSuffice(spec, duration, last - first, required)
    ensures Delivers(slots, spec, first, last, required, e)
  {
    hide Sum, FullSlot, LeastSlot, SlotsNeeded, Spread;
    var full, least := FullSlot(spec, duration), LeastSlot(spec, duration);
    SlotBounds(spec, duration, 0);
    var count := SlotsNeeded(required, full);
    SlotsNeededIsLeast(required, full, count);
    SlotsNeededIsLeast(required, full, 0);
    if least > full {
      MultiplesApart(full, least, count);
    }
    SpreadIsLevel(|slots|, first, count, least, full, required);
    e := Spread(|slots|, first, count, least, full, required);
    forall i | 0 <= i < |e|
      ensures (e[i] > 0 ==> first <= i < last) && WithinPower(spec, slots[i], e[i])
    {
      assert spec.maximumPower * slots[i].duration >= 0;
      SlotBounds(spec, duration, e[i]);
    }
  }

  /** On a uniform grid an interruptible load has a schedule exactly when the least number of slots that
      can carry the energy fits the window and their minimum does not exceed the energy. */
  lemma {:induction false} ScheduleExists(slots: seq<Slot>, spec: Spec, first: nat, last: nat, duration: int,
      required: int)
    requires spec.Interruptible? && spec.maximumPower > 0 && 0 <= spec.minimumPower && required > 0
    requires UniformRun(slots, first, last, duration) && Measured(slots)
    ensures (exists e :: Delivers(slots, spec, first, last, required, e)) <==>
      SlotsSuffice(spec, duration, last - first, required)
  {
    hide Delivers, SlotsSuffice;
    if SlotsSuffice(spec, duration, last - first, required) {
      var e := SlotsCarryDelivery(slots, spec, first, last, duration, required);
    }
    forall e | Delivers(slots, spec, first, last, required, e)
      ensures SlotsSuffice(spec, duration, last - first, required)
    {
      DeliveryNeedsSlots(slots, spec, first, last, duration, required, e);
    }
  }

  // ----- what the greedy fill makes of it -----

  predicate FillSucceeds(slots: seq<Slot>, spec: Spec, first: nat, last: nat, required: int)
    requires spec.Interruptible?
  {
    var room := Room(slots, spec, first, last);
    Sum(room) >= required && MeetsMinimum(slots, spec, Greedy(room, required))
  }

  /** Full slots until the energy runs out, then the rest, then nothing. */
  function Chunk(full: int, required: int, k: int): int
    requires full > 0
  {
    if k < required / full then full else if k == required / full then required % full else 0
  }

  lemma {:induction false} ChunkIsGreedy(full: int, required: int, k: nat)
    requires full > 0 && required >= 0
    ensures Min(full, required - Min(required, k * full)) == Chunk(full, required, k)
  {
    var q := required / full;
    assert required == q * full + required % full;
    if k < q {
      MultiplesApart(k, q, full);
    } else if k > q {
      MultiplesApart(q, k, full);
    }
  }

  lemma {:induction false} RoomIsBlock(slots: seq<Slot>, spec: Spec, first: nat, last: nat, duration: int)
    requires spec.Interruptible? && UniformRun(slots, first, last, duration)
    ensures Room(slots, spec, first, last) == Block(|slots|, first, last - first, FullSlot(spec, duration))
  {
  }

  lemma {:induction false} BlockGreedy(n: nat, first: nat, count: nat, full: int, required: int, k: nat)
    requires full > 0 && required >= 0 && first + count <= n && k < count
    ensures Greedy(Block(n, first, count, full), required)[first + k] == Chunk(full, required, k)
  {
    hide Sum, Chunk;
    assert Block(n, first, count, full)[..first + k] == Block(first + k, first, k, full);
    BlockSum(first + k, first, k, full);
    ChunkIsGreedy(full, required, k);
  }

  /** On a uniform grid the fill succeeds exactly when full slots carry the energy, a full slot meets
      minimum power if one is used, and so does the remainder if there is one. */
  lemma {:induction false} FillSucceedsExactly(slots: seq<Slot>, spec: Spec, first: nat, last: nat, duration: int,
      required: int)
    requires spec.Interruptible? && spec.maximumPower > 0 && 0 <= spec.minimumPower && required > 0
    requires UniformRun(slots, first, last, duration) && Measured(slots)
    ensures var full, least := FullSlot(spec, duration), LeastSlot(spec, duration);
            FillSucceeds(slots, spec, first, last, required) <==>
              (&& full > 0 && SlotsNeeded(required, full) <= last - first
               && (required >= full ==> full >= least) && (required % full > 0 ==> required % full >= least))
  {
    hide Sum, FullSlot, LeastSlot, SlotsNeeded, Room, Greedy, MeetsMinimum, Block;
    var full, least, n := FullSlot(spec, duration), LeastSlot(spec, duration), last - first;
    var g := Greedy(Room(slots, spec, first, last), required);
    SlotBounds(spec, duration, 0);
    RoomIsBlock(slots, spec, first, last, duration);
    BlockSum(|slots|, first, n, full);
    assert n * 0 == 0;
    if full > 0 {
      SlotsNeededIsLeast(required, full, n);
      if n * full >= required {
        ChunksMeetMinimum(slots, spec, first, last, duration, required);
      }
    }
  }

  lemma {:induction false} GreedyIsChunks(slots: seq<Slot>, spec: Spec, first: nat, last: nat, duration: int,
      required: int, i: nat)
    requires spec.Interruptible? && spec.maximumPower > 0 && required > 0 && i < |slots|
    requires UniformRun(slots, first, last, duration) && Measured(slots) && FullSlot(spec, duration) > 0
    ensures Greedy(Room(slots, spec, first, last), required)[i]
         == if first <= i < last then Chunk(FullSlot(spec, duration), required, i - first) else 0
  {
    hide Sum, FullSlot, Greedy, Chunk;
    if first <= i < last {
      RoomIsBlock(slots, spec, first, last, duration);
      BlockGreedy(|slots|, first, last - first, FullSlot(spec, duration), required, i - first);
    } else {
      RoomIsNonnegative(slots, spec, first, last);
      GreedyAt(Room(slots, spec, first, last), required, i);
    }
  }

  lemma {:induction false} ChunksMeetMinimum(slots: seq<Slot>, spec: Spec, first: nat, last: nat, duration: int,
      required: int)
    requires spec.Interruptible? && spec.maximumPower > 0 && 0 <= spec.minimumPower && required > 0
    requires UniformRun(slots, first, last, duration) && Measured(slots)
    requires FullSlot(spec, duration) > 0 && (last - first) * FullSlot(spec, duration) >= required
    ensures var full, least := FullSlot(spec, duration), LeastSlot(spec, duration);
            MeetsMinimum(slots, spec, Greedy(Room(slots, spec, first, last), required)) <==>
              (required >= full ==> full >= least) && (required % full > 0 ==> required % full >= least)
  {
    hide Sum, FullSlot, LeastSlot, Room, Greedy, Chunk;
    var full, least := FullSlot(spec, duration), LeastSlot(spec, duration);
    var g := Greedy(Room(slots, spec, first, last), required);
    forall i | 0 <= i < |slots|
      ensures g[i] == if first <= i < last then Chunk(full, required, i - first) else 0
      ensures first <= i < last ==> (EnoughPower(slots[i], spec, g[i]) <==> g[i] >= least)
    {
      GreedyIsChunks(slots, spec, first, last, duration, required, i);
      SlotBounds(spec, duration, g[i]);
    }
    if MeetsMinimum(slots, spec, g) {
      UsedChunks(full, required, last - first);
      assert required >= full ==> g[first] == full;
      assert required % full > 0 ==> g[first + required / full] == required % full;
      assert forall i :: 0 <= i < |g| && g[i] > 0 ==> EnoughPower(slots[i], spec, g[i]);
    } else {
      var i :| 0 <= i < |g| && g[i] > 0 && !EnoughPower(slots[i], spec, g[i]);
      ChunkLevels(full, required, i - first);
    }
  }

  /** Which levels occur: the full slot first, and the remainder after the full slots. */
  lemma {:induction false} UsedChunks(full: int, required: int, n: int)
    requires full > 0 && required > 0 && n * full >= required
    ensures required >= full ==> n > 0 && Chunk(full, required, 0) == full
    ensures required % full > 0 ==>
      0 <= required / full < n && Chunk(full, required, required / full) == required % full
  {
    var q := required / full;
    assert required == q * full + required % full;
    if n <= 0 {
      ProductAtMost(n, 0, full);
    }
    if required % full > 0 {
      ProperQuotient(n, q, full, required);
    }
    if q <= 0 {
      ProductAtMost(q, 0, full);
    }
  }

  lemma {:induction false} ChunkLevels(full: int, required: int, k: int)
    requires full > 0 && required > 0 && k >= 0 && Chunk(full, required, k) > 0
    ensures (Chunk(full, required, k) == full && required >= full) || (Chunk(full, required, k) == required % full > 0)
  {
    var q := required / full;
    assert required == q * full + required % full;
    if k < q {
      ProductAtMost(1, q, full);
    }
  }

  lemma {:induction false} ProperQuotient(n: int, q: int, full: int, required: int)
    requires full > 0 && q == required / full && required % full > 0 && n * full >= required
    ensures q < n
  {
    assert required == q * full + required % full;
    if n < q {
      MultiplesApart(n, q, full);
    }
  }

  /** "Minimum power violated" does not mean that no schedule exists: 120 Wh in two hours at 50 to 100 W. */
  lemma {:induction false} ViolationIsNotInfeasibility()
    ensures var slots := [Slot(0, 3_600, 0), Slot(3_600 * SECOND, 3_600, 0)];
            var spec := Interruptible(100, 50);
            && !FillSucceeds(slots, spec, 0, 2, 120) && Sum(Room(slots, spec, 0, 2)) >= 120
            && Delivers(slots, spec, 0, 2, 120, [60, 60])
  {
    var slots := [Slot(0, 3_600, 0), Slot(3_600 * SECOND, 3_600, 0)];
    var spec := Interruptible(100, 50);
    assert FullSlot(spec, 3_600) == 100 && LeastSlot(spec, 3_600) == 50;
    FillSucceedsExactly(slots, spec, 0, 2, 3_600, 120);
    RoomIsBlock(slots, spec, 0, 2, 3_600);
    BlockSum(2, 0, 2, 100);
    assert [60, 60][..1] == [60] && [60][..0] == [];
    assert Sum([60]) == 60 && Sum([60, 60]) == 120;
  }
}
