/** The coverage loops over a profile's readings: `_profile_intervals` twice
  (apps/api/ratereplay_api/replay_routes.py and comparison_routes.py) and `_profile_slots`
  (apps/api/ratereplay_api/scenario_routes.py).

  Readings are in nanoseconds; slots, as elsewhere, in microseconds. */
module Tiling {
  import opened Results
  import opened Sums
  import opened Scenarios

  const NANOSECONDS := 1_000_000_000
  const LONGEST_SLOT := 3_600

  datatype Reading = Reading(start: int, duration: int, imports: bool, energy: int)

  datatype Interval = Interval(start: int, duration: int, energy: int)

  datatype CoverageError = CoverageMismatch

  function Finish(r: Reading): int {
    r.start + r.duration * NANOSECONDS
  }

  /** What the query returns: valid readings inside the period, by start. */
  predicate Selected(readings: seq<Reading>, from: int, to: int) {
    && (forall i :: 0 <= i < |readings| ==>
      readings[i].duration > 0 && from <= readings[i].start && Finish(readings[i]) <= to)
    && (forall i, j :: 0 <= i < j < |readings| ==> readings[i].start <= readings[j].start)
  }

  predicate Covers(r: Reading, instant: int) {
    r.start <= instant < Finish(r)
  }

  /** Exactly one reading covers the instant. */
  ghost predicate CoveredOnce(readings: seq<Reading>, instant: int) {
    exists i :: 0 <= i < |readings| && Covers(readings[i], instant)
      && forall j :: 0 <= j < |readings| && Covers(readings[j], instant) ==> j == i
  }

  /** Imports that cover every instant of the period exactly once. */
  ghost predicate Tiles(readings: seq<Reading>, from: int, to: int) {
    && readings != [] && (forall i :: 0 <= i < |readings| ==> readings[i].imports)
    && forall instant :: from <= instant < to ==> CoveredOnce(readings, instant)
  }

  /** Where the reading at `i` has to start. */
  function Expected(readings: seq<Reading>, from: int, i: nat): int
    requires i <= |readings|
  {
    if i == 0 then from else Finish(readings[i - 1])
  }

  /** Each reading starts where the one before it ends. */
  predicate Chained(readings: seq<Reading>, from: int, to: int) {
    && readings != [] && Expected(readings, from, |readings|) == to
    && forall i :: 0 <= i < |readings| ==> readings[i].start == Expected(readings, from, i)
  }

  lemma {:induction false} NextExpected(readings: seq<Reading>, from: int)
    ensures Expected(readings, from, 0) == from
    ensures forall i :: 0 < i <= |readings| ==> Expected(readings, from, i) == Finish(readings[i - 1])
  {
  }

  lemma {:induction false} ExpectedAt(readings: seq<Reading>, from: int, i: nat)
    requires i <= |readings|
    ensures Expected(readings, from, i) == if i == 0 then from else Finish(readings[i - 1])
  {
  }

  lemma {:induction false} ChainAt(readings: seq<Reading>, from: int, to: int, i: nat)
    requires Chained(readings, from, to) && i < |readings|
    ensures readings[i].start == if i == 0 then from else Finish(readings[i - 1])
  {
    hide Expected;
    NextExpected(readings, from);
  }

  lemma {:induction false} ChainEnds(readings: seq<Reading>, from: int, to: int)
    requires Chained(readings, from, to)
    ensures Finish(readings[|readings| - 1]) == to
  {
    hide Expected;
    NextExpected(readings, from);
  }

  lemma {:induction false} ChainIsOrdered(readings: seq<Reading>, from: int, to: int, i: nat, j: nat)
    requires Selected(readings, from, to) && Chained(readings, from, to) && i < j < |readings|
    ensures Finish(readings[i]) <= readings[j].start
  {
    hide Chained;
    ChainAt(readings, from, to, j);
    if i + 1 < j {
      ChainIsOrdered(readings, from, to, i, j - 1);
    }
  }

  /** The reading of a chain that covers an instant. */
  lemma {:induction false} ChainCovers(readings: seq<Reading>, from: int, to: int, instant: int, n: nat)
      returns (i: nat)
    requires Selected(readings, from, to) && Chained(readings, from, to) && 1 <= n <= |readings|
    requires from <= instant < Finish(readings[n - 1])
    ensures i < n && Covers(readings[i], instant)
  {
    hide Chained;
    if readings[n - 1].start <= instant {
      return n - 1;
    }
    ChainAt(readings, from, to, n - 1);
    i := ChainCovers(readings, from, to, instant, n - 1);
  }

  lemma {:induction false} ChainNonempty(readings: seq<Reading>, from: int, to: int)
    requires Chained(readings, from, to)
    ensures readings != []
  {
    hide Expected;
  }

  lemma {:induction false} ChainTiles(readings: seq<Reading>, from: int, to: int)
    requires Selected(readings, from, to) && Chained(readings, from, to)
    ensures forall instant :: from <= instant < to ==> CoveredOnce(readings, instant)
  {
    hide Chained;
    ChainEnds(readings, from, to);
    ChainNonempty(readings, from, to);
    forall instant | from <= instant < to
      ensures CoveredOnce(readings, instant)
    {
      var i := ChainCovers(readings, from, to, instant, |readings|);
      forall j | 0 <= j < |readings| && Covers(readings[j], instant)
        ensures j == i
      {
        if i < j {
          ChainIsOrdered(readings, from, to, i, j);
        } else if j < i {
          ChainIsOrdered(readings, from, to, j, i);
        }
      }
    }
  }

  lemma {:induction false} Coverer(readings: seq<Reading>, instant: int) returns (i: nat)
    requires CoveredOnce(readings, instant)
    ensures i < |readings| && Covers(readings[i], instant)
    ensures forall j :: 0 <= j < |readings| && Covers(readings[j], instant) ==> j == i
  {
    i :| 0 <= i < |readings| && Covers(readings[i], instant)
      && forall j :: 0 <= j < |readings| && Covers(readings[j], instant) ==> j == i;
  }

  /** In an exact cover a reading starts where everything before it ends. */
  lemma {:induction false} CoverIsChain(readings: seq<Reading>, from: int, to: int, i: nat)
    requires Selected(readings, from, to) && i < |readings|
    requires forall instant :: from <= instant < to ==> CoveredOnce(readings, instant)
    ensures readings[i].start == Expected(readings, from, i)
    ensures forall j :: 0 <= j < i ==> Finish(readings[j]) <= readings[i].start
  {
    hide CoveredOnce, Expected;
    NextExpected(readings, from);
    if i > 0 {
      CoverIsChain(readings, from, to, i - 1);
    }
    var expected, start := Expected(readings, from, i), readings[i].start;
    if expected < to {
      var k := Coverer(readings, expected);
      assert k >= i;
    }
    var k := Coverer(readings, start);
    assert Covers(readings[i], start);
  }

  lemma {:induction false} CoverEnds(readings: seq<Reading>, from: int, to: int)
    requires Selected(readings, from, to) && readings != []
    requires forall instant :: from <= instant < to ==> CoveredOnce(readings, instant)
    ensures Expected(readings, from, |readings|) == to
  {
    hide CoveredOnce, Expected;
    NextExpected(readings, from);
    var n := |readings| - 1;
    CoverIsChain(readings, from, to, n);
    if Finish(readings[n]) < to {
      var k := Coverer(readings, Finish(readings[n]));
    }
  }

  /** For what the query selects, an unbroken chain and an exact cover are the same. */
  lemma {:induction false} ChainedIffTiled(readings: seq<Reading>, from: int, to: int)
    requires Selected(readings, from, to)
    ensures Tiles(readings, from, to) <==>
      Chained(readings, from, to) && forall i :: 0 <= i < |readings| ==> readings[i].imports
  {
    hide Expected;
    if Chained(readings, from, to) {
      ChainTiles(readings, from, to);
    }
    if Tiles(readings, from, to) {
      CoverEnds(readings, from, to);
      forall i | 0 <= i < |readings|
        ensures readings[i].start == Expected(readings, from, i)
      {
        CoverIsChain(readings, from, to, i);
      }
    }
  }

  /** The replay and comparison loop: accepted exactly when the readings tile the period. */
  method ProfileIntervals(readings: seq<Reading>, from: int, to: int) returns (r: Result<seq<Interval>, CoverageError>)
    requires Selected(readings, from, to)
    ensures r.Ok? <==> Tiles(readings, from, to)
    ensures r.Ok? ==> |r.value| == |readings| && forall i :: 0 <= i < |readings| ==>
      r.value[i] == Interval(readings[i].start, readings[i].duration, readings[i].energy)
  {
    hide Tiles, Expected;
    ChainedIffTiled(readings, from, to);
    ExpectedAt(readings, from, 0);
    var expected := from;
    var intervals: seq<Interval> := [];
    for i := 0 to |readings|
      invariant |intervals| == i && expected == Expected(readings, from, i)
      invariant forall k :: 0 <= k < i ==> readings[k].imports && readings[k].start == Expected(readings, from, k)
      invariant forall k :: 0 <= k < i ==>
        intervals[k] == Interval(readings[k].start, readings[k].duration, readings[k].energy)
    {
      if readings[i].start != expected || !readings[i].imports {
        return Err(CoverageMismatch);
      }
      intervals := intervals + [Interval(readings[i].start, readings[i].duration, readings[i].energy)];
      ExpectedAt(readings, from, i + 1);
      expected := expected + readings[i].duration * NANOSECONDS;
    }
    if intervals == [] || expected != to {
      return Err(CoverageMismatch);
    }
    return Ok(intervals);
  }

  function Energy(readings: seq<Reading>): seq<int> {
    seq(|readings|, i requires 0 <= i < |readings| => readings[i].energy)
  }

  function Measured(slots: seq<Slot>): seq<int> {
    seq(|slots|, i requires 0 <= i < |slots| => slots[i].measured)
  }

  function SlotOf(r: Reading): Slot {
    Slot((r.start / NANOSECONDS) * SECOND, r.duration, r.energy)
  }

  /** In a chain that begins on a whole second, every reading does. */
  lemma {:induction false} ChainInSeconds(readings: seq<Reading>, from: int, to: int, i: nat)
    requires Chained(readings, from, to) && from % NANOSECONDS == 0 && i < |readings|
    ensures readings[i].start % NANOSECONDS == 0
  {
    hide Chained;
    ChainAt(readings, from, to, i);
    if i > 0 {
      ChainInSeconds(readings, from, to, i - 1);
    }
  }

  /** The scenario loop: accepted exactly when the readings tile the period, the period begins on a whole
      second and no reading is longer than an hour; the slots are the same tiling in whole seconds, a
      contiguous grid with the same energy. */
  method ProfileSlots(readings: seq<Reading>, from: int, to: int) returns (r: Result<seq<Slot>, CoverageError>)
    requires Selected(readings, from, to)
    ensures r.Ok? <==>
      (&& Tiles(readings, from, to) && from % NANOSECONDS == 0
       && forall i :: 0 <= i < |readings| ==> readings[i].duration <= LONGEST_SLOT)
    ensures r.Ok? ==>
      && |r.value| == |readings| && ContiguousSlots(r.value)
      && r.value[0].start * 1_000 == from && End(r.value[|r.value| - 1]) * 1_000 == to
      && Sum(Measured(r.value)) == Sum(Energy(readings))
      && forall i :: 0 <= i < |readings| ==>
           && r.value[i].start * 1_000 == readings[i].start && r.value[i].duration == readings[i].duration
           && r.value[i].measured == readings[i].energy
  {
    hide Tiles, Sum, Expected, SlotOf;
    ChainedIffTiled(readings, from, to);
    ExpectedAt(readings, from, 0);
    var expected := from;
    var slots: seq<Slot> := [];
    for i := 0 to |readings|
      invariant |slots| == i && expected == Expected(readings, from, i)
      invariant forall k :: 0 <= k < i ==> readings[k].imports && readings[k].start == Expected(readings, from, k)
      invariant forall k :: 0 <= k < i ==> readings[k].start % NANOSECONDS == 0 && readings[k].duration <= LONGEST_SLOT
      invariant forall k :: 0 <= k < i ==> slots[k] == SlotOf(readings[k])
    {
      if readings[i].start != expected || !readings[i].imports || readings[i].start % NANOSECONDS != 0
        || readings[i].duration > LONGEST_SLOT {
        NotWhole(readings, from, to, i);
        return Err(CoverageMismatch);
      }
      slots := slots + [SlotOf(readings[i])];
      ExpectedAt(readings, from, i + 1);
      expected := expected + readings[i].duration * NANOSECONDS;
    }
    if slots == [] || expected != to {
      return Err(CoverageMismatch);
    }
    SlotsInSeconds(readings, from, to, slots);
    return Ok(slots);
  }

  lemma {:induction false} NotWhole(readings: seq<Reading>, from: int, to: int, i: nat)
    requires i < |readings|
    ensures Chained(readings, from, to) && from % NANOSECONDS == 0 ==> readings[i].start % NANOSECONDS == 0
  {
    if Chained(readings, from, to) && from % NANOSECONDS == 0 {
      ChainInSeconds(readings, from, to, i);
    }
  }

  lemma {:induction false} SlotsInSeconds(readings: seq<Reading>, from: int, to: int, slots: seq<Slot>)
    requires Chained(readings, from, to) && |slots| == |readings|
    requires forall i :: 0 <= i < |readings| ==> readings[i].start % NANOSECONDS == 0 && slots[i] == SlotOf(readings[i])
    ensures ContiguousSlots(slots) && slots[0].start * 1_000 == from && End(slots[|slots| - 1]) * 1_000 == to
    ensures Measured(slots) == Energy(readings)
    ensures forall i :: 0 <= i < |readings| ==>
      && slots[i].start * 1_000 == readings[i].start && slots[i].duration == readings[i].duration
      && slots[i].measured == readings[i].energy
  {
    hide Expected;
    NextExpected(readings, from);
  }
}
