/** Unique identities and disjoint occurrences, as admission and the verifier both check them
  (packages/optimizer/ratereplay_optimizer/scenario.py and verification.py). */
module Identities {
  import opened Results
  import opened Ordering
  import opened Scenarios

  datatype Clash = DuplicateLoad | DuplicateAsset | DuplicateOccurrence

  ghost predicate LoadIdsDiffer(loads: seq<Load>) {
    forall i, j :: 0 <= i < j < |loads| ==> loads[i].id != loads[j].id
  }

  ghost predicate AssetsDiffer(loads: seq<Load>) {
    forall i, j :: 0 <= i < j < |loads| ==> loads[i].asset != loads[j].asset
  }

  ghost predicate OccurrencesDiffer(tasks: seq<Task>) {
    forall t, u :: 0 <= t < u < |tasks| ==> tasks[t].id != tasks[u].id
  }

  /** Load ids, then assets, then occurrence ids, each with the names seen so far: the first kind that has a
      name twice is reported. */
  method CheckIdentities(sc: Scenario) returns (clash: Option<Clash>)
    ensures clash.None? <==> Identified(sc)
    ensures clash == Some(DuplicateLoad) <==> !LoadIdsDiffer(sc.loads)
    ensures clash == Some(DuplicateAsset) <==> LoadIdsDiffer(sc.loads) && !AssetsDiffer(sc.loads)
    ensures clash == Some(DuplicateOccurrence) <==>
      LoadIdsDiffer(sc.loads) && AssetsDiffer(sc.loads) && !OccurrencesDiffer(sc.tasks)
  {
    var ids: set<nat>, assets: set<string>, names: set<nat> := {}, {}, {};
    for i := 0 to |sc.loads|
      invariant forall x :: x in ids <==> exists k :: 0 <= k < i && sc.loads[k].id == x
      invariant forall k, l :: 0 <= k < l < i ==> sc.loads[k].id != sc.loads[l].id
    {
      if sc.loads[i].id in ids {
        return Some(DuplicateLoad);
      }
      ids := ids + {sc.loads[i].id};
    }
    for i := 0 to |sc.loads|
      invariant forall x :: x in assets <==> exists k :: 0 <= k < i && sc.loads[k].asset == x
      invariant forall k, l :: 0 <= k < l < i ==> sc.loads[k].asset != sc.loads[l].asset
    {
      if sc.loads[i].asset in assets {
        return Some(DuplicateAsset);
      }
      assets := assets + {sc.loads[i].asset};
    }
    for t := 0 to |sc.tasks|
      invariant forall x :: x in names <==> exists k :: 0 <= k < t && sc.tasks[k].id == x
      invariant forall k, l :: 0 <= k < l < t ==> sc.tasks[k].id != sc.tasks[l].id
    {
      if sc.tasks[t].id in names {
        return Some(DuplicateOccurrence);
      }
      names := names + {sc.tasks[t].id};
    }
    return None;
  }

  // ----- overlap -----

  /** Windows that are not empty. */
  predicate Open(tasks: seq<Task>) {
    forall i :: 0 <= i < |tasks| ==> tasks[i].earliest < tasks[i].deadline
  }

  ghost predicate AllApart(tasks: seq<Task>) {
    forall i, j :: 0 <= i < j < |tasks| ==> Apart(tasks[i], tasks[j])
  }

  /** Two windows are apart exactly when no instant lies in both. */
  lemma {:induction false} ApartExactly(a: Task, b: Task)
    requires a.earliest < a.deadline && b.earliest < b.deadline
    ensures Apart(a, b) <==> forall t :: !(Covers(a, t) && Covers(b, t))
  {
    var shared := if a.earliest < b.earliest then b.earliest else a.earliest;
    if !Apart(a, b) {
      assert Covers(a, shared) && Covers(b, shared);
    }
  }

  /** The instants of a half-open window. */
  predicate Covers(task: Task, t: int) {
    task.earliest <= t < task.deadline
  }

  /** One load never has two occurrences at one instant. */
  lemma {:induction false} DisjointExactly(sc: Scenario)
    requires Open(sc.tasks)
    ensures DisjointOccurrences(sc) <==>
            forall t, u, instant :: 0 <= t < u < |sc.tasks| && sc.tasks[t].load == sc.tasks[u].load ==>
              !(Covers(sc.tasks[t], instant) && Covers(sc.tasks[u], instant))
  {
    hide Apart, Covers;
    forall t, u | 0 <= t < u < |sc.tasks|
      ensures Apart(sc.tasks[t], sc.tasks[u]) <==>
        forall instant :: !(Covers(sc.tasks[t], instant) && Covers(sc.tasks[u], instant))
    {
      ApartExactly(sc.tasks[t], sc.tasks[u]);
    }
  }

  /** Admission sorts by start and then by deadline, the verifier by start alone; ties keep their order. */
  function ByStart(tasks: seq<Task>, thenDeadline: bool): Order {
    (i: nat, j: nat) => i < |tasks| && j < |tasks| && StartsBefore(tasks, i, j, thenDeadline)
  }

  predicate StartsBefore(tasks: seq<Task>, i: nat, j: nat, thenDeadline: bool)
    requires i < |tasks| && j < |tasks|
  {
    if tasks[i].earliest != tasks[j].earliest then tasks[i].earliest < tasks[j].earliest
    else if thenDeadline && tasks[i].deadline != tasks[j].deadline then tasks[i].deadline < tasks[j].deadline
    else i < j
  }

  lemma {:induction false} ByStartIsTotal(tasks: seq<Task>, thenDeadline: bool)
    ensures StrictTotal(ByStart(tasks, thenDeadline), |tasks|)
  {
  }

  /** Neighbours in the order do not overlap. */
  ghost predicate NeighboursApart(tasks: seq<Task>, ranked: seq<nat>) {
    && (forall k :: 0 <= k < |ranked| ==> ranked[k] < |tasks|)
    && forall k :: 0 < k < |ranked| ==> tasks[ranked[k]].earliest >= tasks[ranked[k - 1]].deadline
  }

  lemma {:induction false} LaterStartsAfter(tasks: seq<Task>, ranked: seq<nat>, k: nat, l: nat)
    requires Open(tasks) && NeighboursApart(tasks, ranked) && k < l < |ranked|
    ensures tasks[ranked[l]].earliest >= tasks[ranked[k]].deadline
  {
    if k + 1 < l {
      LaterStartsAfter(tasks, ranked, k, l - 1);
    }
  }

  /** With either order, checking neighbours is checking every pair. */
  lemma {:induction false} NeighboursSuffice(tasks: seq<Task>, ranked: seq<nat>, thenDeadline: bool)
    requires Open(tasks) && Ranking(ByStart(tasks, thenDeadline), |tasks|, ranked)
    ensures NeighboursApart(tasks, ranked) <==> AllApart(tasks)
  {
    var n := |tasks|;
    if NeighboursApart(tasks, ranked) {
      forall i, j | 0 <= i < j < n
        ensures Apart(tasks[i], tasks[j])
      {
        assert i in ranked && j in ranked;
        var k :| 0 <= k < n && ranked[k] == i;
        var l :| 0 <= l < n && ranked[l] == j;
        if k < l {
          LaterStartsAfter(tasks, ranked, k, l);
        } else {
          LaterStartsAfter(tasks, ranked, l, k);
        }
      }
    }
    if AllApart(tasks) {
      forall k | 0 < k < n
        ensures tasks[ranked[k]].earliest >= tasks[ranked[k - 1]].deadline
      {
        NeighbourApart(tasks, ranked, thenDeadline, k);
      }
    }
  }

  lemma {:induction false} NeighbourApart(tasks: seq<Task>, ranked: seq<nat>, thenDeadline: bool, k: nat)
    requires Open(tasks) && Ranking(ByStart(tasks, thenDeadline), |tasks|, ranked) && AllApart(tasks) && 0 < k < |tasks|
    ensures tasks[ranked[k]].earliest >= tasks[ranked[k - 1]].deadline
  {
    var i, j := ranked[k - 1], ranked[k];
    assert ByStart(tasks, thenDeadline)(i, j);
    assert if i < j then Apart(tasks[i], tasks[j]) else i == j || Apart(tasks[j], tasks[i]);
  }

  /** The occurrences of one load: sorted, then compared pairwise. */
  method CheckLoad(tasks: seq<Task>, thenDeadline: bool) returns (apart: bool)
    requires Open(tasks)
    ensures apart <==> AllApart(tasks)
  {
    hide ByStart;
    ByStartIsTotal(tasks, thenDeadline);
    var ranked := Rank(ByStart(tasks, thenDeadline), |tasks|);
    NeighboursSuffice(tasks, ranked, thenDeadline);
    if tasks == [] {
      return true;
    }
    for k := 1 to |tasks|
      invariant forall l :: 0 < l < k ==> tasks[ranked[l]].earliest >= tasks[ranked[l - 1]].deadline
    {
      if tasks[ranked[k]].earliest < tasks[ranked[k - 1]].deadline {
        return false;
      }
    }
    return true;
  }

  /** The positions of one load's occurrences among the first `n` tasks. */
  function Own(tasks: seq<Task>, load: nat, n: nat): (own: seq<nat>)
    requires n <= |tasks|
    ensures forall i :: 0 <= i < |own| ==> own[i] < n && tasks[own[i]].load == load
    ensures forall i, j :: 0 <= i < j < |own| ==> own[i] < own[j]
    ensures forall t: nat :: t < n && tasks[t].load == load ==> t in own
  {
    if n == 0 then [] else
    Own(tasks, load, n - 1) + if tasks[n - 1].load == load then [n - 1] else []
  }

  function OwnTasks(tasks: seq<Task>, load: nat): (own: seq<Task>)
    ensures |own| == |Own(tasks, load, |tasks|)|
  {
    var positions := Own(tasks, load, |tasks|);
    seq(|positions|, i requires 0 <= i < |positions| => tasks[positions[i]])
  }

  lemma {:induction false} OwnApart(sc: Scenario, load: nat)
    ensures AllApart(OwnTasks(sc.tasks, load))
       <==> forall t, u :: 0 <= t < u < |sc.tasks| && sc.tasks[t].load == sc.tasks[u].load == load ==>
         Apart(sc.tasks[t], sc.tasks[u])
  {
    var positions, own := Own(sc.tasks, load, |sc.tasks|), OwnTasks(sc.tasks, load);
    if AllApart(own) {
      forall t, u | 0 <= t < u < |sc.tasks| && sc.tasks[t].load == sc.tasks[u].load == load
        ensures Apart(sc.tasks[t], sc.tasks[u])
      {
        assert t in positions && u in positions;
        var i :| 0 <= i < |positions| && positions[i] == t;
        var j :| 0 <= j < |positions| && positions[j] == u;
        assert i < j;
        assert Apart(own[i], own[j]);
      }
    }
  }

  /** Every load by itself; together, no two occurrences of one load overlap. */
  method CheckDisjoint(sc: Scenario, thenDeadline: bool) returns (disjoint: bool)
    requires Typed(sc)
    ensures disjoint <==> DisjointOccurrences(sc)
  {
    hide OwnTasks, AllApart, Apart, TypedTask;
    for l := 0 to |sc.loads|
      invariant forall t, u :: 0 <= t < u < |sc.tasks| && sc.tasks[t].load == sc.tasks[u].load < l ==>
        Apart(sc.tasks[t], sc.tasks[u])
    {
      OwnOpen(sc, l);
      OwnApart(sc, l);
      var apart := CheckLoad(OwnTasks(sc.tasks, l), thenDeadline);
      if !apart {
        return false;
      }
    }
    return true;
  }

  lemma {:induction false} OwnOpen(sc: Scenario, load: nat)
    requires Typed(sc)
    ensures Open(OwnTasks(sc.tasks, load))
  {
    forall i | 0 <= i < |OwnTasks(sc.tasks, load)|
      ensures OwnTasks(sc.tasks, load)[i].earliest < OwnTasks(sc.tasks, load)[i].deadline
    {
      assert TypedTask(sc.tasks[Own(sc.tasks, load, |sc.tasks|)[i]]);
    }
  }
}
