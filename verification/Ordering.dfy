/** Sorting by a key, as a ranking of positions. */
module Ordering {

  /** Which of two positions comes first. */
  type Order = (nat, nat) -> bool

  ghost predicate StrictTotal(before: Order, n: nat) {
    && (forall i: nat :: i < n ==> !before(i, i))
    && (forall i: nat, j: nat :: i < n && j < n && i != j ==> before(i, j) || before(j, i))
    && (forall i: nat, j: nat, k: nat :: i < n && j < n && k < n && before(i, j) && before(j, k) ==> before(i, k))
  }

  /** Every position below `n` once, each before the next. */
  ghost predicate Ranking(before: Order, n: nat, ranked: seq<nat>) {
    && |ranked| == n
    && (forall k :: 0 <= k < n ==> ranked[k] < n)
    && (forall k, l :: 0 <= k < l < n ==> before(ranked[k], ranked[l]))
    && (forall i: nat :: i < n ==> i in ranked)
  }

  /** `sorted(range(n), …)`, as an insertion of one position after another. */
  method Rank(before: Order, n: nat) returns (ranked: seq<nat>)
    requires StrictTotal(before, n)
    ensures Ranking(before, n, ranked)
  {
    ranked := [];
    for m := 0 to n
      invariant Ranking(before, m, ranked)
    {
      var at := 0;
      while at < m && before(ranked[at], m)
        invariant 0 <= at <= m
        invariant forall k :: 0 <= k < at ==> before(ranked[k], m)
      {
        at := at + 1;
      }
      Inserted(before, n, m, ranked, at);
      ranked := ranked[..at] + [m] + ranked[at..];
    }
  }

  lemma {:induction false} Inserted(before: Order, n: nat, m: nat, ranked: seq<nat>, at: nat)
    requires StrictTotal(before, n) && m < n && Ranking(before, m, ranked) && at <= m
    requires forall k :: 0 <= k < at ==> before(ranked[k], m)
    requires at < m ==> !before(ranked[at], m)
    ensures Ranking(before, m + 1, ranked[..at] + [m] + ranked[at..])
  {
    var next := ranked[..at] + [m] + ranked[at..];
    forall k | at <= k < m
      ensures before(m, ranked[k])
    {
      assert before(m, ranked[at]);
      assert k > at ==> before(ranked[at], ranked[k]);
    }
    forall i: nat | i < m + 1
      ensures i in next
    {
      if i < m {
        assert i in ranked;
        var k :| 0 <= k < m && ranked[k] == i;
        assert next[if k < at then k else k + 1] == i;
      } else {
        assert next[at] == i;
      }
    }
  }
}
