/** The sliding-window request limiter (apps/api/ratereplay_api/abuse.py).

  Time is an integer number of microseconds, the resolution of a Python `datetime`. The limiter sees
  an identifier only through its keyed digest, which is an arbitrary function here, so nothing below
  depends on HMAC. */
module Limiter {
  import opened Arithmetic
  import opened Text

  const MICROS_PER_SECOND := 1_000_000

  /** A hexadecimal digest, read as the number it writes. */
  type Digest = nat

  /** The constructor arguments that decide behaviour; `overflow` is the digest of "overflow". */
  datatype Config = Config(limit: int, window: int, maximumIdentifiers: int, overflow: Digest) {
    predicate Valid() {
      limit >= 1 && window > 0 && maximumIdentifiers >= 1
    }
  }

  /** A call: the digest of its identifier, and the clock. */
  datatype Request = Request(digest: Digest, now: int)

  datatype Decision = Admitted | Rejected(retryAfter: int)

  type Buckets = map<Digest, seq<int>>

  datatype Outcome = Outcome(buckets: Buckets, bucket: Digest, decision: Decision)

  // ----- one call as a function of the retained buckets -----

  /** Popping the left end of a deque while it is expired. */
  function DropExpired(times: seq<int>, cutoff: int): seq<int> {
    if times != [] && times[0] <= cutoff then DropExpired(times[1..], cutoff) else times
  }

  function Purge(m: Buckets, cutoff: int): Buckets {
    map d | d in m && DropExpired(m[d], cutoff) != [] :: DropExpired(m[d], cutoff)
  }

  function Get(m: Buckets, d: Digest): seq<int> {
    if d in m then m[d] else []
  }

  /** The bucket that a digest is charged to, given how many buckets are live. */
  function Route(c: Config, live: set<Digest>, digest: Digest): Digest {
    var directCapacity := c.maximumIdentifiers - (if c.overflow !in live then 1 else 0);
    if digest !in live && |live| >= directCapacity then c.overflow else digest
  }

  /** Microseconds rounded up to whole seconds. */
  function CeilSeconds(micros: int): int {
    -((-micros) / MICROS_PER_SECOND)
  }

  function RetryAfter(c: Config, oldest: int, now: int): int {
    var seconds := CeilSeconds(oldest + c.window - now);
    if seconds > 1 then seconds else 1
  }

  /** The verdict on a request, from the live times of the bucket it is charged to. */
  function Verdict(c: Config, times: seq<int>, now: int): Decision
    requires c.Valid()
  {
    if |times| >= c.limit then Rejected(RetryAfter(c, times[0], now)) else Admitted
  }

  /** Charging a bucket, once only live times are left. */
  function Charge(c: Config, live: Buckets, bucket: Digest, now: int): Outcome
    requires c.Valid()
  {
    var times := Get(live, bucket);
    var verdict := Verdict(c, times, now);
    Outcome(if verdict.Admitted? then live[bucket := times + [now]] else live, bucket, verdict)
  }

  function Step(c: Config, m: Buckets, q: Request): Outcome
    requires c.Valid()
  {
    var live := Purge(m, q.now - c.window);
    Charge(c, live, Route(c, live.Keys, q.digest), q.now)
  }

  // ----- the class -----

  class SlidingWindowRateLimiter {
    const config: Config
    const digestOf: string -> Digest
    var attempts: Buckets

    constructor (limit: int, window: int, maximumIdentifiers: int, digestOf: string -> Digest)
      ensures config == Config(limit, window, maximumIdentifiers, digestOf("overflow"))
      ensures this.digestOf == digestOf && attempts == map[]
    {
      config := Config(limit, window, maximumIdentifiers, digestOf("overflow"));
      this.digestOf := digestOf;
      attempts := map[];
    }

    /** Construction with its two refusals: a short key, or a bound that is not positive. */
    static method Create(keyLength: nat, limit: int, window: int, maximumIdentifiers: int, digestOf: string -> Digest)
      returns (limiter: SlidingWindowRateLimiter?)
      ensures limiter == null <==> keyLength < 32 || limit < 1 || window <= 0 || maximumIdentifiers < 1
      ensures limiter != null ==>
        && fresh(limiter) && limiter.config.Valid() && limiter.attempts == map[] && limiter.digestOf == digestOf
        && limiter.config == Config(limit, window, maximumIdentifiers, digestOf("overflow"))
    {
      if keyLength < 32 || limit < 1 || window <= 0 || maximumIdentifiers < 1 {
        return null;
      }
      limiter := new SlidingWindowRateLimiter(limit, window, maximumIdentifiers, digestOf);
    }

    method DiscardExpired(cutoff: int)
      modifies this
      ensures attempts == Purge(old(attempts), cutoff)
    {
      var expired: set<Digest> := {};
      var pending := attempts.Keys;
      ghost var before := attempts;
      while pending != {}
        invariant attempts.Keys == before.Keys
        invariant pending <= before.Keys && expired <= before.Keys - pending
        invariant forall d :: d in pending ==> attempts[d] == before[d]
        invariant forall d :: d in before && d !in pending ==> attempts[d] == DropExpired(before[d], cutoff)
        invariant forall d :: d in before && d !in pending ==> (d in expired <==> attempts[d] == [])
        decreases pending
      {
        var d :| d in pending;
        var times := attempts[d];
        while times != [] && times[0] <= cutoff
          invariant DropExpired(times, cutoff) == DropExpired(before[d], cutoff)
        {
          times := times[1..];
        }
        attempts := attempts[d := times];
        if times == [] {
          expired := expired + {d};
        }
        pending := pending - {d};
      }
      attempts := map d | d in attempts && d !in expired :: attempts[d];
    }

    method Check(identifier: string, now: int) returns (decision: Decision)
      requires config.Valid()
      modifies this
      ensures attempts == Step(config, old(attempts), Request(digestOf(identifier), now)).buckets
      ensures decision == Step(config, old(attempts), Request(digestOf(identifier), now)).decision
      ensures Bounded(config, old(attempts)) ==> Bounded(config, attempts)
    {
      hide Bounded, Purge, Charge, Route;
      var digest := digestOf(identifier);
      DiscardExpired(now - config.window);
      var bucket := SelectBucket(digest);
      PurgeHeads(old(attempts), now - config.window);
      decision := ChargeBucket(bucket, now);
      if Bounded(config, old(attempts)) {
        StepKeepsBounded(config, old(attempts), Request(digest, now));
      }
    }

    /** A digest without a bucket goes to the shared one when no direct place is free. */
    method SelectBucket(digest: Digest) returns (bucket: Digest)
      ensures bucket == Route(config, attempts.Keys, digest)
      ensures HasRoom(config, attempts.Keys, bucket)
    {
      bucket := digest;
      if digest !in attempts {
        var overflowReserved := config.overflow !in attempts;
        var directCapacity := config.maximumIdentifiers - (if overflowReserved then 1 else 0);
        if |attempts.Keys| >= directCapacity {
          bucket := config.overflow;
        }
      }
    }

    /** The end of a check: the deque of the routed bucket, created if absent, takes the call or not. */
    method ChargeBucket(bucket: Digest, now: int) returns (decision: Decision)
      requires config.Valid()
      requires forall d :: d in attempts ==> attempts[d] != [] && attempts[d][0] > now - config.window
      modifies this
      ensures attempts == Charge(config, old(attempts), bucket, now).buckets
      ensures decision == Charge(config, old(attempts), bucket, now).decision
    {
      hide RetryAfter;
      if bucket !in attempts {
        attempts := attempts[bucket := []];
      }
      var times := attempts[bucket];
      while times != [] && times[0] <= now - config.window
        invariant DropExpired(times, now - config.window) == Get(old(attempts), bucket)
      {
        times := times[1..];
      }
      if |times| >= config.limit {
        decision := Rejected(RetryAfter(config, times[0], now));
        attempts := attempts[bucket := times];
      } else {
        decision := Admitted;
        attempts := attempts[bucket := times + [now]];
      }
    }
  }

  // ----- purging -----

  lemma {:induction false} DropExpiredFacts(times: seq<int>, cutoff: int)
    ensures |DropExpired(times, cutoff)| <= |times|
    ensures times != [] ==> (|DropExpired(times, cutoff)| < |times| <==> times[0] <= cutoff)
    ensures DropExpired(times, cutoff) != [] ==> DropExpired(times, cutoff)[0] > cutoff
    ensures DropExpired(DropExpired(times, cutoff), cutoff) == DropExpired(times, cutoff)
  {
    if times != [] && times[0] <= cutoff {
      DropExpiredFacts(times[1..], cutoff);
    }
  }

  lemma {:induction false} PurgeLeavesLive(m: Buckets, cutoff: int)
    ensures Purge(m, cutoff).Keys <= m.Keys
    ensures forall d :: d in Purge(m, cutoff) ==>
      |Purge(m, cutoff)[d]| >= 1 && |Purge(m, cutoff)[d]| <= |m[d]| && Purge(m, cutoff)[d][0] > cutoff
    ensures forall d :: DropExpired(Get(Purge(m, cutoff), d), cutoff) == Get(Purge(m, cutoff), d)
  {
    forall d | d in m
      ensures |DropExpired(m[d], cutoff)| <= |m[d]|
      ensures DropExpired(m[d], cutoff) != [] ==> DropExpired(m[d], cutoff)[0] > cutoff
      ensures DropExpired(DropExpired(m[d], cutoff), cutoff) == DropExpired(m[d], cutoff)
    {
      DropExpiredFacts(m[d], cutoff);
    }
  }

  lemma {:induction false} PurgeHeads(m: Buckets, cutoff: int)
    ensures forall d :: d in Purge(m, cutoff) ==> Purge(m, cutoff)[d] != [] && Purge(m, cutoff)[d][0] > cutoff
  {
    PurgeLeavesLive(m, cutoff);
  }

  // ----- memory: for every run, whatever the clock does -----

  /** What is retained between calls: few buckets, one of them reserved, none empty or over-full. */
  predicate Bounded(c: Config, m: Buckets) {
    Capped(c, m.Keys) && forall d :: d in m ==> 1 <= |m[d]| <= c.limit
  }

  predicate Capped(c: Config, buckets: set<Digest>) {
    |buckets| <= c.maximumIdentifiers && |buckets - {c.overflow}| <= c.maximumIdentifiers - 1
  }

  /** Adding one bucket to a bounded set of them, one place being kept for `reserved`. */
  lemma {:induction false} AddWithinCap<T>(live: set<T>, reserved: T, added: T, cap: int)
    requires |live| <= cap && |live - {reserved}| <= cap - 1
    requires added == reserved || added in live || |live| < cap - (if reserved !in live then 1 else 0)
    ensures |live + {added}| <= cap && |(live + {added}) - {reserved}| <= cap - 1
  {
    AddSize(live, added);
    RemoveSize(live + {added}, reserved);
    RemoveSize(live, reserved);
  }

  lemma {:induction false} PurgeKeepsBounded(c: Config, m: Buckets, cutoff: int)
    requires Bounded(c, m)
    ensures Bounded(c, Purge(m, cutoff))
  {
    PurgeLeavesLive(m, cutoff);
    SubsetSize(Purge(m, cutoff).Keys, m.Keys);
    SubsetSize(Purge(m, cutoff).Keys - {c.overflow}, m.Keys - {c.overflow});
  }

  /** A bucket that may be charged without passing the cap. */
  predicate HasRoom(c: Config, live: set<Digest>, bucket: Digest) {
    || bucket == c.overflow
    || bucket in live
    || |live| < c.maximumIdentifiers - (if c.overflow !in live then 1 else 0)
  }

  lemma {:induction false} RouteHasRoom(c: Config, live: set<Digest>, digest: Digest)
    ensures HasRoom(c, live, Route(c, live, digest))
  {
  }

  lemma {:induction false} RoomKeepsCap(c: Config, live: set<Digest>, bucket: Digest)
    requires Capped(c, live) && HasRoom(c, live, bucket)
    ensures Capped(c, live + {bucket})
  {
    AddWithinCap(live, c.overflow, bucket, c.maximumIdentifiers);
  }

  lemma {:induction false} KeysAfterUpdate(m: Buckets, bucket: Digest, times: seq<int>)
    ensures m[bucket := times].Keys == m.Keys + {bucket}
  {
  }

  lemma {:induction false} AppendKeepsBounded(c: Config, live: Buckets, bucket: Digest, now: int)
    requires Bounded(c, live) && |Get(live, bucket)| < c.limit && HasRoom(c, live.Keys, bucket)
    ensures Bounded(c, live[bucket := Get(live, bucket) + [now]])
  {
    hide Get, Capped, HasRoom;
    ghost var times := Get(live, bucket) + [now];
    RoomKeepsCap(c, live.Keys, bucket);
    KeysAfterUpdate(live, bucket, times);
  }

  lemma {:induction false} StepKeepsBounded(c: Config, m: Buckets, q: Request)
    requires c.Valid() && Bounded(c, m)
    ensures Bounded(c, Step(c, m, q).buckets)
  {
    hide RetryAfter, Purge, Bounded, Get, Route, HasRoom;
    var live := Purge(m, q.now - c.window);
    PurgeKeepsBounded(c, m, q.now - c.window);
    RouteHasRoom(c, live.Keys, q.digest);
    var o := Step(c, m, q);
    if o.decision.Admitted? {
      AppendKeepsBounded(c, live, o.bucket, q.now);
    }
  }

  /** The buckets after a run of calls on a new limiter. */
  function Run(c: Config, qs: seq<Request>): Buckets
    requires c.Valid()
  {
    if qs == [] then map[] else Step(c, Run(c, qs[..|qs| - 1]), qs[|qs| - 1]).buckets
  }

  lemma {:induction false} RunIsBounded(c: Config, qs: seq<Request>)
    requires c.Valid()
    ensures Bounded(c, Run(c, qs))
  {
    if qs != [] {
      RunIsBounded(c, qs[..|qs| - 1]);
      StepKeepsBounded(c, Run(c, qs[..|qs| - 1]), qs[|qs| - 1]);
    }
  }

  // ----- the unbounded log, and the limiter that reads nothing else -----

  datatype Admission = Admission(time: int, bucket: Digest, digest: Digest)

  /** The ordered times of a bucket's admissions after the cutoff. */
  function Live(log: seq<Admission>, bucket: Digest, cutoff: int): seq<int> {
    if log == [] then []
    else
      var a := log[|log| - 1];
      Live(log[..|log| - 1], bucket, cutoff) + (if a.bucket == bucket && a.time > cutoff then [a.time] else [])
  }

  function LiveBuckets(log: seq<Admission>, cutoff: int): set<Digest> {
    set a | a in log && a.time > cutoff :: a.bucket
  }

  /** Who has a bucket of their own: whoever has live admissions in it, and newcomers while fewer than all
      places but the shared one are taken. */
  predicate Direct(c: Config, live: set<Digest>, digest: Digest) {
    digest in live || digest == c.overflow || |live - {c.overflow}| < c.maximumIdentifiers - 1
  }

  /** Routing and verdict from the complete log of admissions. */
  function LogBucket(c: Config, log: seq<Admission>, q: Request): Digest {
    if Direct(c, LiveBuckets(log, q.now - c.window), q.digest) then q.digest else c.overflow
  }

  function LogDecision(c: Config, log: seq<Admission>, q: Request): Decision
    requires c.Valid()
  {
    var times := Live(log, LogBucket(c, log, q), q.now - c.window);
    if |times| < c.limit then Admitted else Rejected(RetryAfter(c, times[0], q.now))
  }

  function LogStep(c: Config, log: seq<Admission>, q: Request): seq<Admission>
    requires c.Valid()
  {
    if LogDecision(c, log, q).Admitted? then log + [Admission(q.now, LogBucket(c, log, q), q.digest)] else log
  }

  /** Every admission of a run, decided from the log alone. */
  function LogRun(c: Config, qs: seq<Request>): seq<Admission>
    requires c.Valid()
  {
    if qs == [] then [] else LogStep(c, LogRun(c, qs[..|qs| - 1]), qs[|qs| - 1])
  }

  ghost predicate Nondecreasing(qs: seq<Request>) {
    forall i, j :: 0 <= i < j < |qs| ==> qs[i].now <= qs[j].now
  }

  ghost predicate Ordered(log: seq<Admission>) {
    forall i, j :: 0 <= i < j < |log| ==> log[i].time <= log[j].time
  }

  /** The retained buckets are exactly the live part of the log. */
  ghost predicate Agrees(m: Buckets, log: seq<Admission>, cutoff: int) {
    && (forall d :: Get(m, d) == Live(log, d, cutoff))
    && (forall d :: d in m ==> m[d] != [])
  }

  lemma {:induction false} DropExpiredSnoc(times: seq<int>, x: int, cutoff: int)
    requires x > cutoff
    ensures DropExpired(times + [x], cutoff) == DropExpired(times, cutoff) + [x]
  {
    if times != [] && times[0] <= cutoff {
      assert (times + [x])[1..] == times[1..] + [x];
      DropExpiredSnoc(times[1..], x, cutoff);
    }
  }

  lemma {:induction false} DropExpiredAll(times: seq<int>, cutoff: int)
    requires forall i :: 0 <= i < |times| ==> times[i] <= cutoff
    ensures DropExpired(times, cutoff) == []
  {
    if times != [] {
      DropExpiredAll(times[1..], cutoff);
    }
  }

  lemma {:induction false} LiveMembers(log: seq<Admission>, d: Digest, cutoff: int)
    ensures forall t :: t in Live(log, d, cutoff) ==> t > cutoff && exists a :: a in log && a.bucket == d && a.time == t
    ensures forall a :: a in log && a.bucket == d && a.time > cutoff ==> a.time in Live(log, d, cutoff)
  {
    if log != [] {
      LiveMembers(log[..|log| - 1], d, cutoff);
      assert log == log[..|log| - 1] + [log[|log| - 1]];
    }
  }

  lemma {:induction false} LiveEmpty(log: seq<Admission>, d: Digest, cutoff: int)
    requires forall i :: 0 <= i < |log| ==> log[i].time <= cutoff
    ensures Live(log, d, cutoff) == []
  {
    if log != [] {
      LiveEmpty(log[..|log| - 1], d, cutoff);
    }
  }

  /** Moving the cutoff forward pops exactly the newly expired prefix, because the log is ordered. */
  lemma {:induction false} LiveAdvances(log: seq<Admission>, d: Digest, cutoff: int, later: int)
    requires Ordered(log) && cutoff <= later
    ensures DropExpired(Live(log, d, cutoff), later) == Live(log, d, later)
  {
    if log != [] {
      var rest, a := log[..|log| - 1], log[|log| - 1];
      LiveAdvances(rest, d, cutoff, later);
      if a.bucket == d && a.time > later {
        DropExpiredSnoc(Live(rest, d, cutoff), a.time, later);
      } else if a.bucket == d && a.time > cutoff {
        LiveMembers(log, d, cutoff);
        forall i | 0 <= i < |Live(log, d, cutoff)|
          ensures Live(log, d, cutoff)[i] <= later
        {
          assert Live(log, d, cutoff)[i] in Live(log, d, cutoff);
          var b :| b in log && b.bucket == d && b.time == Live(log, d, cutoff)[i];
        }
        DropExpiredAll(Live(log, d, cutoff), later);
        LiveEmpty(log, d, later);
      } else {
        assert Live(log, d, cutoff) == Live(rest, d, cutoff) && Live(log, d, later) == Live(rest, d, later);
      }
    }
  }

  lemma {:induction false} PurgeAgrees(m: Buckets, log: seq<Admission>, cutoff: int, later: int)
    requires Agrees(m, log, cutoff) && Ordered(log) && cutoff <= later
    ensures Agrees(Purge(m, later), log, later)
    ensures Purge(m, later).Keys == LiveBuckets(log, later)
  {
    var p := Purge(m, later);
    forall d
      ensures Get(p, d) == Live(log, d, later)
      ensures d in p <==> d in LiveBuckets(log, later)
    {
      assert Get(m, d) == Live(log, d, cutoff);
      LiveAdvances(log, d, cutoff, later);
      LiveMembers(log, d, later);
      if d in p {
        assert p[d][0] in Live(log, d, later);
        var a :| a in log && a.bucket == d && a.time == p[d][0];
      }
    }
  }

  lemma {:induction false} NewLimiterAgrees(cutoff: int)
    ensures Agrees(map[], [], cutoff)
  {
  }

  ghost predicate LogUpTo(log: seq<Admission>, now: int) {
    Ordered(log) && forall a :: a in log ==> a.time <= now
  }

  lemma {:induction false} StepAgrees(c: Config, m: Buckets, log: seq<Admission>, cutoff: int, q: Request)
    requires c.Valid() && Agrees(m, log, cutoff) && LogUpTo(log, q.now) && cutoff <= q.now - c.window
    ensures Step(c, m, q).bucket == LogBucket(c, log, q)
    ensures Step(c, m, q).decision == LogDecision(c, log, q)
    ensures Agrees(Step(c, m, q).buckets, LogStep(c, log, q), q.now - c.window)
    ensures LogUpTo(LogStep(c, log, q), q.now)
  {
    hide Route, RetryAfter, Direct, Purge, Agrees, Live, LiveBuckets, Get;
    var later := q.now - c.window;
    PurgeAgrees(m, log, cutoff, later);
    RouteIsDirect(c, Purge(m, later).Keys, q.digest);
    AgreesAt(Purge(m, later), log, later, LogBucket(c, log, q));
    if LogDecision(c, log, q).Admitted? {
      AppendAgrees(Purge(m, later), log, later, Admission(q.now, LogBucket(c, log, q), q.digest));
    }
  }

  lemma {:induction false} RouteIsDirect(c: Config, live: set<Digest>, digest: Digest)
    ensures Route(c, live, digest) == if Direct(c, live, digest) then digest else c.overflow
  {
    RemoveSize(live, c.overflow);
  }

  lemma {:induction false} AgreesAt(m: Buckets, log: seq<Admission>, cutoff: int, d: Digest)
    requires Agrees(m, log, cutoff)
    ensures Get(m, d) == Live(log, d, cutoff)
  {
  }

  lemma {:induction false} AppendAgrees(m: Buckets, log: seq<Admission>, cutoff: int, a: Admission)
    requires Agrees(m, log, cutoff) && a.time > cutoff
    ensures Agrees(m[a.bucket := Get(m, a.bucket) + [a.time]], log + [a], cutoff)
  {
    assert (log + [a])[..|log|] == log;
    forall d
      ensures Get(m[a.bucket := Get(m, a.bucket) + [a.time]], d) == Live(log + [a], d, cutoff)
    {
      assert Get(m, d) == Live(log, d, cutoff);
    }
  }

  /** Refinement: on a nondecreasing clock the bounded map is the live part of the log. */
  lemma {:induction false} RunRefinesLog(c: Config, qs: seq<Request>)
    requires c.Valid() && Nondecreasing(qs)
    ensures LogUpTo(LogRun(c, qs), if qs == [] then 0 else qs[|qs| - 1].now)
    ensures qs != [] ==> Agrees(Run(c, qs), LogRun(c, qs), qs[|qs| - 1].now - c.window)
  {
    hide Step, LogStep, Live, Agrees;
    if qs != [] {
      var rest, q := qs[..|qs| - 1], qs[|qs| - 1];
      RunRefinesLog(c, rest);
      var cutoff := if rest == [] then q.now - c.window else rest[|rest| - 1].now - c.window;
      NewLimiterAgrees(cutoff);
      StepAgrees(c, Run(c, rest), LogRun(c, rest), cutoff, q);
    }
  }

  /** What holds when the next call of a nondecreasing run arrives. */
  lemma {:induction false} RunAgreesBefore(c: Config, qs: seq<Request>, q: Request) returns (cutoff: int)
    requires c.Valid() && Nondecreasing(qs + [q])
    ensures Nondecreasing(qs) && cutoff <= q.now - c.window
    ensures Agrees(Run(c, qs), LogRun(c, qs), cutoff) && LogUpTo(LogRun(c, qs), q.now)
  {
    hide Step, LogStep, Live, Agrees;
    forall i, j | 0 <= i < j < |qs|
      ensures qs[i].now <= qs[j].now
    {
      assert (qs + [q])[i].now <= (qs + [q])[j].now;
    }
    RunRefinesLog(c, qs);
    if qs != [] {
      assert (qs + [q])[|qs| - 1].now <= (qs + [q])[|qs|].now;
      cutoff := qs[|qs| - 1].now - c.window;
    } else {
      cutoff := q.now - c.window;
      NewLimiterAgrees(cutoff);
    }
  }

  /** Every routing, admission and rejection is the one the complete log calls for. */
  lemma {:induction false} DecisionsRefineLog(c: Config, qs: seq<Request>, q: Request)
    requires c.Valid() && Nondecreasing(qs + [q])
    ensures Step(c, Run(c, qs), q).bucket == LogBucket(c, LogRun(c, qs), q)
    ensures Step(c, Run(c, qs), q).decision == LogDecision(c, LogRun(c, qs), q)
  {
    hide Step, LogStep, Live, Agrees, LogDecision;
    var cutoff := RunAgreesBefore(c, qs, q);
    StepAgrees(c, Run(c, qs), LogRun(c, qs), cutoff, q);
  }

  /** The log that the bounded limiter itself produces over a run. */
  function RunLog(c: Config, qs: seq<Request>): seq<Admission>
    requires c.Valid()
  {
    if qs == [] then []
    else
      var q := qs[|qs| - 1];
      var o := Step(c, Run(c, qs[..|qs| - 1]), q);
      RunLog(c, qs[..|qs| - 1]) + (if o.decision.Admitted? then [Admission(q.now, o.bucket, q.digest)] else [])
  }

  /** The bounded limiter and the one that scans the unbounded log admit the same calls, to the same buckets. */
  lemma {:induction false} RunLogIsLogRun(c: Config, qs: seq<Request>)
    requires c.Valid() && Nondecreasing(qs)
    ensures RunLog(c, qs) == LogRun(c, qs)
  {
    hide Step, LogBucket, LogDecision;
    if qs != [] {
      var rest, q := qs[..|qs| - 1], qs[|qs| - 1];
      RunLogIsLogRun(c, rest);
      assert rest + [q] == qs;
      DecisionsRefineLog(c, rest, q);
    }
  }

  /** A call, read from what was admitted before it: it is charged to its own bucket exactly when that
      bucket has a live admission, is the shared one, or a direct place is free, and otherwise to the shared
      bucket; and it is admitted exactly when fewer than `limit` live admissions were charged there. */
  lemma {:induction false} ChargedExactly(c: Config, qs: seq<Request>, q: Request)
    requires c.Valid() && Nondecreasing(qs + [q])
    ensures var live := LiveBuckets(RunLog(c, qs), q.now - c.window);
            var o := Step(c, Run(c, qs), q);
            && o.bucket == (if Direct(c, live, q.digest) then q.digest else c.overflow)
            && (o.decision.Admitted? <==> CountIn(c, RunLog(c, qs), {o.bucket}, q.now - c.window + 1) < c.limit)
  {
    hide Step, Run, RunLog, Live, CountIn, LiveBuckets, Direct, Agrees, Ordered;
    ClockWithout(qs, q, []);
    assert qs + [q] + [] == qs + [q] && qs + [] == qs;
    RunLogIsLogRun(c, qs);
    DecisionsRefineLog(c, qs, q);
    var _ := RunAgreesBefore(c, qs, q);
    LiveIsCount(c, LogRun(c, qs), LogBucket(c, LogRun(c, qs), q), q.now);
  }

  lemma {:induction false} LiveIsCount(c: Config, log: seq<Admission>, d: Digest, now: int)
    requires forall a :: a in log ==> a.time <= now
    ensures CountIn(c, log, {d}, now - c.window + 1) == |Live(log, d, now - c.window)|
  {
    if log != [] {
      var rest, a := log[..|log| - 1], log[|log| - 1];
      assert a in log;
      LiveIsCount(c, rest, d, now);
    }
  }

  /** A rejected call leaves no trace: dropping it from a run changes no later admission. */
  lemma {:induction false} RejectionsAreFree(c: Config, before: seq<Request>, q: Request, later: seq<Request>)
    requires c.Valid() && Nondecreasing(before + [q] + later)
    requires Step(c, Run(c, before), q).decision.Rejected?
    ensures RunLog(c, before + [q] + later) == RunLog(c, before + later)
  {
    hide Step, Run, RunLog, Nondecreasing;
    ClockWithout(before, q, later);
    DecisionsRefineLog(c, before, q);
    RejectionLeavesLog(c, before, q, later);
    RunLogIsLogRun(c, before + [q] + later);
    RunLogIsLogRun(c, before + later);
  }

  /** A forward clock stays forward when a call is taken out, or when the run is cut after it. */
  lemma {:induction false} ClockWithout(before: seq<Request>, q: Request, later: seq<Request>)
    requires Nondecreasing(before + [q] + later)
    ensures Nondecreasing(before + [q]) && Nondecreasing(before + later)
  {
    var all := before + [q] + later;
    assert before + [q] == all[..|before| + 1];
    forall i, j | 0 <= i < j < |before + later|
      ensures (before + later)[i].now <= (before + later)[j].now
    {
      assert (before + later)[i] == all[if i < |before| then i else i + 1];
      assert (before + later)[j] == all[if j < |before| then j else j + 1];
    }
  }

  lemma {:induction false} RejectionLeavesLog(c: Config, before: seq<Request>, q: Request, later: seq<Request>)
    requires c.Valid() && LogDecision(c, LogRun(c, before), q).Rejected?
    ensures LogRun(c, before + [q] + later) == LogRun(c, before + later)
  {
    hide LogDecision;
    if later == [] {
      assert before + [q] + later == before + [q] && before + later == before;
      assert (before + [q])[..|before|] == before;
    } else {
      var rest, x := later[..|later| - 1], later[|later| - 1];
      var full := before + [q] + later;
      assert full[..|full| - 1] == before + [q] + rest && full[|full| - 1] == x;
      assert (before + later)[..|before + later| - 1] == before + rest && (before + later)[|before + later| - 1] == x;
      RejectionLeavesLog(c, before, q, rest);
    }
  }

  // ----- whole-run bounds over any interval of one window length -----

  predicate Within(c: Config, a: Admission, t: int) {
    t <= a.time < t + c.window
  }

  /** Admissions in [t, t + window) charged to one of the given buckets. */
  function CountIn(c: Config, log: seq<Admission>, buckets: set<Digest>, t: int): nat {
    if log == [] then 0
    else
      var a := log[|log| - 1];
      CountIn(c, log[..|log| - 1], buckets, t) + (if Within(c, a, t) && a.bucket in buckets then 1 else 0)
  }

  /** Admissions in [t, t + window) of one identifier. */
  function CountOf(c: Config, log: seq<Admission>, digest: Digest, t: int): nat {
    if log == [] then 0
    else
      var a := log[|log| - 1];
      CountOf(c, log[..|log| - 1], digest, t) + (if Within(c, a, t) && a.digest == digest then 1 else 0)
  }

  /** All admissions in [t, t + window). */
  function CountAll(c: Config, log: seq<Admission>, t: int): nat {
    if log == [] then 0
    else CountAll(c, log[..|log| - 1], t) + (if Within(c, log[|log| - 1], t) then 1 else 0)
  }

  lemma {:induction false} CountAtMostLive(c: Config, log: seq<Admission>, d: Digest, t: int, cutoff: int)
    requires cutoff < t
    ensures CountIn(c, log, {d}, t) <= |Live(log, d, cutoff)|
  {
    if log != [] {
      CountAtMostLive(c, log[..|log| - 1], d, t, cutoff);
    }
  }

  lemma {:induction false} LogStepShape(c: Config, log: seq<Admission>, q: Request)
    requires c.Valid()
    ensures LogStep(c, log, q) != log <==> LogDecision(c, log, q).Admitted?
    ensures LogStep(c, log, q) != log ==>
      && |LogStep(c, log, q)| == |log| + 1
      && LogStep(c, log, q)[..|log|] == log
      && LogStep(c, log, q)[|log|] == Admission(q.now, LogBucket(c, log, q), q.digest)
      && |Live(log, LogBucket(c, log, q), q.now - c.window)| < c.limit
  {
  }

  lemma {:induction false} BucketBound(c: Config, qs: seq<Request>, d: Digest, t: int)
    requires c.Valid()
    ensures CountIn(c, LogRun(c, qs), {d}, t) <= c.limit
  {
    hide LogStep, LogDecision, LogBucket, Live;
    if qs != [] {
      var log, q := LogRun(c, qs[..|qs| - 1]), qs[|qs| - 1];
      BucketBound(c, qs[..|qs| - 1], d, t);
      LogStepShape(c, log, q);
      if Within(c, Admission(q.now, d, q.digest), t) {
        CountAtMostLive(c, log, d, t, q.now - c.window);
      }
    }
  }

  lemma {:induction false} IdentifierSplits(c: Config, qs: seq<Request>, digest: Digest, t: int)
    requires c.Valid()
    ensures CountOf(c, LogRun(c, qs), digest, t)
         <= CountIn(c, LogRun(c, qs), {digest}, t) + CountIn(c, LogRun(c, qs), {c.overflow}, t)
  {
    if qs != [] {
      IdentifierSplits(c, qs[..|qs| - 1], digest, t);
      LogStepShape(c, LogRun(c, qs[..|qs| - 1]), qs[|qs| - 1]);
    }
  }

  lemma {:induction false} IdentifierBound(c: Config, qs: seq<Request>, digest: Digest, t: int)
    requires c.Valid()
    ensures CountOf(c, LogRun(c, qs), digest, t) <= 2 * c.limit
  {
    IdentifierSplits(c, qs, digest, t);
    BucketBound(c, qs, digest, t);
    BucketBound(c, qs, c.overflow, t);
  }

  lemma {:induction false} CountInSplits(c: Config, log: seq<Admission>, s: set<Digest>, d: Digest, t: int)
    requires d in s
    ensures CountIn(c, log, s, t) == CountIn(c, log, s - {d}, t) + CountIn(c, log, {d}, t)
  {
    if log != [] {
      CountInSplits(c, log[..|log| - 1], s, d, t);
    }
  }

  lemma {:induction false} CountInEmpty(c: Config, log: seq<Admission>, t: int)
    ensures CountIn(c, log, {}, t) == 0
  {
    if log != [] {
      CountInEmpty(c, log[..|log| - 1], t);
    }
  }

  lemma {:induction false} SetBound(c: Config, qs: seq<Request>, s: set<Digest>, t: int)
    requires c.Valid()
    ensures CountIn(c, LogRun(c, qs), s, t) <= |s| * c.limit
    decreases |s|
  {
    hide LogRun, CountIn;
    if s == {} {
      CountInEmpty(c, LogRun(c, qs), t);
    } else {
      var d :| d in s;
      RemoveSize(s, d);
      SetBound(c, qs, s - {d}, t);
      BucketBound(c, qs, d, t);
      CountInSplits(c, LogRun(c, qs), s, d, t);
      assert |s| * c.limit == |s - {d}| * c.limit + c.limit;
    }
  }

  lemma {:induction false} CountAllIsIn(c: Config, log: seq<Admission>, s: set<Digest>, t: int)
    requires forall a :: a in log && Within(c, a, t) ==> a.bucket in s
    ensures CountAll(c, log, t) == CountIn(c, log, s, t)
  {
    if log != [] {
      CountAllIsIn(c, log[..|log| - 1], s, t);
    }
  }

  /** While the newest admission of an interval is live, so is every other one, and the map holds
      all their buckets. So the cap on buckets caps the traffic of the interval. */
  lemma {:induction false} TotalBound(c: Config, qs: seq<Request>, t: int)
    requires c.Valid() && Nondecreasing(qs)
    ensures CountAll(c, LogRun(c, qs), t) <= c.maximumIdentifiers * c.limit
  {
    hide Step, LogStep, Live, Agrees, LogDecision, LogBucket, CountIn;
    if qs == [] {
      ProductAtMost(0, c.maximumIdentifiers, c.limit);
    } else {
      var rest, q := qs[..|qs| - 1], qs[|qs| - 1];
      TotalBound(c, rest, t);
      LogStepShape(c, LogRun(c, rest), q);
      var log := LogRun(c, qs);
      if log != LogRun(c, rest) && t <= q.now < t + c.window {
        RunRefinesLog(c, qs);
        RunIsBounded(c, qs);
        AllRetained(c, Run(c, qs), log, q.now, t);
        CountAllIsIn(c, log, Run(c, qs).Keys, t);
        SetBound(c, qs, Run(c, qs).Keys, t);
        ProductAtMost(|Run(c, qs).Keys|, c.maximumIdentifiers, c.limit);
      }
    }
  }

  /** In any half-open interval of one window length: a bucket takes at most `limit` calls, one
      identifier at most twice that, and the whole limiter at most `limit` for each place. */
  lemma {:induction false} AdmissionBounds(c: Config, qs: seq<Request>, bucket: Digest, digest: Digest, t: int)
    requires c.Valid() && Nondecreasing(qs)
    ensures CountIn(c, RunLog(c, qs), {bucket}, t) <= c.limit
    ensures CountOf(c, RunLog(c, qs), digest, t) <= 2 * c.limit
    ensures CountAll(c, RunLog(c, qs), t) <= c.maximumIdentifiers * c.limit
  {
    RunLogIsLogRun(c, qs);
    BucketBound(c, qs, bucket, t);
    IdentifierBound(c, qs, digest, t);
    TotalBound(c, qs, t);
  }

  /** The factor two is reached: 2 is charged to the shared bucket 0 while 1 holds the only direct
      place, and to its own bucket one second later, when that place is free. */
  lemma {:induction false} IdentifierBoundIsReached(c: Config, second: int)
    requires c == Config(1, 60 * second, 2, 0) && second == MICROS_PER_SECOND
    ensures var qs := [Request(1, 0), Request(2, 59 * second), Request(2, 60 * second)];
            Nondecreasing(qs) && CountOf(c, RunLog(c, qs), 2, 59 * second) == 2 * c.limit
  {
    hide RunLog, CountOf;
    ReachingLog(c, second);
    ReachingCount(c, second);
  }

  lemma {:induction false} ReachingCount(c: Config, second: int)
    requires c == Config(1, 60 * second, 2, 0) && second == MICROS_PER_SECOND
    ensures var log := [Admission(0, 1, 1), Admission(59 * second, 0, 2), Admission(60 * second, 2, 2)];
            CountOf(c, log, 2, 59 * second) == 2
  {
    var a1, a2, a3 := Admission(0, 1, 1), Admission(59 * second, 0, 2), Admission(60 * second, 2, 2);
    assert [a1, a2, a3][..2] == [a1, a2] && [a1, a2][..1] == [a1] && [a1][..0] == [];
    assert CountOf(c, [a1], 2, 59 * second) == 0;
    assert CountOf(c, [a1, a2], 2, 59 * second) == 1;
  }

  lemma {:induction false} ReachingLog(c: Config, second: int)
    requires c == Config(1, 60 * second, 2, 0) && second == MICROS_PER_SECOND
    ensures RunLog(c, [Request(1, 0), Request(2, 59 * second), Request(2, 60 * second)])
         == [Admission(0, 1, 1), Admission(59 * second, 0, 2), Admission(60 * second, 2, 2)]
  {
    var q1, q2, q3 := Request(1, 0), Request(2, 59 * second), Request(2, 60 * second);
    ReachingSteps(c, second);
    hide Step;
    assert [q1, q2, q3][..2] == [q1, q2] && [q1, q2][..1] == [q1] && [q1][..0] == [];
    assert Run(c, []) == map[] && RunLog(c, []) == [];
    assert Run(c, [q1]) == map[1 := [0]] && RunLog(c, [q1]) == [Admission(0, 1, 1)];
    assert Run(c, [q1, q2]) == map[1 := [0], 0 := [59 * second]];
    assert RunLog(c, [q1, q2]) == [Admission(0, 1, 1), Admission(59 * second, 0, 2)];
  }

  lemma {:induction false} ReachingSteps(c: Config, second: int)
    requires c == Config(1, 60 * second, 2, 0) && second == MICROS_PER_SECOND
    ensures Step(c, map[], Request(1, 0)) == Outcome(map[1 := [0]], 1, Admitted)
    ensures Step(c, map[1 := [0]], Request(2, 59 * second)) == Outcome(map[1 := [0], 0 := [59 * second]], 0, Admitted)
    ensures var o := Step(c, map[1 := [0], 0 := [59 * second]], Request(2, 60 * second));
            o.bucket == 2 && o.decision.Admitted?
  {
    hide Step;
    FirstReachingStep(c, second);
    SecondReachingStep(c, second);
    ThirdReachingStep(c, second);
  }

  lemma {:induction false} FirstReachingStep(c: Config, second: int)
    requires c == Config(1, 60 * second, 2, 0) && second == MICROS_PER_SECOND
    ensures Step(c, map[], Request(1, 0)) == Outcome(map[1 := [0]], 1, Admitted)
  {
    assert Purge(map[], -60 * second) == map[];
    assert Get(map[], 1) + [0] == [0];
  }

  lemma {:induction false} SecondReachingStep(c: Config, second: int)
    requires c == Config(1, 60 * second, 2, 0) && second == MICROS_PER_SECOND
    ensures Step(c, map[1 := [0]], Request(2, 59 * second)) == Outcome(map[1 := [0], 0 := [59 * second]], 0, Admitted)
  {
    var m1 := map[1 := [0]];
    assert Purge(m1, -second) == m1 && m1.Keys == {1};
    assert Get(m1, 0) + [59 * second] == [59 * second];
  }

  lemma {:induction false} ThirdReachingStep(c: Config, second: int)
    requires c == Config(1, 60 * second, 2, 0) && second == MICROS_PER_SECOND
    ensures var o := Step(c, map[1 := [0], 0 := [59 * second]], Request(2, 60 * second));
            o.bucket == 2 && o.decision.Admitted?
  {
    var m2, live := map[1 := [0], 0 := [59 * second]], map[0 := [59 * second]];
    assert [0][1..] == [];
    assert Purge(m2, 0) == live && live.Keys == {0};
  }

  lemma {:induction false} AllRetained(c: Config, m: Buckets, log: seq<Admission>, now: int, t: int)
    requires Agrees(m, log, now - c.window) && now < t + c.window
    ensures forall a :: a in log && Within(c, a, t) ==> a.bucket in m.Keys
  {
    forall a | a in log && Within(c, a, t)
      ensures a.bucket in m.Keys
    {
      LiveMembers(log, a.bucket, now - c.window);
      assert Get(m, a.bucket) == Live(log, a.bucket, now - c.window);
    }
  }

  // ----- Retry-After, and the browser that reads it -----

  /** For every run, whatever the clock does: the value sent is the least whole number of seconds
      after which the refusing bucket, admitting nothing more, has room. */
  lemma {:induction false} RetryAfterExact(c: Config, qs: seq<Request>, q: Request, seconds: nat)
    requires c.Valid() && Step(c, Run(c, qs), q).decision.Rejected?
    ensures var o := Step(c, Run(c, qs), q);
            && o.decision.retryAfter >= 1
            && (|DropExpired(Get(o.buckets, o.bucket), q.now + seconds * MICROS_PER_SECOND - c.window)| < c.limit
                <==> seconds >= o.decision.retryAfter)
  {
    hide Run, Step, CeilSeconds, DropExpired, Bounded;
    RunIsBounded(c, qs);
    RefusedBucketIsFull(c, Run(c, qs), q);
    var o := Step(c, Run(c, qs), q);
    var times := Get(o.buckets, o.bucket);
    DropExpiredFacts(times, q.now + seconds * MICROS_PER_SECOND - c.window);
    CeilSecondsLeast(times[0] + c.window - q.now, seconds);
    CeilSecondsLeast(times[0] + c.window - q.now, 0);
  }

  lemma {:induction false} RefusedBucketIsFull(c: Config, m: Buckets, q: Request)
    requires c.Valid() && Bounded(c, m) && Step(c, m, q).decision.Rejected?
    ensures var o := Step(c, m, q);
            var times := Get(o.buckets, o.bucket);
            && |times| == c.limit && times[0] > q.now - c.window
            && o.decision.retryAfter == RetryAfter(c, times[0], q.now)
  {
    hide RetryAfter, Purge, Route;
    PurgeKeepsBounded(c, m, q.now - c.window);
    PurgeLeavesLive(m, q.now - c.window);
  }

  lemma {:induction false} CeilSecondsLeast(micros: int, seconds: int)
    ensures seconds * MICROS_PER_SECOND >= micros <==> seconds >= CeilSeconds(micros)
  {
  }

  /** The live times of the bucket that a call will be charged to, read before the call. */
  function FacedTimes(c: Config, m: Buckets, q: Request): seq<int> {
    var live := Purge(m, q.now - c.window);
    Get(live, Route(c, live.Keys, q.digest))
  }

  function OldestFaced(c: Config, m: Buckets, q: Request): int
    requires FacedTimes(c, m, q) != []
  {
    FacedTimes(c, m, q)[0]
  }

  lemma {:induction false} SentFromOldest(c: Config, m: Buckets, q: Request)
    requires c.Valid() && Step(c, m, q).decision.Rejected?
    ensures FacedTimes(c, m, q) != []
    ensures Step(c, m, q).decision.retryAfter == RetryAfter(c, OldestFaced(c, m, q), q.now)
  {
    hide Purge, Route, RetryAfter;
  }

  lemma {:induction false} RetryAfterWithinWindow(c: Config, qs: seq<Request>, q: Request)
    requires c.Valid() && Nondecreasing(qs + [q]) && Step(c, Run(c, qs), q).decision.Rejected?
    ensures OldestFaced(c, Run(c, qs), q) <= q.now
    ensures 1 <= Step(c, Run(c, qs), q).decision.retryAfter <= CeilSeconds(c.window)
  {
    hide Live, Agrees, CeilSeconds, Run, LogRun, Route;
    var cutoff := RunAgreesBefore(c, qs, q);
    OldestIsPast(c, Run(c, qs), LogRun(c, qs), cutoff, q);
    var oldest := OldestFaced(c, Run(c, qs), q);
    CeilSecondsLeast(oldest + c.window - q.now, CeilSeconds(c.window));
    CeilSecondsLeast(c.window, CeilSeconds(c.window));
    CeilSecondsLeast(c.window, 0);
  }

  lemma {:induction false} OldestIsPast(c: Config, m: Buckets, log: seq<Admission>, cutoff: int, q: Request)
    requires c.Valid() && Agrees(m, log, cutoff) && LogUpTo(log, q.now) && cutoff <= q.now - c.window
    requires Step(c, m, q).decision.Rejected?
    ensures OldestFaced(c, m, q) <= q.now
  {
    hide Live, CeilSeconds, Route;
    var o := Step(c, m, q);
    PurgeAgrees(m, log, cutoff, q.now - c.window);
    var times := Live(log, o.bucket, q.now - c.window);
    assert Get(o.buckets, o.bucket) == times;
    LiveMembers(log, o.bucket, q.now - c.window);
    assert times[0] in times;
  }

  /** `parseRetryAfter` in apps/web/src/api.ts; -1 stands for its `null`. */
  function ParseRetryAfter(header: string): int {
    if header == [] || exists ch :: ch in header && !IsDigit(ch) then -1
    else
      var seconds := Parse(header);
      if 1 <= seconds <= 60 then seconds else -1
  }

  /** The headers the browser accepts: the decimal notation of 1 to 60, after any number of zeros. */
  lemma {:induction false} HeaderIsRead(header: string, n: nat)
    ensures ParseRetryAfter(header) == n <==>
            && 1 <= n <= 60 && |header| >= |Decimal(n)|
            && header == Zeros(|header| - |Decimal(n)|) + Decimal(n)
  {
    if n >= 1 {
      DenotesExactly(header, n);
    }
  }

  /** The one-minute limiters: for every run and every clock, the browser accepts the header it is
      sent exactly when the oldest live time is not in the future. */
  lemma {:induction false} ClientAcceptsRetryAfter(c: Config, qs: seq<Request>, q: Request)
    requires c.Valid() && c.window == 60 * MICROS_PER_SECOND && Step(c, Run(c, qs), q).decision.Rejected?
    ensures var sent := Step(c, Run(c, qs), q).decision.retryAfter;
            && sent >= 1
            && (ParseRetryAfter(Decimal(sent)) == sent <==> OldestFaced(c, Run(c, qs), q) <= q.now)
  {
    hide Step, Run, FacedTimes, OldestFaced, CeilSeconds;
    SentFromOldest(c, Run(c, qs), q);
    RetryAfterExact(c, qs, q, 0);
    DecimalParses(Step(c, Run(c, qs), q).decision.retryAfter);
    CeilSecondsLeast(OldestFaced(c, Run(c, qs), q) + c.window - q.now, 60);
  }

  /** On a nondecreasing clock the browser always accepts it. */
  lemma {:induction false} ClientAcceptsOnForwardClock(c: Config, qs: seq<Request>, q: Request)
    requires c.Valid() && c.window == 60 * MICROS_PER_SECOND && Nondecreasing(qs + [q])
    requires Step(c, Run(c, qs), q).decision.Rejected?
    ensures ParseRetryAfter(Decimal(Step(c, Run(c, qs), q).decision.retryAfter))
         == Step(c, Run(c, qs), q).decision.retryAfter
  {
    RetryAfterExact(c, qs, q, 0);
    RetryAfterWithinWindow(c, qs, q);
    ClientAcceptsRetryAfter(c, qs, q);
  }

  /** A clock stepped back by two seconds sends the one-minute limiter's browser a value it ignores. */
  lemma {:induction false} BackwardClockLeavesClientRange(c: Config)
    requires c == Config(1, 60 * MICROS_PER_SECOND, 1, 0)
    ensures Step(c, Run(c, [Request(1, 2 * MICROS_PER_SECOND)]), Request(1, 0)).decision == Rejected(62)
    ensures ParseRetryAfter(Decimal(62)) == -1
  {
    hide Decimal, ParseRetryAfter;
    var first := Request(1, 2 * MICROS_PER_SECOND);
    var m := map[0 := [2 * MICROS_PER_SECOND]];
    assert [first][..0] == [];
    assert Step(c, map[], first).buckets == m by {
      assert Purge(map[], -58 * MICROS_PER_SECOND) == map[];
      assert Get(map[], 0) + [2 * MICROS_PER_SECOND] == [2 * MICROS_PER_SECOND];
    }
    assert Purge(m, -60 * MICROS_PER_SECOND) == m && m.Keys == {0};
    RefusedHeader(62);
  }

  lemma {:induction false} RefusedHeader(n: nat)
    requires n > 60
    ensures ParseRetryAfter(Decimal(n)) == -1
  {
    DecimalParses(n);
  }
}
