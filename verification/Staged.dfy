/** The staged lexicographic search and the choice against the reference
  (packages/optimizer/ratereplay_optimizer/solver.py and verification.py).

  The solver itself is any function that answers a model and an objective; what is assumed of it is
  only that its answers are honest. */
module Staged {
  import opened Results
  import opened Billing
  import opened Scenarios
  import opened Cp
  import opened LoweredModel
  import opened Exactness

  datatype Answer = Optimal(best: Assignment) | Found(found: Assignment) | Unknown | Invalid | Infeasible

  type Solver = (seq<Constraint>, Linear) -> Answer

  /** What a solver status claims. */
  ghost predicate Honest(cs: seq<Constraint>, objective: Linear, answer: Answer) {
    match answer
    case Optimal(a) => Satisfies(a, cs) && forall b: Assignment :: Satisfies(b, cs) ==>
      Eval(a, objective) <= Eval(b, objective)
    case Found(a) => Satisfies(a, cs)
    case Unknown => true
    case Invalid => true
    case Infeasible => forall b: Assignment :: !Satisfies(b, cs)
  }

  ghost predicate HonestSolver(solve: Solver) {
    forall cs, objective :: Honest(cs, objective, solve(cs, objective))
  }

  datatype SearchStatus = AllOptimal | BestFound | NothingFound | ModelInvalid | ContractViolation

  /** Where the search stopped: its status, the last incumbent, and how many stages were proved optimal. */
  datatype Search = Search(status: SearchStatus, incumbent: Option<Assignment>, proved: nat)

  /** The constraint that fixes a stage at its optimum. */
  function FixedAt(stage: Linear, value: int): Constraint {
    CompareLinear(stage, Equal, value)
  }

  /** The stages from `k` on: each optimum is fixed before the next stage, and the first stage that is
      not proved optimal ends the search. */
  function RunStages(solve: Solver, cs: seq<Constraint>, stages: seq<Linear>, k: nat, incumbent: Option<Assignment>)
      : Search
    requires k <= |stages|
    decreases |stages| - k
  {
    if k == |stages| then Search(AllOptimal, incumbent, k) else
    match solve(cs, stages[k])
    case Optimal(a) => RunStages(solve, cs + [FixedAt(stages[k], Eval(a, stages[k]))], stages, k + 1, Some(a))
    case Found(a) => Search(BestFound, Some(a), k)
    case Unknown => Search(if incumbent.Some? then BestFound else NothingFound, incumbent, k)
    case Invalid => Search(ModelInvalid, incumbent, k)
    case Infeasible => Search(ContractViolation, incumbent, k)
  }

  /** Lexicographic order of the stage values from stage `k` up to stage `last`. */
  ghost predicate StagesAtMost(stages: seq<Linear>, k: nat, last: nat, a: Assignment, b: Assignment)
    requires k <= last <= |stages|
    decreases last - k
  {
    k == last
    || Eval(a, stages[k]) < Eval(b, stages[k])
    || (Eval(a, stages[k]) == Eval(b, stages[k]) && StagesAtMost(stages, k + 1, last, a, b))
  }

  lemma {:induction false} FixedMeaning(a: Assignment, cs: seq<Constraint>, stage: Linear, value: int)
    ensures Satisfies(a, cs + [FixedAt(stage, value)]) <==> Satisfies(a, cs) && Eval(a, stage) == value
  {
    hide Satisfies, Eval;
    SatisfiesConcat(a, cs, [FixedAt(stage, value)]);
    SatisfiesOne(a, FixedAt(stage, value));
  }

  /** Whatever the search returns satisfies the model it started from. */
  lemma {:induction false} IncumbentSatisfies(solve: Solver, cs: seq<Constraint>, stages: seq<Linear>, k: nat,
      incumbent: Option<Assignment>)
    requires HonestSolver(solve) && k <= |stages| && (incumbent.Some? ==> Satisfies(incumbent.value, cs))
    ensures var s := RunStages(solve, cs, stages, k, incumbent); s.incumbent.Some? ==> Satisfies(s.incumbent.value, cs)
    decreases |stages| - k
  {
    hide Satisfies, Eval;
    if k < |stages| {
      assert Honest(cs, stages[k], solve(cs, stages[k]));
      match solve(cs, stages[k]) {
        case Optimal(a) =>
          var value := Eval(a, stages[k]);
          FixedMeaning(a, cs, stages[k], value);
          IncumbentSatisfies(solve, cs + [FixedAt(stages[k], value)], stages, k + 1, Some(a));
          var s := RunStages(solve, cs, stages, k, incumbent);
          if s.incumbent.Some? {
            FixedMeaning(s.incumbent.value, cs, stages[k], value);
          }
        case _ =>
      }
    }
  }

  /** A model that something satisfies is never reported as contradictory. */
  lemma {:induction false} SatisfiableIsNeverInfeasible(solve: Solver, cs: seq<Constraint>, stages: seq<Linear>, k: nat,
                                                        incumbent: Option<Assignment>, b: Assignment)
    requires HonestSolver(solve) && k <= |stages| && Satisfies(b, cs)
    ensures RunStages(solve, cs, stages, k, incumbent).status != ContractViolation
    decreases |stages| - k
  {
    hide Satisfies, Eval;
    if k < |stages| {
      assert Honest(cs, stages[k], solve(cs, stages[k]));
      match solve(cs, stages[k]) {
        case Optimal(a) =>
          FixedMeaning(a, cs, stages[k], Eval(a, stages[k]));
          SatisfiableIsNeverInfeasible(solve, cs + [FixedAt(stages[k], Eval(a, stages[k]))], stages, k + 1, Some(a), a);
        case _ =>
      }
    }
  }

  /** Fixing optima one after another finds the lexicographic minimum of the original model, as far as
      stages were proved; with every stage proved, of all of them. */
  lemma {:induction false} StagesAreLexicographic(solve: Solver, cs: seq<Constraint>, stages: seq<Linear>, k: nat,
                                                  incumbent: Option<Assignment>, b: Assignment)
    requires HonestSolver(solve) && k <= |stages| && (incumbent.Some? ==> Satisfies(incumbent.value, cs))
      && Satisfies(b, cs)
    ensures var s := RunStages(solve, cs, stages, k, incumbent);
            && k <= s.proved <= |stages| && (s.status == AllOptimal ==> s.proved == |stages|)
            && (s.proved > k || incumbent.Some? ==>
                  s.incumbent.Some? && Satisfies(s.incumbent.value, cs)
                    && StagesAtMost(stages, k, s.proved, s.incumbent.value, b))
    decreases |stages| - k
  {
    hide Satisfies, Eval;
    if k < |stages| {
      assert Honest(cs, stages[k], solve(cs, stages[k]));
      if solve(cs, stages[k]).Optimal? {
        var a := solve(cs, stages[k]).best;
        var value := Eval(a, stages[k]);
        var next := cs + [FixedAt(stages[k], value)];
        FixedMeaning(a, cs, stages[k], value);
        FixedMeaning(b, cs, stages[k], value);
        StagesAreLexicographic(solve, next, stages, k + 1, Some(a), if Eval(b, stages[k]) == value then b else a);
        var s := RunStages(solve, cs, stages, k, incumbent);
        FixedMeaning(s.incumbent.value, cs, stages[k], value);
      }
    }
  }

  // ----- the answers behind a search -----

  /** The answers of a search from stage k on: each is the solver's to the model in which every earlier stage
      is fixed at the optimum that was answered. */
  ghost predicate Transcript(solve: Solver, cs: seq<Constraint>, stages: seq<Linear>, k: nat, answers: seq<Answer>)
    decreases |answers|
  {
    answers != [] ==>
      && k < |stages| && answers[0] == solve(cs, stages[k])
      && (|answers| > 1 ==>
            && answers[0].Optimal?
            && var optimum := Eval(answers[0].best, stages[k]);
               Transcript(solve, cs + [FixedAt(stages[k], optimum)], stages, k + 1, answers[1..]))
  }

  /** What a search makes of its answers: a stage is proved for every optimal one, the last assignment is the
      incumbent, and the first answer that is not optimal decides the status. */
  ghost predicate Concludes(
      stages: nat, k: nat, before: Option<Assignment>, answers: seq<Answer>, s: Search)
  {
    var n := |answers|;
    var proved := if n > 0 && !answers[n - 1].Optimal? then n - 1 else n;
    var held :=
      if n > 0 && (answers[n - 1].Found? || answers[n - 1].Optimal?)
      then Some(if answers[n - 1].Found? then answers[n - 1].found else answers[n - 1].best)
      else if n > 1 && answers[n - 2].Optimal? then Some(answers[n - 2].best)
      else before;
    && (forall j :: 0 <= j < n - 1 ==> answers[j].Optimal?)
    && s.proved == k + proved && s.incumbent == held
    && (s.status == AllOptimal <==> s.proved == stages)
    && (proved == n ==> k + n == stages)
    && (proved < n ==>
          match answers[n - 1]
          case Found(_) => s.status == BestFound
          case Unknown => s.status == if held.Some? then BestFound else NothingFound
          case Invalid => s.status == ModelInvalid
          case Infeasible => s.status == ContractViolation
          case Optimal(_) => false)
  }

  lemma {:induction false} FirstAnswer(solve: Solver, cs: seq<Constraint>, stages: seq<Linear>, k: nat,
      first: Assignment, rest: seq<Answer>)
    requires k < |stages| && solve(cs, stages[k]) == Optimal(first)
    requires Transcript(solve, cs + [FixedAt(stages[k], Eval(first, stages[k]))], stages, k + 1, rest)
    ensures Transcript(solve, cs, stages, k, [Optimal(first)] + rest)
  {
    hide Eval, FixedAt;
    assert ([Optimal(first)] + rest)[1..] == rest;
  }

  lemma {:induction false} ConclusionShifts(stages: nat, k: nat, before: Option<Assignment>, first: Assignment,
      rest: seq<Answer>, s: Search)
    requires Concludes(stages, k + 1, Some(first), rest, s)
    ensures Concludes(stages, k, before, [Optimal(first)] + rest, s)
  {
    var answers := [Optimal(first)] + rest;
    assert forall j :: 0 <= j < |rest| ==> answers[j + 1] == rest[j];
  }

  lemma {:induction false} LastAnswer(solve: Solver, cs: seq<Constraint>, stages: seq<Linear>, k: nat,
      incumbent: Option<Assignment>)
    requires k < |stages| && !solve(cs, stages[k]).Optimal?
    ensures Transcript(solve, cs, stages, k, [solve(cs, stages[k])])
    ensures Concludes(|stages|, k, incumbent, [solve(cs, stages[k])], RunStages(solve, cs, stages, k, incumbent))
  {
    hide Eval;
  }

  lemma {:induction false} NoAnswer(solve: Solver, cs: seq<Constraint>, stages: seq<Linear>,
      incumbent: Option<Assignment>)
    ensures Transcript(solve, cs, stages, |stages|, [])
    ensures Concludes(|stages|, |stages|, incumbent, [], RunStages(solve, cs, stages, |stages|, incumbent))
  {
  }

  /** Every search has its answers, and concludes from them and nothing else. */
  lemma {:induction false} SearchConcludes(solve: Solver, cs: seq<Constraint>, stages: seq<Linear>, k: nat,
      incumbent: Option<Assignment>) returns (answers: seq<Answer>)
    requires k <= |stages|
    ensures Transcript(solve, cs, stages, k, answers)
    ensures Concludes(|stages|, k, incumbent, answers, RunStages(solve, cs, stages, k, incumbent))
    decreases |stages| - k
  {
    hide Eval, FixedAt, Transcript, Concludes;
    if k == |stages| {
      answers := [];
      NoAnswer(solve, cs, stages, incumbent);
    } else if solve(cs, stages[k]).Optimal? {
      var best := solve(cs, stages[k]).best;
      var next := cs + [FixedAt(stages[k], Eval(best, stages[k]))];
      var rest := SearchConcludes(solve, next, stages, k + 1, Some(best));
      answers := [Optimal(best)] + rest;
      FirstAnswer(solve, cs, stages, k, best, rest);
      ConclusionShifts(|stages|, k, incumbent, best, rest, RunStages(solve, next, stages, k + 1, Some(best)));
    } else {
      answers := [solve(cs, stages[k])];
      LastAnswer(solve, cs, stages, k, incumbent);
    }
  }

  // ----- against the verifier -----

  /** Lexicographic order of the first `n` components of objective tuples. */
  predicate LessOnFirst(n: nat, x: Objective, y: Objective) {
    || (n >= 1 && x.cost < y.cost)
    || (n >= 2 && x.cost == y.cost && x.changed < y.changed)
    || (n >= 3 && x.cost == y.cost && x.changed == y.changed && x.completion < y.completion)
    || (n >= 4 && x.cost == y.cost && x.changed == y.changed && x.completion == y.completion && x.stable < y.stable)
  }

  predicate Less(x: Objective, y: Objective) {
    LessOnFirst(4, x, y)
  }

  /** Of two objectives one is less, or they agree in all the components compared. */
  lemma {:induction false} PrefixesCompare(n: nat, x: Objective, y: Objective)
    requires n <= 4
    ensures !(LessOnFirst(n, x, y) && LessOnFirst(n, y, x))
    ensures !LessOnFirst(n, x, y) && !LessOnFirst(n, y, x) <==>
            && (n >= 1 ==> x.cost == y.cost) && (n >= 2 ==> x.changed == y.changed)
            && (n >= 3 ==> x.completion == y.completion) && (n >= 4 ==> x.stable == y.stable)
    ensures n >= 1 && x.cost < y.cost ==> LessOnFirst(n, x, y)
    ensures n >= 2 && x.cost == y.cost && x.changed < y.changed ==> LessOnFirst(n, x, y)
    ensures n >= 3 && x.cost == y.cost && x.changed == y.changed && x.completion < y.completion ==> LessOnFirst(n, x, y)
    ensures Less(x, y) <==> LessOnFirst(4, x, y)
  {
  }

  lemma {:induction false} StagesAreObjectives(a: Assignment, b: Assignment, sc: Scenario, rules: seq<Rule>,
      account: Account, n: nat)
    requires Ready(sc, rules, account) && n <= 4 && StagesAtMost(StagesOf(sc, rules, account), 0, n, a, b)
    ensures !LessOnFirst(n, StageValues(b, sc, rules, account), StageValues(a, sc, rules, account))
  {
    hide Eval, Ready;
    var stages := StagesOf(sc, rules, account);
    if n > 0 && Eval(a, stages[0]) == Eval(b, stages[0]) {
      assert StagesAtMost(stages, 1, n, a, b);
      if n > 1 && Eval(a, stages[1]) == Eval(b, stages[1]) {
        assert StagesAtMost(stages, 2, n, a, b);
        if n > 2 && Eval(a, stages[2]) == Eval(b, stages[2]) {
          assert StagesAtMost(stages, 3, n, a, b);
        }
      }
    }
  }

  /** `optimize_exact`, up to the choice: the search over the lowered model. */
  ghost function ExactSearch(solve: Solver, sc: Scenario, rules: seq<Rule>, account: Account): Search
    requires Ready(sc, rules, account)
  {
    RunStages(solve, Lowered(sc, rules), StagesOf(sc, rules, account), 0, None)
  }

  /** Every incumbent passes the independent verification with the values the solver reports, and the
      model is never found contradictory, because the reference satisfies it. */
  lemma {:induction false} IncumbentsVerify(solve: Solver, sc: Scenario, rules: seq<Rule>, account: Account)
    requires HonestSolver(solve) && Ready(sc, rules, account)
    ensures var s := ExactSearch(solve, sc, rules, account);
            && s.status != ContractViolation
            && (s.incumbent.Some? ==>
                  var es := Extract(s.incumbent.value, sc);
                  && Admits(sc, es) && Bill(sc, rules, account, es).Ok?
                  && StageValues(s.incumbent.value, sc, rules, account) == Score(sc, rules, account, es))
  {
    hide Satisfies, Lowered, RunStages, Admits, WellFormed, Replay, Typed, Score, StageValues;
    IncumbentSatisfies(solve, Lowered(sc, rules), StagesOf(sc, rules, account), 0, None);
    LoweringIsComplete(sc, rules, References(sc));
    SatisfiableIsNeverInfeasible(solve, Lowered(sc, rules), StagesOf(sc, rules, account), 0, None,
                                 Witness(sc, rules, References(sc)));
    var s := ExactSearch(solve, sc, rules, account);
    if s.incumbent.Some? {
      LoweringIsSound(s.incumbent.value, sc, rules, account);
    }
  }

  /** The stages that were proved optimal are optimal: no schedule that the verifier would accept is
      smaller than the incumbent in that many components of its objective tuple. */
  lemma {:induction false} ProvedMeansOptimal(solve: Solver, sc: Scenario, rules: seq<Rule>, account: Account,
      es: Matrix)
    requires HonestSolver(solve) && Ready(sc, rules, account) && Admits(sc, es)
    ensures var s := ExactSearch(solve, sc, rules, account);
            && s.proved <= 4 && (s.status == AllOptimal ==> s.proved == 4) && Bill(sc, rules, account, es).Ok?
            && (s.proved > 0 ==>
                  && s.incumbent.Some? && Admits(sc, Extract(s.incumbent.value, sc))
                  && Bill(sc, rules, account, Extract(s.incumbent.value, sc)).Ok?
                  && !LessOnFirst(s.proved, Score(sc, rules, account, es),
                    Score(sc, rules, account, Extract(s.incumbent.value, sc))))
  {
    hide Satisfies, Lowered, RunStages, Admits, WellFormed, Replay, Typed, Score, StageValues, LessOnFirst,
      StagesAtMost;
    var b := Witness(sc, rules, es);
    LoweringIsComplete(sc, rules, es);
    LoweringIsSound(b, sc, rules, account);
    StagesAreLexicographic(solve, Lowered(sc, rules), StagesOf(sc, rules, account), 0, None, b);
    var s := ExactSearch(solve, sc, rules, account);
    if s.proved > 0 {
      var a := s.incumbent.value;
      LoweringIsSound(a, sc, rules, account);
      StagesAreObjectives(a, b, sc, rules, account, s.proved);
    }
  }

  /** `select_strict_improvement`: the incumbent, only when it is strictly better. */
  ghost function Selected(sc: Scenario, rules: seq<Rule>, account: Account, incumbent: Option<Matrix>): Matrix
    requires Ready(sc, rules, account)
    requires incumbent.Some? ==> Shaped(sc, incumbent.value) && Bill(sc, rules, account, incumbent.value).Ok?
  {
    if incumbent.Some?
       && Less(Score(sc, rules, account, incumbent.value), Score(sc, rules, account, References(sc)))
    then incumbent.value else References(sc)
  }

  /** The schedule that `optimize_exact` selects. */
  ghost function Published(solve: Solver, sc: Scenario, rules: seq<Rule>, account: Account): Matrix
    requires HonestSolver(solve) && Ready(sc, rules, account)
  {
    IncumbentsVerify(solve, sc, rules, account);
    var s := ExactSearch(solve, sc, rules, account);
    Selected(sc, rules, account, if s.incumbent.Some? then Some(Extract(s.incumbent.value, sc)) else None)
  }

  /** What is published is admitted, whatever the solver status: the reference, unless an incumbent is
      strictly better, and then nothing worse than the incumbent. */
  lemma {:induction false} PublishedIsVerified(solve: Solver, sc: Scenario, rules: seq<Rule>, account: Account)
    requires HonestSolver(solve) && Ready(sc, rules, account)
    ensures Admits(sc, Published(solve, sc, rules, account))
      && Bill(sc, rules, account, Published(solve, sc, rules, account)).Ok?
    ensures !Less(Score(sc, rules, account, References(sc)),
      Score(sc, rules, account, Published(solve, sc, rules, account)))
    ensures Published(solve, sc, rules, account) != References(sc) ==>
      Less(Score(sc, rules, account, Published(solve, sc, rules, account)), Score(sc, rules, account, References(sc)))
    ensures var s := ExactSearch(solve, sc, rules, account);
            s.incumbent.Some? ==>
              && Shaped(sc, Extract(s.incumbent.value, sc))
              && Bill(sc, rules, account, Extract(s.incumbent.value, sc)).Ok?
              && !Less(Score(sc, rules, account, Extract(s.incumbent.value, sc)),
                       Score(sc, rules, account, Published(solve, sc, rules, account)))
  {
    hide Lowered, RunStages, Admits, WellFormed, Replay, Typed, Score, Extract, HonestSolver;
    IncumbentsVerify(solve, sc, rules, account);
  }

  /** What is not below the reference but below the incumbent in its first components. */
  lemma {:induction false} SelectionKeepsPrefix(n: nat, x: Objective, incumbent: Objective, reference: Objective)
    requires n <= 4 && !LessOnFirst(n, x, incumbent) && !Less(incumbent, reference)
    ensures !LessOnFirst(n, x, reference)
  {
  }

  /** The stages that were proved, whatever the search status: no admitted schedule is smaller than the
      published one in that many components. With all four proved, none is better at all. */
  lemma {:induction false} PublishedIsOptimal(solve: Solver, sc: Scenario, rules: seq<Rule>, account: Account,
      es: Matrix)
    requires HonestSolver(solve) && Ready(sc, rules, account) && Admits(sc, es)
    ensures Bill(sc, rules, account, es).Ok? && Admits(sc, Published(solve, sc, rules, account))
    ensures Bill(sc, rules, account, Published(solve, sc, rules, account)).Ok?
    ensures var s := ExactSearch(solve, sc, rules, account);
            && !LessOnFirst(s.proved, Score(sc, rules, account, es),
              Score(sc, rules, account, Published(solve, sc, rules, account)))
            && (s.status == AllOptimal ==>
                  !Less(Score(sc, rules, account, es), Score(sc, rules, account, Published(solve, sc, rules, account))))
  {
    hide Lowered, RunStages, Admits, WellFormed, Replay, Typed, Score, Extract, HonestSolver;
    IncumbentsVerify(solve, sc, rules, account);
    ProvedMeansOptimal(solve, sc, rules, account, es);
    AdmitsShaped(sc, es);
    AdmitsShaped(sc, References(sc));
    var s := ExactSearch(solve, sc, rules, account);
    if s.proved > 0 {
      var x, mine := Score(sc, rules, account, es), Score(sc, rules, account, Extract(s.incumbent.value, sc));
      if !Less(mine, Score(sc, rules, account, References(sc))) {
        SelectionKeepsPrefix(s.proved, x, mine, Score(sc, rules, account, References(sc)));
      }
    }
  }
}
