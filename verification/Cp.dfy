/** The fragment of the CP-SAT modelling language that the optimizer uses, with its meaning. */
module Cp {
  import opened Sums

  datatype Var =
    | Energy(task: nat, slot: nat)
    | Active(task: nat, slot: nat)
    | Start(task: nat, slot: nat)
    | Changed(task: nat, slot: nat)
    | Working(task: nat, slot: nat)
    | Completion(task: nat)
    | Quantity(rule: nat, rate: nat)
    | Cents(rule: nat, rate: nat)

  datatype Term = Term(coefficient: int, v: Var)

  datatype Linear = Linear(terms: seq<Term>, constant: int)

  datatype Relation = AtMost | AtLeast | Equal | Unequal

  /** When a constraint is enforced: always, or under a literal. */
  datatype When = Always | If(v: Var) | Unless(v: Var)

  datatype Constraint =
    | Domain(v: Var, low: int, high: int)
    | Compare(coefficient: int, v: Var, relation: Relation, right: int, when: When)
    | CompareLinear(left: Linear, relation: Relation, right: int)
    | Equals(v: Var, value: Linear)
    | ExactlyOne(vs: seq<Var>)
    | Maximum(v: Var, terms: seq<Term>)
    | Division(v: Var, coefficient: int, of: Var, offset: int, divisor: int)

  type Rows = seq<seq<int>>

  /** Values for the variables; a variable that is not listed has the value 0. */
  datatype Assignment = Assignment(
    energy: Rows, active: Rows, start: Rows, changed: Rows, working: Rows,
    completion: seq<int>, quantity: Rows, cents: Rows)

  function At(rows: Rows, r: nat, c: nat): int {
    if r < |rows| && c < |rows[r]| then rows[r][c] else 0
  }

  function Value(a: Assignment, v: Var): int {
    match v
    case Energy(t, i) => At(a.energy, t, i)
    case Active(t, i) => At(a.active, t, i)
    case Start(t, i) => At(a.start, t, i)
    case Changed(t, i) => At(a.changed, t, i)
    case Working(t, i) => At(a.working, t, i)
    case Completion(t) => if t < |a.completion| then a.completion[t] else 0
    case Quantity(r, j) => At(a.quantity, r, j)
    case Cents(r, j) => At(a.cents, r, j)
  }

  function TermValues(a: Assignment, terms: seq<Term>): seq<int> {
    seq(|terms|, k requires 0 <= k < |terms| => terms[k].coefficient * Value(a, terms[k].v))
  }

  function Eval(a: Assignment, e: Linear): int {
    Sum(TermValues(a, e.terms)) + e.constant
  }

  predicate Enforced(a: Assignment, when: When) {
    match when
    case Always => true
    case If(v) => Value(a, v) == 1
    case Unless(v) => Value(a, v) == 0
  }

  predicate Compares(left: int, relation: Relation, right: int) {
    match relation
    case AtMost => left <= right
    case AtLeast => left >= right
    case Equal => left == right
    case Unequal => left != right
  }

  /** Division rounds toward zero. */
  function Quotient(numerator: int, divisor: int): int
    requires divisor > 0
  {
    if numerator >= 0 then numerator / divisor else -((-numerator) / divisor)
  }

  predicate Holds(a: Assignment, c: Constraint) {
    match c
    case Domain(v, low, high) => low <= Value(a, v) <= high
    case Compare(k, v, relation, right, when) => Enforced(a, when) ==> Compares(k * Value(a, v), relation, right)
    case CompareLinear(left, relation, right) => Compares(Eval(a, left), relation, right)
    case Equals(v, value) => Value(a, v) == Eval(a, value)
    case ExactlyOne(vs) =>
      exists k :: 0 <= k < |vs| && Value(a, vs[k]) == 1 && forall j :: 0 <= j < |vs| && j != k ==> Value(a, vs[j]) == 0
    case Maximum(v, terms) =>
      && (exists k :: 0 <= k < |terms| && TermValues(a, terms)[k] == Value(a, v))
      && (forall k :: 0 <= k < |terms| ==> TermValues(a, terms)[k] <= Value(a, v))
    case Division(v, k, of, offset, divisor) =>
      divisor > 0 && Value(a, v) == Quotient(k * Value(a, of) + offset, divisor)
  }

  predicate Satisfies(a: Assignment, cs: seq<Constraint>) {
    forall k :: 0 <= k < |cs| ==> Holds(a, cs[k])
  }

  lemma {:induction false} SatisfiesConcat(a: Assignment, x: seq<Constraint>, y: seq<Constraint>)
    ensures Satisfies(a, x + y) <==> Satisfies(a, x) && Satisfies(a, y)
  {
    hide Holds;
    if Satisfies(a, x + y) {
      forall k | 0 <= k < |x|
        ensures Holds(a, x[k])
      {
        assert (x + y)[k] == x[k];
      }
      forall k | 0 <= k < |y|
        ensures Holds(a, y[k])
      {
        assert (x + y)[|x| + k] == y[k];
      }
    }
  }

  lemma {:induction false} SatisfiesOne(a: Assignment, c: Constraint)
    ensures Satisfies(a, [c]) <==> Holds(a, c)
  {
    hide Holds;
    assert [c][0] == c;
  }

  lemma {:induction false} TermValuesConcat(a: Assignment, x: seq<Term>, y: seq<Term>)
    ensures Sum(TermValues(a, x + y)) == Sum(TermValues(a, x)) + Sum(TermValues(a, y))
  {
    hide Value;
    assert TermValues(a, x + y) == TermValues(a, x) + TermValues(a, y);
    SumConcat(TermValues(a, x), TermValues(a, y));
  }
}
