/** The opponent's knowledge: a value table mapping each state to one
    preference per action, the greedy policy that reads it and the rule that
    updates it after a round. */
module QLearning {
  import opened Rules

  /** A row of the table: one preference per action, indexed by ordinal. */
  type Row = r: seq<real> | |r| == 3 witness [0.0, 0.0, 0.0]

  type QDict = map<State, Row>

  /** The table is keyed on all 9 states. */
  ghost predicate Complete(q: QDict) {
    forall s: State :: s in q
  }

  /** Every preference in the row lies in [-1, 1]. */
  ghost predicate RowBounded(row: Row) {
    forall i :: 0 <= i < 3 ==> -1.0 <= row[i] <= 1.0
  }

  ghost predicate Bounded(q: QDict) {
    forall s :: s in q ==> RowBounded(q[s])
  }

  /** The largest value of the row (Python's max over the tuple). */
  function RowMax(row: Row): (m: real)
    ensures forall i :: 0 <= i < 3 ==> row[i] <= m
    ensures exists i :: 0 <= i < 3 && row[i] == m
  {
    var m01 := if row[0] < row[1] then row[1] else row[0];
    if m01 < row[2] then row[2] else m01
  }

  /** `i` is the first index holding the row maximum. */
  ghost predicate IsGreedy(row: Row, i: Action) {
    row[i] == RowMax(row) && forall j :: 0 <= j < i ==> row[j] < row[i]
  }

  /** A row has exactly one greedy choice. */
  lemma GreedyUnique(row: Row, i: Action, j: Action)
    requires IsGreedy(row, i) && IsGreedy(row, j)
    ensures i == j
  {
  }

  /** Ties go to the lower ordinal: in (0.2, 0.9, 0.9) the choice is ROCK. */
  lemma GreedyTieExample()
    ensures IsGreedy([0.2, 0.9, 0.9], ROCK)
    ensures !IsGreedy([0.2, 0.9, 0.9], SCISSORS)
  {
  }

  /** policy_equivalent: scans the row of `state` in index order and returns
      the first index whose value equals the maximum, so ties go to the
      lowest ordinal. */
  method PolicyEquivalent(q: QDict, state: State) returns (index: Action)
    requires state in q
    ensures IsGreedy(q[state], index)
  {
    var qValues := q[state];
    var maxValue := RowMax(qValues);
    var i := 0;
    while i < 3 && qValues[i] != maxValue
      invariant 0 <= i <= 3
      invariant forall j :: 0 <= j < i ==> qValues[j] != maxValue
    {
      i := i + 1;
    }
    index := i;
  }

  /** The row after update_q_dict, in the order the source assigns its slots.
      `score` is the round's outcome from the opponent's side and `a` the
      action the opponent played. */
  function UpdatedRow(row: Row, a: Action, score: int, gamma: real): (r: Row)
    ensures score < 0 ==> r[a] == row[a] && r[CounterAttack(a)] == row[CounterAttack(a)]
    ensures score > 0 ==> r[CounterAttack(a)] == row[CounterAttack(a)] && r[LosingAttack(a)] == row[LosingAttack(a)]
    ensures score == 0 ==> r[LosingAttack(a)] == row[LosingAttack(a)]
  {
    if score < 0 then
      var l := LosingAttack(a);
      row[l := gamma * (-score as real) + (1.0 - gamma) * row[l]]
    else if score > 0 then
      row[a := gamma * (score as real) + (1.0 - gamma) * row[a]]
    else
      var decayed := row[a := -gamma + (1.0 - gamma) * row[a]];
      var c := CounterAttack(a);
      decayed[c := gamma + (1.0 - gamma) * decayed[c]]
  }

  /** update_q_dict: copies the row of `s` into a list, rewrites its slots
      according to the outcome and stores it back under `s`. */
  method UpdateQDict(q: QDict, s: State, a: Action, score: int, gamma: real := 1.0) returns (q': QDict)
    requires s in q
    ensures q' == q[s := UpdatedRow(q[s], a, score, gamma)]
  {
    var actionValues := q[s];
    if score < 0 {
      var aCounter := LosingAttack(a);
      actionValues := actionValues[aCounter := gamma * (-score as real) + (1.0 - gamma) * actionValues[aCounter]];
    }
    if score > 0 {
      actionValues := actionValues[a := gamma * (score as real) + (1.0 - gamma) * actionValues[a]];
    }
    if score == 0 {
      actionValues := actionValues[a := -gamma + (1.0 - gamma) * actionValues[a]];
      var aCounter := CounterAttack(a);
      actionValues := actionValues[aCounter := gamma + (1.0 - gamma) * actionValues[aCounter]];
    }
    assert actionValues[0] == UpdatedRow(q[s], a, score, gamma)[0];
    assert actionValues[1] == UpdatedRow(q[s], a, score, gamma)[1];
    assert actionValues[2] == UpdatedRow(q[s], a, score, gamma)[2];
    q' := q[s := actionValues];
  }

  /** Loss: only the slot of the action that `a` beats moves, towards
      |score|; the played slot is left alone. */
  lemma UpdateOnLoss(row: Row, a: Action, score: int, gamma: real)
    requires score < 0
    ensures LosingAttack(a) != a
    ensures UpdatedRow(row, a, score, gamma)[LosingAttack(a)]
            == gamma * (-score as real) + (1.0 - gamma) * row[LosingAttack(a)]
    ensures forall j :: 0 <= j < 3 && j != LosingAttack(a) ==> UpdatedRow(row, a, score, gamma)[j] == row[j]
  {
  }

  /** Win: only the played slot moves, towards the score. */
  lemma UpdateOnWin(row: Row, a: Action, score: int, gamma: real)
    requires score > 0
    ensures UpdatedRow(row, a, score, gamma)[a] == gamma * (score as real) + (1.0 - gamma) * row[a]
    ensures forall j :: 0 <= j < 3 && j != a ==> UpdatedRow(row, a, score, gamma)[j] == row[j]
  {
  }

  /** Draw: the played slot moves towards -1, the slot of its counter attack
      towards +1 (computed from its value before the update), the third slot
      stays. */
  lemma UpdateOnDraw(row: Row, a: Action, gamma: real)
    ensures UpdatedRow(row, a, 0, gamma)[a] == -gamma + (1.0 - gamma) * row[a]
    ensures UpdatedRow(row, a, 0, gamma)[CounterAttack(a)] == gamma + (1.0 - gamma) * row[CounterAttack(a)]
    ensures UpdatedRow(row, a, 0, gamma)[LosingAttack(a)] == row[LosingAttack(a)]
  {
    ActionTrichotomy(a, a);
  }

  /** With gamma = 1 the old values are forgotten: a unit loss sets the slot
      of the action `a` beats to exactly 1, a draw sets the played slot to -1
      and its counter's slot to 1. */
  lemma UpdateFullGamma(row: Row, a: Action)
    ensures UpdatedRow(row, a, -1, 1.0)[LosingAttack(a)] == 1.0
    ensures UpdatedRow(row, a, 1, 1.0)[a] == 1.0
    ensures UpdatedRow(row, a, 0, 1.0)[a] == -1.0
    ensures UpdatedRow(row, a, 0, 1.0)[CounterAttack(a)] == 1.0
  {
  }

  /** `x` lies between `u` and `v`. */
  ghost predicate Between(x: real, u: real, v: real) {
    (u <= x <= v) || (v <= x <= u)
  }

  lemma ProductNonnegative(x: real, y: real)
    requires x >= 0.0 && y >= 0.0
    ensures x * y >= 0.0
  {
  }

  /** A blend with weight gamma in [0, 1] lies between the old value and the
      target. */
  lemma BlendBetween(old_: real, target: real, gamma: real)
    requires 0.0 <= gamma <= 1.0
    ensures Between(gamma * target + (1.0 - gamma) * old_, old_, target)
  {
    var x := gamma * target + (1.0 - gamma) * old_;
    assert x - old_ == gamma * (target - old_);
    assert target - x == (1.0 - gamma) * (target - old_);
    if old_ <= target {
      ProductNonnegative(gamma, target - old_);
      ProductNonnegative(1.0 - gamma, target - old_);
    } else {
      ProductNonnegative(gamma, old_ - target);
      ProductNonnegative(1.0 - gamma, old_ - target);
    }
  }

  /** For gamma in [0, 1] every rewritten slot is a convex blend of its old
      value and the branch's target: -score on a loss, score on a win, -1
      and +1 on a draw. */
  lemma UpdateIsConvex(row: Row, a: Action, score: int, gamma: real)
    requires 0.0 <= gamma <= 1.0
    ensures score < 0 ==>
      Between(UpdatedRow(row, a, score, gamma)[LosingAttack(a)], row[LosingAttack(a)], -score as real)
    ensures score > 0 ==>
      Between(UpdatedRow(row, a, score, gamma)[a], row[a], score as real)
    ensures score == 0 ==>
      Between(UpdatedRow(row, a, score, gamma)[a], row[a], -1.0)
      && Between(UpdatedRow(row, a, score, gamma)[CounterAttack(a)], row[CounterAttack(a)], 1.0)
  {
    if score < 0 {
      BlendBetween(row[LosingAttack(a)], -score as real, gamma);
    } else if score > 0 {
      BlendBetween(row[a], score as real, gamma);
    } else {
      BlendBetween(row[a], -1.0, gamma);
      BlendBetween(row[CounterAttack(a)], 1.0, gamma);
    }
  }

  /** For gamma in [0, 1] and a score in {-1, 0, 1}, the update keeps every
      preference of the row in [-1, 1]. */
  lemma UpdateKeepsRowBounded(row: Row, a: Action, score: int, gamma: real)
    requires 0.0 <= gamma <= 1.0 && -1 <= score <= 1
    requires RowBounded(row)
    ensures RowBounded(UpdatedRow(row, a, score, gamma))
  {
    UpdateIsConvex(row, a, score, gamma);
    ActionTrichotomy(a, a);
  }

  /** update_q_dict touches the row of `s` only: the key set is kept and
      every other state keeps its row. */
  lemma UpdateFrame(q: QDict, s: State, a: Action, score: int, gamma: real)
    requires s in q
    ensures var q' := q[s := UpdatedRow(q[s], a, score, gamma)];
      q'.Keys == q.Keys && forall t :: t in q && t != s ==> q'[t] == q[t]
  {
  }

  /** update_q_dict keeps the table keyed on all 9 states and, for gamma in
      [0, 1] and a score in {-1, 0, 1}, keeps every value in [-1, 1]. */
  lemma UpdateKeepsTableInvariants(q: QDict, s: State, a: Action, score: int, gamma: real)
    requires s in q
    ensures var q' := q[s := UpdatedRow(q[s], a, score, gamma)];
      (Complete(q) ==> Complete(q'))
      && (0.0 <= gamma <= 1.0 && -1 <= score <= 1 && Bounded(q) ==> Bounded(q'))
  {
    if 0.0 <= gamma <= 1.0 && -1 <= score <= 1 && Bounded(q) {
      UpdateKeepsRowBounded(q[s], a, score, gamma);
    }
  }

  /** After a unit loss with gamma = 1, if the other two slots are below 1,
      the policy in that state now picks the action that `a` beats. */
  lemma LossWithFullGammaSteersPolicy(row: Row, a: Action)
    requires forall j :: 0 <= j < 3 && j != LosingAttack(a) ==> row[j] < 1.0
    ensures IsGreedy(UpdatedRow(row, a, -1, 1.0), LosingAttack(a))
  {
    var r := UpdatedRow(row, a, -1, 1.0);
    UpdateOnLoss(row, a, -1, 1.0);
    assert r[LosingAttack(a)] == 1.0;
    assert forall j :: 0 <= j < 3 && j != LosingAttack(a) ==> r[j] < 1.0;
  }

  /** After a draw with gamma = 1, if the third slot is below 1, the policy
      in that state now picks the counter attack of the drawn action. */
  lemma DrawWithFullGammaSteersPolicy(row: Row, a: Action)
    requires row[LosingAttack(a)] < 1.0
    ensures IsGreedy(UpdatedRow(row, a, 0, 1.0), CounterAttack(a))
  {
    var r := UpdatedRow(row, a, 0, 1.0);
    UpdateOnDraw(row, a, 1.0);
    forall j | 0 <= j < 3 && j != CounterAttack(a)
      ensures r[j] < 1.0
    {
      ActionTrichotomy(a, j);
    }
  }
}
