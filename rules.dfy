/** The rules of rock-paper-scissors: the three actions, the score of a
    round from the player's side, and the two action relations the
    opponent's learning rule is built on. */
module Rules {

  /** An action is the integer ordinal the game uses for it, so that it can
      index a row of the value table directly. */
  type Action = x: int | 0 <= x < 3

  const PAPER: Action := 0
  const ROCK: Action := 1
  const SCISSORS: Action := 2

  /** The context the opponent conditions on: (player action, opponent action)
      of the previous round. */
  type State = (Action, Action)

  /** Reference definition of the dominance relation: paper beats rock, rock
      beats scissors, scissors beats paper. With the ordinals above, each
      action beats its successor modulo 3. */
  predicate Beats(x: Action, y: Action) {
    y == (x + 1) % 3
  }

  /** The scoring part of Environment.check_winner: +1 when the player wins,
      -1 when the opponent wins, 0 otherwise. */
  function Score(playerAction: Action, opponentAction: Action): (r: int)
    ensures -1 <= r <= 1
    ensures playerAction == opponentAction ==> r == 0
    ensures r == 1 <==> Beats(playerAction, opponentAction)
    ensures r == -1 <==> Beats(opponentAction, playerAction)
  {
    if playerAction == PAPER && opponentAction == ROCK then 1
    else if opponentAction == PAPER && playerAction == ROCK then -1
    else if playerAction == ROCK && opponentAction == SCISSORS then 1
    else if opponentAction == ROCK && playerAction == SCISSORS then -1
    else if playerAction == SCISSORS && opponentAction == PAPER then 1
    else if playerAction == PAPER && opponentAction == SCISSORS then -1
    else 0
  }

  /** Swapping the two sides negates the score. */
  lemma ScoreAntisymmetric(p: Action, o: Action)
    ensures Score(p, o) == -Score(o, p)
  {
  }

  /** find_counter_attack: the action that beats `a`. */
  function CounterAttack(a: Action): (r: Action)
    ensures Beats(r, a) && Score(r, a) == 1
    ensures r != a
  {
    if a == PAPER then SCISSORS
    else if a == ROCK then PAPER
    else ROCK
  }

  /** find_losing_attack: the action that `a` beats. */
  function LosingAttack(a: Action): (r: Action)
    ensures Beats(a, r) && Score(a, r) == 1
    ensures r != a
  {
    if a == PAPER then ROCK
    else if a == ROCK then SCISSORS
    else PAPER
  }

  /** Only one action beats a given action, so the counter attack is the
      unique winner against it. */
  lemma CounterAttackUnique(x: Action, a: Action)
    ensures Beats(x, a) <==> x == CounterAttack(a)
  {
  }

  /** Only one action is beaten by a given action. */
  lemma LosingAttackUnique(a: Action, y: Action)
    ensures Beats(a, y) <==> y == LosingAttack(a)
  {
  }

  /** The two relations undo each other. */
  lemma CounterLosingInverse(a: Action)
    ensures LosingAttack(CounterAttack(a)) == a
    ensures CounterAttack(LosingAttack(a)) == a
  {
  }

  /** The action `a` beats is the counter of the counter of `a`: the three
      actions form a cycle. */
  lemma LosingIsDoubleCounter(a: Action)
    ensures LosingAttack(a) == CounterAttack(CounterAttack(a))
  {
  }

  /** The three actions are exactly `a`, its counter and its losing attack,
      all distinct. */
  lemma ActionTrichotomy(a: Action, x: Action)
    ensures CounterAttack(a) != LosingAttack(a)
    ensures x == a || x == CounterAttack(a) || x == LosingAttack(a)
  {
  }

  /** When the player wins, the player's action is the counter of the
      opponent's; a draw means both played the same action. */
  lemma ScoreDeterminesPlayerAction(p: Action, o: Action)
    ensures Score(p, o) == 1 <==> p == CounterAttack(o)
    ensures Score(p, o) == -1 <==> p == LosingAttack(o)
    ensures Score(p, o) == 0 <==> p == o
  {
    CounterAttackUnique(p, o);
    LosingAttackUnique(o, p);
  }
}
