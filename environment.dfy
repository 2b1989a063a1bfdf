/** The game environment: the current state, the running total score and
    how often each side played each action. */
module Game {
  import opened Rules

  /** Environment.get_actions: every action, in the order the state
      enumeration uses. */
  function GetActions(): (r: seq<Action>)
    ensures |r| == 3
    ensures forall a: Action :: a in r
    ensures forall i, j :: 0 <= i < j < 3 ==> r[i] != r[j]
  {
    [ROCK, PAPER, SCISSORS]
  }

  /** The n-th state of the enumeration: the outer loop runs over the
      player's action, the inner one over the opponent's. */
  function StateAt(n: nat): (s: State)
    requires n < 9
  {
    (GetActions()[n / 3], GetActions()[n % 3])
  }

  /** Position of an action in GetActions. */
  function ActionIndex(a: Action): (i: nat)
    ensures i < 3 && GetActions()[i] == a
  {
    if a == ROCK then 0 else if a == PAPER then 1 else 2
  }

  /** Every state appears in the enumeration, at position
      3 * (index of the player's action) + (index of the opponent's). */
  lemma StateAtIndex(p: Action, o: Action)
    ensures StateAt(3 * ActionIndex(p) + ActionIndex(o)) == (p, o)
  {
    var k := 3 * ActionIndex(p) + ActionIndex(o);
    assert k / 3 == ActionIndex(p) && k % 3 == ActionIndex(o);
  }

  /** No state appears twice in the enumeration. */
  lemma StateAtInjective(n: nat, m: nat)
    requires n < 9 && m < 9
    ensures StateAt(n) == StateAt(m) ==> n == m
  {
    if StateAt(n) == StateAt(m) {
      assert n / 3 == m / 3 && n % 3 == m % 3;
    }
  }

  /** Environment.get_all_states, as a plain enumeration built with two
      nested loops. */
  method GetAllStates() returns (states: seq<State>)
    ensures |states| == 9
    ensures forall n :: 0 <= n < 9 ==> states[n] == StateAt(n)
    ensures forall p: Action, o: Action :: (p, o) in states
  {
    var actions := GetActions();
    states := [];
    for i := 0 to 3
      invariant |states| == 3 * i
      invariant forall n :: 0 <= n < |states| ==> states[n] == StateAt(n)
    {
      for j := 0 to 3
        invariant |states| == 3 * i + j
        invariant forall n :: 0 <= n < |states| ==> states[n] == StateAt(n)
      {
        assert (3 * i + j) / 3 == i && (3 * i + j) % 3 == j;
        states := states + [(actions[i], actions[j])];
      }
    }
    forall p: Action, o: Action ensures (p, o) in states {
      StateAtIndex(p, o);
      assert states[3 * ActionIndex(p) + ActionIndex(o)] == (p, o);
    }
  }

  class Environment {
    var state: State
    var totalScore: int
    var playerActionCounter: seq<nat>
    var opponentActionCounter: seq<nat>

    /** Both counters keep one slot per action. */
    ghost predicate Valid()
      reads this
    {
      |playerActionCounter| == 3 && |opponentActionCounter| == 3
    }

    constructor (playerInitAction: Action := PAPER, agentInitAction: Action := PAPER)
      ensures Valid()
      ensures state == (playerInitAction, agentInitAction)
      ensures totalScore == 0
      ensures playerActionCounter == [0, 0, 0] && opponentActionCounter == [0, 0, 0]
    {
      state := (playerInitAction, agentInitAction);
      totalScore := 0;
      playerActionCounter := [0, 0, 0];
      opponentActionCounter := [0, 0, 0];
    }

    /** Environment.get_state: the pair of actions of the last round. */
    function GetState(): (s: State)
      reads this
      ensures s == state
    {
      state
    }

    /** Records the round just played: the new state is the pair of actions,
      and each side's counter goes up by one in the slot of its action. */
    method UpdateState(playerAction: Action, opponentAction: Action) returns (newState: State)
      requires Valid()
      modifies this
      ensures Valid()
      ensures state == (playerAction, opponentAction) && newState == state
      ensures totalScore == old(totalScore)
      ensures playerActionCounter[playerAction] == old(playerActionCounter[playerAction]) + 1
      ensures opponentActionCounter[opponentAction] == old(opponentActionCounter[opponentAction]) + 1
      ensures forall i :: 0 <= i < 3 && i != playerAction ==>
                playerActionCounter[i] == old(playerActionCounter[i])
      ensures forall i :: 0 <= i < 3 && i != opponentAction ==>
                opponentActionCounter[i] == old(opponentActionCounter[i])
    {
      state := (playerAction, opponentAction);
      playerActionCounter := playerActionCounter[playerAction := playerActionCounter[playerAction] + 1];
      opponentActionCounter := opponentActionCounter[opponentAction := opponentActionCounter[opponentAction] + 1];
      newState := state;
    }

    /** Environment.check_winner: scores the pair from the player's side and
      adds the score to the running total, returning both. */
    method CheckWinner(playerAction: Action, opponentAction: Action) returns (score: int, total: int)
      modifies this`totalScore
      ensures score == Score(playerAction, opponentAction)
      ensures totalScore == old(totalScore) + score && total == totalScore
    {
      score := Score(playerAction, opponentAction);
      totalScore := totalScore + score;
      total := totalScore;
    }
  }
}
