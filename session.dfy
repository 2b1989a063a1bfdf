/** A session: the value table is built once over all states, then rounds
    are played one after the other, each choosing the opponent's action
    greedily, scoring it, updating the table for the state just played and
    advancing the state. */
module Session {
  import opened Rules
  import opened Game
  import opened QLearning

  /** The blend factor every round of the session uses. */
  const Gamma: real := 0.95

  /** The most rounds a session plays. */
  const MaxRounds: nat := 100

  /** Builds the initial table keyed on the enumeration of all states; the
      n-th row is `draws[n]` (the pseudo-random draws are a parameter). Draws
      in [-1, 1], as the unit-interval draws of the game are, give a table
      within [-1, 1]. */
  method NewQDict(draws: seq<Row>) returns (q: QDict)
    requires |draws| == 9
    ensures Complete(q)
    ensures forall n :: 0 <= n < 9 ==> q[StateAt(n)] == draws[n]
    ensures (forall n :: 0 <= n < 9 ==> RowBounded(draws[n])) ==> Bounded(q)
  {
    var states := GetAllStates();
    q := map[];
    for i := 0 to 9
      invariant forall n :: 0 <= n < i ==> StateAt(n) in q && q[StateAt(n)] == draws[n]
    {
      forall n | 0 <= n < i
        ensures StateAt(n) != StateAt(i)
      {
        StateAtInjective(n, i);
      }
      q := q[states[i] := draws[i]];
    }
    forall s: State
      ensures s in q && q[s] == draws[3 * ActionIndex(s.0) + ActionIndex(s.1)]
    {
      StateAtIndex(s.0, s.1);
    }
  }

  /** Whichever way a round ends, the slot the update moves towards +1 is the
      action that beats the player's move of that round: on the opponent's
      loss the action its own move beats, on its win its own move, on a draw
      the counter of its move. */
  lemma RoundRewardsCounterOfPlayer(p: Action, o: Action)
    ensures -Score(p, o) < 0 ==> Beats(LosingAttack(o), p)
    ensures -Score(p, o) > 0 ==> Beats(o, p)
    ensures -Score(p, o) == 0 ==> Beats(CounterAttack(o), p)
  {
    ScoreDeterminesPlayerAction(p, o);
    LosingIsDoubleCounter(o);
  }

  /** The update after a round moves the preference of the action that
      beats the player's move towards +1, whatever the outcome: for gamma in
      [0, 1] its new value lies between its old value and 1. A player who
      keeps playing one action thus raises the preference for its counter
      in the state the round starts in. */
  lemma RoundPushesCounterOfPlayer(row: Row, p: Action, o: Action, gamma: real)
    requires 0.0 <= gamma <= 1.0
    ensures Between(UpdatedRow(row, o, -Score(p, o), gamma)[CounterAttack(p)], row[CounterAttack(p)], 1.0)
  {
    ScoreDeterminesPlayerAction(p, o);
    LosingIsDoubleCounter(o);
    CounterLosingInverse(o);
    UpdateIsConvex(row, o, -Score(p, o), gamma);
  }

  /** One round: read the state, pick the opponent's action greedily, score
      the pair, update the table for the state read with the opponent's
      outcome (the negated score), then advance the state. */
  method PlayRound(env: Environment, q: QDict, playerAction: Action, gamma: real)
    returns (opponentAction: Action, score: int, total: int, q': QDict)
    requires env.Valid() && Complete(q)
    modifies env
    ensures env.Valid() && Complete(q')
    ensures old(env.state) in q
    ensures IsGreedy(q[old(env.state)], opponentAction)
    ensures score == Score(playerAction, opponentAction)
    ensures env.totalScore == old(env.totalScore) + score && total == env.totalScore
    ensures q' == q[old(env.state) := UpdatedRow(q[old(env.state)], opponentAction, -score, gamma)]
    ensures 0.0 <= gamma <= 1.0 && Bounded(q) ==> Bounded(q')
    ensures env.state == (playerAction, opponentAction)
    ensures env.playerActionCounter == old(env.playerActionCounter)[playerAction := old(env.playerActionCounter[playerAction]) + 1]
    ensures env.opponentActionCounter == old(env.opponentActionCounter)[opponentAction := old(env.opponentActionCounter[opponentAction]) + 1]
  {
    var state := env.GetState();
    opponentAction := PolicyEquivalent(q, state);
    score, total := env.CheckWinner(playerAction, opponentAction);
    q' := UpdateQDict(q, state, opponentAction, -score, gamma);
    var newState := env.UpdateState(playerAction, opponentAction);
    UpdateKeepsTableInvariants(q, state, opponentAction, -score, gamma);
  }

  /** The sum of the elements. */
  function Sum(s: seq<int>): (r: int) {
    if s == [] then 0 else Sum(s[..|s| - 1]) + s[|s| - 1]
  }

  /** The state after the rounds whose opponent actions are `opp` (the
      player's are the matching prefix of `moves`), starting from s0: the
      pair of the last round, or s0 before any round. */
  function StateAfter(s0: State, moves: seq<Action>, opp: seq<Action>): (st: State)
    requires |opp| <= |moves|
  {
    if opp == [] then s0 else (moves[|opp| - 1], opp[|opp| - 1])
  }

  /** The table after the rounds whose opponent actions are `opp`: each
      round updates the row of the state it started in with the opponent's
      outcome. The table stays keyed on all 9 states and, for gamma in
      [0, 1], within [-1, 1]. */
  function TableAfter(q: QDict, s0: State, moves: seq<Action>, opp: seq<Action>, gamma: real): (r: QDict)
    requires Complete(q) && |opp| <= |moves|
    ensures Complete(r)
    ensures 0.0 <= gamma <= 1.0 && Bounded(q) ==> Bounded(r)
    decreases |opp|
  {
    if opp == [] then q
    else
      var k := |opp| - 1;
      var prev := TableAfter(q, s0, moves, opp[..k], gamma);
      var st := StateAfter(s0, moves, opp[..k]);
      var outcome := -Score(moves[k], opp[k]);
      UpdateKeepsTableInvariants(prev, st, opp[k], outcome, gamma);
      prev[st := UpdatedRow(prev[st], opp[k], outcome, gamma)]
  }

  /** Round k's opponent action is the greedy choice for the state the round
      starts in, in the table the earlier rounds left. */
  ghost predicate GreedyAt(q: QDict, s0: State, moves: seq<Action>, opp: seq<Action>, k: nat)
    requires Complete(q) && k < |opp| <= |moves|
  {
    IsGreedy(TableAfter(q, s0, moves, opp[..k], Gamma)[StateAfter(s0, moves, opp[..k])], opp[k])
  }

  /** How many times `a` occurs in `s`. */
  function Count(s: seq<Action>, a: Action): (c: nat)
    ensures c <= |s|
  {
    if s == [] then 0 else Count(s[..|s| - 1], a) + (if s[|s| - 1] == a then 1 else 0)
  }

  /** Round k scored the pair (moves[k], opp[k]), for every round played. */
  ghost predicate Scored(moves: seq<Action>, opp: seq<Action>, scores: seq<int>) {
    |scores| == |opp| <= |moves|
    && forall k :: 0 <= k < |opp| ==> scores[k] == Score(moves[k], opp[k])
  }

  /** Every round played chose the opponent's action greedily. */
  ghost predicate AllGreedy(q: QDict, s0: State, moves: seq<Action>, opp: seq<Action>)
    requires Complete(q) && |opp| <= |moves|
  {
    forall k :: 0 <= k < |opp| ==> GreedyAt(q, s0, moves, opp, k)
  }

  /** Each slot of the counters `c` exceeds that of `c0` by the number of
      times its action occurs in `s`. */
  ghost predicate Counted(c: seq<nat>, c0: seq<nat>, s: seq<Action>) {
    |c| == 3 && |c0| == 3
    && forall a: Action :: c[a] == c0[a] + Count(s, a)
  }

  /** The session: plays one round per player move, at most MaxRounds of
      them, with blend factor Gamma, and returns the opponent's actions and
      the round scores. Round k starts in the state left by round k - 1; its
      opponent action is the greedy choice for that state in the table left
      by round k - 1; its score is that of the pair. The final table is the
      fold of the updates, the final state the last pair played, the total
      grows by the sum of the scores and each counter slot by the number of
      rounds that played its action. */
  method PlayGame(env: Environment, q: QDict, moves: seq<Action>)
    returns (opp: seq<Action>, scores: seq<int>, q': QDict)
    requires env.Valid() && Complete(q)
    modifies env
    ensures env.Valid() && Complete(q')
    ensures |opp| == if |moves| < MaxRounds then |moves| else MaxRounds
    ensures Scored(moves, opp, scores)
    ensures AllGreedy(q, old(env.state), moves, opp)
    ensures q' == TableAfter(q, old(env.state), moves, opp, Gamma)
    ensures env.state == StateAfter(old(env.state), moves, opp)
    ensures env.totalScore == old(env.totalScore) + Sum(scores)
    ensures Bounded(q) ==> Bounded(q')
    ensures Counted(env.playerActionCounter, old(env.playerActionCounter), moves[..|opp|])
    ensures Counted(env.opponentActionCounter, old(env.opponentActionCounter), opp)
    ensures Sum(env.playerActionCounter) == old(Sum(env.playerActionCounter)) + |opp|
    ensures Sum(env.opponentActionCounter) == old(Sum(env.opponentActionCounter)) + |opp|
  {
    ghost var s0, t0 := env.state, env.totalScore;
    ghost var pc0, oc0 := env.playerActionCounter, env.opponentActionCounter;
    opp, scores := [], [];
    q' := q;
    var numGames := 0;
    assert moves[..0] == [];
    while numGames < MaxRounds && numGames < |moves|
      invariant numGames <= MaxRounds && |opp| == numGames
      invariant env.Valid()
      invariant Played(q, s0, t0, pc0, oc0, moves, opp, scores,
                       q', env.state, env.totalScore, env.playerActionCounter, env.opponentActionCounter)
    {
      var opponentAction, score;
      opponentAction, score, q' := PlayTrackedRound(env, q', moves[numGames], moves, q, s0, t0, pc0, oc0, opp, scores);
      scores := scores + [score];
      opp := opp + [opponentAction];
      numGames := numGames + 1;
    }
    PlayedMeans(q, s0, t0, pc0, oc0, moves, opp, scores,
                q', env.state, env.totalScore, env.playerActionCounter, env.opponentActionCounter);
  }

  /** One iteration of the session loop: PlayRound on the next player move,
      which keeps Played over the rounds so far. */
  method PlayTrackedRound(env: Environment, t: QDict, playerAction: Action, ghost moves: seq<Action>, ghost q: QDict, ghost s0: State,
                          ghost t0: int, ghost pc0: seq<nat>, ghost oc0: seq<nat>,
                          ghost opp: seq<Action>, ghost scores: seq<int>)
    returns (opponentAction: Action, score: int, t': QDict)
    requires env.Valid() && |opp| < |moves| && playerAction == moves[|opp|]
    requires Played(q, s0, t0, pc0, oc0, moves, opp, scores,
                    t, env.state, env.totalScore, env.playerActionCounter, env.opponentActionCounter)
    modifies env
    ensures env.Valid()
    ensures Played(q, s0, t0, pc0, oc0, moves, opp + [opponentAction], scores + [score],
                   t', env.state, env.totalScore, env.playerActionCounter, env.opponentActionCounter)
  {
    ghost var st, total0, pc, oc := env.state, env.totalScore, env.playerActionCounter, env.opponentActionCounter;
    var total;
    opponentAction, score, total, t' := PlayRound(env, t, playerAction, Gamma);
    PlayedStep(q, s0, t0, pc0, oc0, moves, opp, scores, t, st, total0, pc, oc,
               opponentAction, score, t', env.state, env.totalScore, env.playerActionCounter, env.opponentActionCounter);
  }

  /** The session state after the rounds in `opp`: starting from table `q`,
      state `s0`, total `t0` and counters `pc0`, `oc0`, every round scored
      and chose greedily, and the table, state, total and counters reached
      are `t`, `st`, `total`, `pc` and `oc`. */
  ghost predicate Played(q: QDict, s0: State, t0: int, pc0: seq<nat>, oc0: seq<nat>,
                         moves: seq<Action>, opp: seq<Action>, scores: seq<int>,
                         t: QDict, st: State, total: int, pc: seq<nat>, oc: seq<nat>)
  {
    Complete(q) && |opp| <= |moves|
    && Learned(q, s0, moves, opp, t, st)
    && Tallied(t0, pc0, oc0, moves, opp, scores, total, pc, oc)
  }

  /** The opponent's side of Played: greedy choices, the folded table and the state. */
  ghost predicate Learned(q: QDict, s0: State, moves: seq<Action>, opp: seq<Action>, t: QDict, st: State)
    requires Complete(q) && |opp| <= |moves|
  {
    AllGreedy(q, s0, moves, opp)
    && t == TableAfter(q, s0, moves, opp, Gamma)
    && st == StateAfter(s0, moves, opp)
  }

  /** The scoring side of Played: round scores, the total and both counters. */
  ghost predicate Tallied(t0: int, pc0: seq<nat>, oc0: seq<nat>, moves: seq<Action>, opp: seq<Action>,
                          scores: seq<int>, total: int, pc: seq<nat>, oc: seq<nat>)
    requires |opp| <= |moves|
  {
    Scored(moves, opp, scores)
    && total == t0 + Sum(scores)
    && Counted(pc, pc0, moves[..|opp|])
    && Counted(oc, oc0, opp)
  }

  /** What Played says, spelled out, with the counter totals it implies. */
  lemma PlayedMeans(q: QDict, s0: State, t0: int, pc0: seq<nat>, oc0: seq<nat>,
                    moves: seq<Action>, opp: seq<Action>, scores: seq<int>,
                    t: QDict, st: State, total: int, pc: seq<nat>, oc: seq<nat>)
    requires Played(q, s0, t0, pc0, oc0, moves, opp, scores, t, st, total, pc, oc)
    ensures Complete(t)
    ensures Scored(moves, opp, scores)
    ensures AllGreedy(q, s0, moves, opp)
    ensures t == TableAfter(q, s0, moves, opp, Gamma)
    ensures st == StateAfter(s0, moves, opp)
    ensures total == t0 + Sum(scores)
    ensures Bounded(q) ==> Bounded(t)
    ensures Counted(pc, pc0, moves[..|opp|])
    ensures Counted(oc, oc0, opp)
    ensures Sum(pc) == Sum(pc0) + |opp|
    ensures Sum(oc) == Sum(oc0) + |opp|
  {
    CountersTotal(pc0, pc, moves[..|opp|]);
    CountersTotal(oc0, oc, opp);
  }

  /** One more round, played as PlayRound plays it, keeps Played. */
  lemma PlayedStep(q: QDict, s0: State, t0: int, pc0: seq<nat>, oc0: seq<nat>,
                   moves: seq<Action>, opp: seq<Action>, scores: seq<int>,
                   t: QDict, st: State, total: int, pc: seq<nat>, oc: seq<nat>,
                   o: Action, score: int, t': QDict, st': State, total': int, pc': seq<nat>, oc': seq<nat>)
    requires |opp| < |moves|
    requires Played(q, s0, t0, pc0, oc0, moves, opp, scores, t, st, total, pc, oc)
    requires IsGreedy(t[st], o) && score == Score(moves[|opp|], o)
    requires t' == t[st := UpdatedRow(t[st], o, -score, Gamma)]
    requires st' == (moves[|opp|], o) && total' == total + score
    requires pc' == pc[moves[|opp|] := pc[moves[|opp|]] + 1] && oc' == oc[o := oc[o] + 1]
    ensures Played(q, s0, t0, pc0, oc0, moves, opp + [o], scores + [score], t', st', total', pc', oc')
  {
    GreedyExtend(q, s0, moves, opp, o);
    TableAfterAppend(q, s0, moves, opp, o, Gamma);
    ScoredAppend(moves, opp, scores, o);
    SumAppend(scores, Score(moves[|opp|], o));
    CountedPrefixStep(pc, pc0, moves, |opp|);
    CountedAppend(oc, oc0, opp, o);
  }

  /** One more round scored its pair. */
  lemma ScoredAppend(moves: seq<Action>, opp: seq<Action>, scores: seq<int>, o: Action)
    requires Scored(moves, opp, scores) && |opp| < |moves|
    ensures Scored(moves, opp + [o], scores + [Score(moves[|opp|], o)])
  {
  }

  /** Summing over one more element. */
  lemma SumAppend(s: seq<int>, x: int)
    ensures Sum(s + [x]) == Sum(s) + x
  {
    assert (s + [x])[..|s|] == s;
  }

  /** One more round that played `x` adds one to the slot of `x`. */
  lemma CountedAppend(c: seq<nat>, c0: seq<nat>, s: seq<Action>, x: Action)
    requires Counted(c, c0, s)
    ensures Counted(c[x := c[x] + 1], c0, s + [x])
  {
    CountAppend(s, x);
  }

  /** CountedAppend for the next player move, counted over a prefix of `moves`. */
  lemma CountedPrefixStep(c: seq<nat>, c0: seq<nat>, moves: seq<Action>, n: nat)
    requires n < |moves| && Counted(c, c0, moves[..n])
    ensures Counted(c[moves[n] := c[moves[n]] + 1], c0, moves[..n + 1])
  {
    assert moves[..n + 1] == moves[..n] + [moves[n]];
    CountedAppend(c, c0, moves[..n], moves[n]);
  }

  /** Every element is one of the three actions, so the three counts add
      up to the length. */
  lemma {:induction false} CountTotal(s: seq<Action>)
    ensures Count(s, PAPER) + Count(s, ROCK) + Count(s, SCISSORS) == |s|
  {
    if s != [] {
      CountTotal(s[..|s| - 1]);
    }
  }

  /** Counters that grew slot by slot by the counts of `s` grew in total by
      the length of `s`. */
  lemma CountersTotal(c0: seq<nat>, c: seq<nat>, s: seq<Action>)
    requires Counted(c, c0, s)
    ensures Sum(c) == Sum(c0) + |s|
  {
    CountTotal(s);
    assert c[0] == c0[0] + Count(s, PAPER);
    assert c[1] == c0[1] + Count(s, ROCK);
    assert c[2] == c0[2] + Count(s, SCISSORS);
    SumOfThree(c);
    SumOfThree(c0);
  }

  /** The sum of a three-slot counter. */
  lemma SumOfThree(c: seq<int>)
    requires |c| == 3
    ensures Sum(c) == c[0] + c[1] + c[2]
  {
    var c2, c1 := c[..2], c[..1];
    assert c2[..1] == c1 && c1[..0] == [];
    assert Sum(c) == Sum(c2) + c[2];
    assert Sum(c2) == Sum(c1) + c[1];
    assert Sum(c1) == c[0];
  }

  /** Counting over one more element. */
  lemma CountAppend(s: seq<Action>, x: Action)
    ensures forall a: Action :: Count(s + [x], a) == Count(s, a) + (if x == a then 1 else 0)
  {
    assert (s + [x])[..|s|] == s;
  }

  /** One more round leaves its own pair as the state, whatever the rounds
      before it left: update_state overwrites the state. */
  lemma StateAfterAppend(s0: State, moves: seq<Action>, opp: seq<Action>, o: Action)
    requires |opp| < |moves|
    ensures StateAfter(s0, moves, opp + [o]) == (moves[|opp|], o)
    ensures forall s1: State :: StateAfter(s1, moves, opp + [o]) == StateAfter(s0, moves, opp + [o])
  {
  }

  /** Playing one more round with opponent action `o` updates the row of
      the state the round started in, and the new state is the round's pair. */
  lemma TableAfterAppend(q: QDict, s0: State, moves: seq<Action>, opp: seq<Action>, o: Action, gamma: real)
    requires Complete(q) && |opp| < |moves|
    ensures StateAfter(s0, moves, opp + [o]) == (moves[|opp|], o)
    ensures var prev := TableAfter(q, s0, moves, opp, gamma);
      var st := StateAfter(s0, moves, opp);
      TableAfter(q, s0, moves, opp + [o], gamma)
        == prev[st := UpdatedRow(prev[st], o, -Score(moves[|opp|], o), gamma)]
  {
    StateAfterAppend(s0, moves, opp, o);
    assert (opp + [o])[..|opp|] == opp;
  }

  /** If every earlier round chose greedily and `o` is the greedy choice for
      the round that follows them, every round of the extended session chose
      greedily. */
  lemma GreedyExtend(q: QDict, s0: State, moves: seq<Action>, opp: seq<Action>, o: Action)
    requires Complete(q) && |opp| < |moves|
    requires AllGreedy(q, s0, moves, opp)
    requires IsGreedy(TableAfter(q, s0, moves, opp, Gamma)[StateAfter(s0, moves, opp)], o)
    ensures AllGreedy(q, s0, moves, opp + [o])
  {
    var opp2 := opp + [o];
    forall k | 0 <= k <= |opp|
      ensures GreedyAt(q, s0, moves, opp2, k)
    {
      assert opp2[..k] == opp[..k];
      if k < |opp| {
        assert GreedyAt(q, s0, moves, opp, k);
      } else {
        assert opp[..k] == opp;
      }
    }
  }
}
