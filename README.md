# Predictive rock-paper-scissors: the adaptive opponent, in Dafny

This project models the game logic of a rock-paper-scissors device in which a
human plays against an adaptive opponent. The hardware is left out. What is
modelled:

- **Rules** (`rules.dfy`, module `Rules`). Actions are the game's integer
  ordinals PAPER = 0, ROCK = 1, SCISSORS = 2. `Score` is the if-chain of
  `Environment.check_winner`. `CounterAttack` and `LosingAttack` are
  `find_counter_attack` and `find_losing_attack`. All three are tied to an
  independent reference relation, `Beats(x, y) <==> y == (x + 1) % 3`.
- **Environment** (`environment.dfy`, module `Game`). A class holds the
  current state, the running total and the two per-action counters. Its
  methods update them in place. `GetAllStates` builds the 9-state
  enumeration with two nested loops.
- **Value table and policy** (`qdict.dfy`, module `QLearning`). The table
  maps each state to a row of three `real` preferences.
  `PolicyEquivalent` is the greedy scan: it returns the first index that
  holds the row maximum.
  - `UpdatedRow` specifies `update_q_dict` as a function.
  - `UpdateQDict` is the method that rewrites a local copy of the row and
    stores it back.
  - Lemmas give each branch's effect, the frame, the gamma = 1 cases,
    convexity and the [-1, 1] invariant.
- **Session** (`session.dfy`, module `Session`).
  - `NewQDict` builds the initial table over the enumeration.
  - `PlayRound` is one round of the main loop.
  - `PlayGame` is the loop of at most 100 rounds with gamma = 0.95. Its
    contract ties every round to the specification functions `StateAfter`
    and `TableAfter`, which fold the round over the opponent's actions.

The loss branch is faithful to the game's intent. It rewrites the slot of
`find_losing_attack(a)`, where `a` is the opponent's action. The opponent
lost, so the player played `CounterAttack(a)`. `LosingAttack(a)` equals
`CounterAttack(CounterAttack(a))`, which beats the player's move.
`RoundRewardsCounterOfPlayer` shows that in every outcome the slot the
branch rewards holds the action that beats the player's move.
`RoundPushesCounterOfPlayer` states the effect on the row: for gamma in
[0, 1], the update moves the preference of the counter of the player's move
towards +1, so a player who keeps playing ROCK raises PAPER's preference in
the state the round starts in.

The code never checks that gamma lies in [0, 1] (main.py:216), so no
operation requires it. Only the convexity and bound lemmas assume it.

## Model

| member | source | states |
|---|---|---|
| Rules.Score | main.py:102-115 | the score is in {-1, 0, 1}; equal actions score 0; it is 1 exactly when the player's action beats the opponent's and -1 exactly when the opponent's beats the player's |
| Rules.ScoreAntisymmetric | main.py:102-115 | swapping player and opponent negates the score, for all 9 pairs |
| Rules.ScoreDeterminesPlayerAction | main.py:102-115 | a player win means the player played the counter attack of the opponent's action; a loss means the opponent's losing attack; a draw means the same action |
| Rules.CounterAttack | main.py:168-176 | find_counter_attack(a) beats a (the score of (result, a) is 1) and differs from a |
| Rules.LosingAttack | main.py:178-186 | a beats find_losing_attack(a) and the two differ |
| Rules.CounterAttackUnique | main.py:168-176 | an action beats a if and only if it is find_counter_attack(a) |
| Rules.LosingAttackUnique | main.py:178-186 | a beats an action if and only if it is find_losing_attack(a) |
| Rules.CounterLosingInverse | main.py:168-186 | find_losing_attack and find_counter_attack are mutual inverses |
| Rules.LosingIsDoubleCounter | main.py:168-186 | find_losing_attack(a) is find_counter_attack applied twice to a |
| Rules.ActionTrichotomy | main.py:168-186 | every action is a, its counter attack or its losing attack, and the latter two differ |
| Game.GetActions | main.py:55-59 | get_actions lists each of the three actions exactly once |
| Game.StateAtIndex | main.py:79-87 | every pair (p, o) appears in the enumeration, at position 3 * (index of p) + (index of o) |
| Game.StateAtInjective | main.py:79-87 | distinct positions of the enumeration hold distinct states |
| Game.GetAllStates | main.py:79-87 | the nested loops produce 9 states in player-major order, covering every (player, opponent) pair |
| Game.Environment.constructor | main.py:34-53 | state is the initial pair (PAPER, PAPER by default); total 0; both counters [0, 0, 0] |
| Game.Environment.GetState | main.py:61-64 | returns the current state |
| Game.Environment.UpdateState | main.py:66-76 | the state becomes (player_action, opponent_action) and is returned; each counter gains 1 in its action's slot and no other slot changes; the total is untouched |
| Game.Environment.CheckWinner | main.py:95-117 | returns the score of the pair and the new total, which is the old total plus that score |
| QLearning.RowMax | main.py:149 | the result is at least every value of the row and is one of them |
| QLearning.PolicyEquivalent | main.py:147-153 | requires the state to be a key; returns an index whose value is the row maximum, with every lower index holding a strictly smaller value |
| QLearning.GreedyUnique | main.py:147-153 | the greedy choice of a row is unique |
| QLearning.GreedyTieExample | main.py:151-153 | on (0.2, 0.9, 0.9) the choice is ROCK (index 1), not SCISSORS |
| QLearning.UpdatedRow | main.py:231-251 | each branch leaves the slots it does not assign unchanged: on a loss slot a and its counter attack, on a win the counter and losing attacks of a, on a draw the losing attack of a |
| QLearning.UpdateQDict | main.py:212-252 | gamma defaults to 1.0; requires the state to be a key; the new table differs from the old only in the row of s, which becomes the updated row |
| QLearning.UpdateOnLoss | main.py:233-237 | when score < 0 only slot find_losing_attack(a) changes, to gamma*(-score) + (1-gamma)*old; that slot is never a |
| QLearning.UpdateOnWin | main.py:239-242 | when score > 0 only slot a changes, to gamma*score + (1-gamma)*old; the other two slots are unchanged |
| QLearning.UpdateOnDraw | main.py:244-249 | on a draw slot a becomes -gamma + (1-gamma)*old, slot find_counter_attack(a) becomes gamma + (1-gamma)*its old value, and the third slot is unchanged |
| QLearning.UpdateFullGamma | main.py:233-249 | with gamma = 1 a unit loss sets the losing-attack slot to 1, a unit win sets slot a to 1, and a draw sets slot a to -1 and the counter slot to 1 |
| QLearning.BlendBetween | main.py:237 | for gamma in [0, 1] the blend gamma*target + (1-gamma)*old lies between old and target |
| QLearning.UpdateIsConvex | main.py:231-251 | for gamma in [0, 1] each rewritten slot lies between its old value and its branch's target (-score, score, -1 or +1) |
| QLearning.UpdateKeepsRowBounded | main.py:231-251 | for gamma in [0, 1] and a score in {-1, 0, 1}, a row with values in [-1, 1] keeps them in [-1, 1] |
| QLearning.UpdateFrame | main.py:231-251 | the key set is kept and every other state keeps its row |
| QLearning.UpdateKeepsTableInvariants | main.py:231-251 | a table keyed on all 9 states stays so; for gamma in [0, 1] and a score in {-1, 0, 1} a table within [-1, 1] stays within it |
| QLearning.LossWithFullGammaSteersPolicy | main.py:233-237 | after a unit loss with gamma = 1, if the other slots are below 1, the greedy choice for that state becomes find_losing_attack(a) |
| QLearning.DrawWithFullGammaSteersPolicy | main.py:244-249 | after a draw with gamma = 1, if the third slot is below 1, the greedy choice for that state becomes find_counter_attack(a) |
| Session.NewQDict | main.py:258 | the table built from the enumeration is keyed on all 9 states, the n-th state gets the n-th drawn row, and draws within [-1, 1] give a table within [-1, 1] |
| Session.RoundRewardsCounterOfPlayer | main.py:299-300 | in each outcome of a round, the action of the slot its branch moves towards +1 (the losing attack of the opponent's action on a loss, that action on a win, its counter attack on a draw) beats the player's move |
| Session.RoundPushesCounterOfPlayer | main.py:299-300 | for gamma in [0, 1], the update after a round leaves the preference of the action that beats the player's move between its old value and 1, in every outcome |
| Session.PlayRound | main.py:290-302 | the opponent's action is the greedy choice for the state read; the score is that of the pair; the total grows by the score; the row of the old state is updated with -score; then the state and counters advance; the table stays keyed on all 9 states, and for gamma in [0, 1] a table within [-1, 1] stays within it |
| Session.TableAfter | main.py:271-302 | the table after any sequence of rounds is keyed on all 9 states; for gamma in [0, 1] a table within [-1, 1] stays within it |
| Session.StateAfterAppend | main.py:71 | the state after one more round is that round's pair, whatever the starting state and earlier rounds were |
| Session.TableAfterAppend | main.py:290-302 | one more round updates, in the table the earlier rounds left, the row of the state the round starts in with the opponent's outcome, and leaves the round's pair as the state |
| Session.GreedyExtend | main.py:290-294 | a session whose earlier rounds chose greedily, extended by a greedy choice, chose greedily in every round |
| Session.CountTotal | main.py:74-75 | over any sequence of actions the three per-action counts add up to its length |
| Session.CountersTotal | main.py:74-75 | counters that grew slot by slot by the per-action counts of a sequence grew in total by its length |
| Session.CountedAppend | main.py:74-75 | one more round that played x adds one to the slot of x in the per-action counts |
| Session.PlayedStep | main.py:290-302 | one more round, played as the loop body plays it, keeps the session invariant: greedy choices, scores, folded table, state, total and counters |
| Session.PlayTrackedRound | main.py:290-302 | one iteration of the session loop, PlayRound on the next player move, keeps the session invariant over the rounds played so far extended by this one |
| Session.PlayedMeans | main.py:271-302 | the session invariant gives each round's score and greedy choice, the folded table and state, the total, the per-slot counters and their totals |
| Session.PlayGame | main.py:271-302 | plays min(number of moves, 100) rounds with gamma 0.95; round k scores (moves[k], opp[k]) and its opponent action is the greedy choice for the state round k - 1 left, in the table round k - 1 left; the final table is that fold of the updates and the final state the last pair played; the total grows by the sum of the scores; each counter slot grows by the number of rounds that played its action, so each counter's total grows by the number of rounds; the table stays keyed on all 9 states and within [-1, 1] |

## Left out

- Hardware I/O: the pin, I2C and SSD1306 display setup and drawing, `zoom`,
  and `machine.sleep` (main.py:14-24, 157-165, 263-269, 304-341). These are
  foreign devices with no logic to verify.
- Input polling: the busy-wait for a pressed contact and the all-contacts
  exit (main.py:276-288). The player's moves are a parameter instead, and the
  session ends when they run out.
- Randomness: `random_action`, `random_policy`, `get_random_state` and the
  random initial values of the table (main.py:89-93, 131-145, 258). The
  initial rows are a parameter of `NewQDict`.
- Display strings: `print_action` and `print_score` only format and print
  text.
- `get_player_actions_counter` and `get_opponent_actions_counter` read
  attributes that do not exist (main.py:119-127), so they are not modelled.
  The counters are read directly as fields.
- `get_all_states` reads the global `env` rather than `self`. It is modelled
  as a plain enumeration.
- Floating point: gamma and the table values are exact `real`s, not IEEE
  doubles. The code relies on no rounding behaviour, but `max` and `==` on
  doubles (NaN in particular) are not modelled.
- Python dictionary identity: `update_q_dict` mutates the dictionary it is
  given and returns it. `UpdateQDict` returns a new map value instead, so
  aliasing of the dictionary is not captured.
- Missing keys: `PolicyEquivalent` requires `state in q` and `UpdateQDict`
  requires `s in q`. They stand in for the crashes of the code on a missing
  key: `max(None)` raises TypeError (main.py:148-149) and `q_dict[s]` raises
  KeyError (main.py:231). Every call site in a session meets them, because
  the table is keyed on all 9 states.
- Out-of-range actions: for an integer outside 0..2 `check_winner` falls
  through to a score of 0 (main.py:114-115) and the two attack functions
  return None. The `Action` type excludes such integers, so these paths are
  not modelled.
