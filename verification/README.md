# Flip7 strategy optimiser — a Dafny model

This project models the core of a Flip7 simulator and its two-player strategy optimiser.

A Flip7 hand draws cards from an 88-card deck. Drawing a number already in
the hand busts it, unless the player holds a Second Chance card. A player
with strategy `STRAT(X)` keeps drawing until the hand scores at least `X`.
A player holding a Second Chance never stands.

The optimiser runs backwards induction over the grid of rounded game states
`(p1, p2)`, with `p1, p2` in `0, 10, …, 190`. It visits the states with the
highest score sum first. At each state it estimates player 1's win rate for
every threshold in `0, 5, …, 100`. The opponent plays the threshold stored
for the mirrored state. The optimiser keeps the best threshold and its win
rate, and the results are saved as JSON objects keyed `"p1,p2"`.

Modules, each following one part of the program:

- `Cards` (cards.dfy) — the card set and the deck `create_deck` builds, with its composition proved: one 0, `i` copies of every `i` in 1..12, five modifiers, one x2 and three Second Chance cards, 88 cards in all.
- `Scoring` (scoring.dfy) — `calculate_score`.
- `Hand` (hand.dfy) — the drawing loop of `run_simulation`, on a deck given as input. `Draw` is the card handling of one iteration, `Play` the loop as a recursive function, and `RunSimulation` the loop as a `while` method proved equal to `Simulate`.
- `Grid` (grid.dfy) — the constants `X_VALUES`, `SCORE_STEPS`, `WIN_THRESHOLD` and `SIMS_PER_STRATEGY`, and `round_to_10`. It also holds the visiting order of the 400 states: built level by level, and proved to be a permutation of the generated product that is strictly ordered by descending sum. Within one sum the order is ascending `p1`, which is what Python's stable sort leaves.
- `Evaluator` (evaluator.dfy) — `simulate_hand` and `evaluate_strategy`: how one sample is resolved, and the mean over the samples.
- `Driver` (driver.dfy) — `compute_optimal_strategies`: the best-response scan over `X_VALUES`, the mirrored opponent lookup, and the outer loop over the sorted states.
- `StateKeys` (keys.dfy) — the `"p1,p2"` key strings written by `save_results` and read back by `load_results`.

Randomness is a parameter:

- A deck is a `seq<Card>`. A shuffled deck is any sequence with the multiset of the full deck. The draw takes the last element, as `list.pop()` does.
- The optimiser takes a `Sampler`: for a state, player 1's threshold and the opponent's threshold, it gives the `SIMS_PER_STRATEGY` pairs of hand scores used in that estimate.
- `Driver.DeckSampler` builds a sampler from pairs of shuffled decks by playing both hands with `Evaluator.DealHands`. `Driver.RateFromDecks` states that the resulting rate is `evaluate_strategy` on those decks.

Python's `//` with the positive divisor 10 agrees with Dafny's `/`, so
`round_to_10` is modelled on every integer. Win probabilities are `real`.

## Model

| member | source | states |
|---|---|---|
| Cards.FullDeckComposition | sim.py:27-54 | the unshuffled deck has 88 cards: one 0, i copies of each i in 1..12, one each of +2..+10, one x2 and three SC, as a card-by-card count against an independent table |
| Cards.ShuffleComposition | sim.py:53 | every shuffle of the deck has 88 cards and the same count of every card |
| Scoring.Score | sim.py:57-99 | a bust hand scores 0; otherwise the score is at least the number sum plus the modifiers, and a seven-card hand earns at least the 15-point bonus |
| Scoring.ScoreAddCard | sim.py:70-97 | taking one more card into a hand of fewer than seven changes the score by: the number's value (doubled once an x2 is held), the modifier's value, the number sum so far for the first x2, nothing for an SC or a second x2, plus 15 for the seventh card |
| Scoring.ScoreIgnoresOrder | sim.py:70-99 | the score depends only on the multiset of cards in the hand, not their order |
| Scoring.ScoreGrowsWithCard | sim.py:84-97 | adding a card to a hand below seven cards never lowers its score |
| Scoring.SecondChanceScoresNothing | sim.py:77 | in a hand of fewer than seven cards, removing a Second Chance card leaves the score unchanged |
| Scoring.ScoreExamples | sim.py:84-92 | concrete scores: 3 + 5 + (+4) is 12, and 3 + 5 doubled by x2 is 16 |
| Hand.FirstIndex | sim.py:155 | the index list.remove uses: the first occurrence of the card |
| Hand.RemoveFirst | sim.py:155 | hand.remove deletes the first occurrence of the card and keeps the other cards in their order, so exactly one copy goes |
| Hand.SpendSecondChance | sim.py:154-155 | the Second Chance save removes the first SC, leaving a tidy hand one card shorter with no SC |
| Hand.Draw | sim.py:139-167 | a drawn number already in the hand busts exactly when no SC is held, and the bust record is the hand with the duplicate appended as its last card; a first SC is appended and sets has_sc; an SC while holding one is discarded; a duplicate with SC held removes the first SC, keeps the other cards in order and discards the card; anything else is appended |
| Hand.Play | sim.py:120-167 | a hand below seven cards that has reached X without an SC stands at once, unchanged; the bust flag is set exactly when the loop stopped on a bust, and a busted hand ends in the duplicate; a hand that stands scores at least X and holds no SC; the loop stops for a full hand exactly when it holds seven cards without busting; it stops for an empty deck only when it still wanted to draw (fewer than seven cards, and a score below X or an SC held); the cards come from the hand and the deck. Hand.PlayKeepsDrawing rules the empty-deck exit out |
| Hand.Simulate | sim.py:107-177 | the result of run_simulation: at most seven cards, at most one SC, total_value is calculate_score of the cards, a bust scores 0, is_flip_seven_bonus holds exactly for a seven-card hand that did not bust |
| Hand.RunSimulation | sim.py:107-177 | the while loop of run_simulation computes exactly Simulate |
| Hand.BustDrawnBelowThreshold | sim.py:132-160 | a turn that busts drew the duplicate from a hand that scored below X: a bust needs no SC held, and a card is drawn only below X or with an SC |
| Hand.SeventhDrawnBelowThreshold | sim.py:127-167 | a turn that starts below seven cards and fills up drew its seventh card from a hand that scored below X or held an SC |
| Hand.SimulateDrawsBelowThreshold | sim.py:107-177 | in run_simulation's result, the cards before a busting card score below X, and the first six cards of a Flip Seven score below X or include an SC: the player never draws past X without an SC |
| Hand.ShuffledTurnStandsAtThreshold | sim.py:107-177 | on a shuffled deck a result that neither busts nor is a Flip Seven has total_value at least X and holds no SC |
| Hand.PlayKeepsDrawing | sim.py:136-137 | with enough cards left, the loop never stops for an empty deck |
| Hand.ShuffledDeckNeverRunsOut | sim.py:136-137 | on a shuffled 88-card deck the empty-deck exit is unreachable |
| Hand.NonPositiveThresholdStandsAtOnce | sim.py:127-133 | with X <= 0 the player stands before drawing and scores 0 |
| Grid.StepsAreScoreSteps | multisim.py:17 | the members of SCORE_STEPS are exactly the multiples of 10 from 0 to 190 |
| Grid.ThresholdsAreXValues | multisim.py:16 | the members of X_VALUES are exactly the multiples of 5 from 0 to 100 |
| Grid.XValuesShape | multisim.py:16 | X_VALUES starts at 0, is strictly ascending, and contains the default 25 |
| Grid.RoundTo10 | multisim.py:22-24 | the result is a multiple of 10 no larger than 190; for a non-negative score it is a grid step no larger than the score, and it is the cap or lies within 10 below the score |
| Grid.RoundTo10OnScoreSteps | multisim.py:22-24 | a non-negative score rounds onto a member of SCORE_STEPS |
| Grid.RoundTo10Idempotent | multisim.py:22-24 | rounding a rounded score changes nothing |
| Grid.RoundTo10Monotone | multisim.py:22-24 | rounding preserves the order of scores |
| Grid.RoundTo10KeepsStep | multisim.py:22-24 | a score at or above a grid step rounds to that step or higher |
| Grid.ProductOrderShape | multisim.py:86 | the generated list has 400 entries, entry n being (10 * (n / 20), 10 * (n % 20)): p1 on the outer loop and p2 on the inner; every grid state occurs exactly once |
| Grid.ProductOrderStable | multisim.py:86 | among states of equal sum the generated list has p1 strictly ascending |
| Grid.VisitOrderIsStableSort | multisim.py:86-87 | any visiting order keeps two states of equal sum in their order in the generated list, as a stable sort by descending sum does |
| Grid.SortedStatesStable | multisim.py:86-87 | the sorted states keep the generated list's order within each sum |
| Grid.SortedStatesOrdered | multisim.py:87 | the visiting order strictly descends by sum and, within a sum, ascends by p1 |
| Grid.SortedStatesCoverGrid | multisim.py:86-87 | a state is visited exactly when both coordinates are grid steps |
| Grid.SortedStatesPermuteProduct | multisim.py:86-87 | the visiting order is a permutation of the generated product: 400 distinct states |
| Grid.SortedStatesVisitOrder | multisim.py:86-87 | the sorted states form a visiting order: exactly the grid states, strictly ordered by descending sum and then ascending p1 |
| Grid.VisitedBefore | multisim.py:87-92 | in a visiting order, a grid state comes before the k-th exactly when it precedes it by sum and p1 |
| Grid.NoLowerVisitedBefore | multisim.py:87-92 | in a visiting order, a grid state no lower than the k-th in both coordinates is that state or comes before it |
| Grid.MirrorVisitedBefore | multisim.py:87-100 | in a visiting order, the mirror (p2, p1) comes before (p1, p2) exactly when p2 < p1 |
| Grid.NotVisitedBefore | multisim.py:87-92 | in a visiting order, the k-th state does not occur before position k |
| Evaluator.HandScore | multisim.py:27-30 | simulate_hand is non-negative, and 0 for a bust |
| Evaluator.StandingHandScoresZero | multisim.py:27-30 | a hand played with X <= 0 scores 0 |
| Evaluator.Outcome | multisim.py:51-69 | one sample adds 1 when player 1 alone or with the higher total reaches 200, 0 when player 2 does, 0.5 on a tie at or above 200, and the stored probability of the rounded state (0.5 if absent) otherwise; always in [0, 1] once stored probabilities are |
| Evaluator.OutcomeZeroSum | multisim.py:51-64 | a decided sample is zero-sum: the two players' outcomes with roles swapped add up to 1 |
| Evaluator.DealHands | multisim.py:44-45 | every sample plays player 1's threshold on the first deck and player 2's on the second, and yields non-negative scores |
| Evaluator.Outcomes | multisim.py:42-69 | the outcome of every sample, in order, each in [0, 1] |
| Evaluator.Mean | multisim.py:71 | wins / n_sims lies in [0, 1] when every outcome does |
| Evaluator.MeanOfConstant | multisim.py:40-71 | n samples that all add c give the rate c |
| Evaluator.Evaluate | multisim.py:40-71 | the estimated win rate is in [0, 1] |
| Evaluator.EvaluateStrategy | multisim.py:33-71 | evaluate_strategy on given decks is in [0, 1] |
| Evaluator.StandingKeepsState | multisim.py:47-71 | when both thresholds are at most 0 from an undecided state, both players stand with 0 points, so the rate equals the lookup of the rounded state: its stored win probability, or 0.5 when none is stored |
| Evaluator.TopStateStandingIsCoinFlip | multisim.py:67-69 | at (190, 190) with nothing stored, two players who stand at once are rated 0.5 |
| Evaluator.ContinuationKeyAdvances | multisim.py:47-68 | from a grid state an undecided sample continues at a grid state no lower in either coordinate: the state itself or one with a larger sum |
| Driver.OpponentX | multisim.py:100 | the opponent's threshold is a member of X_VALUES when every stored one is |
| Driver.Rate | multisim.py:102-105 | the estimate for threshold x at a state lies in [0, 1] |
| Driver.RateFromDecks | multisim.py:102-105 | with the deck sampler, the estimate is evaluate_strategy with the mirrored opponent's threshold on the decks drawn |
| Driver.Scan | multisim.py:107-109 | the scan's result is at least the initial best and every candidate's rate, and is either the initial best or a candidate strictly better than it |
| Driver.ScanPicksFirst | multisim.py:107-109 | with the strict >, every candidate before the chosen one is strictly worse: the first maximiser wins |
| Driver.BestResponse | multisim.py:93-109 | best_x is in X_VALUES, best_win_rate is at least every candidate's rate, every smaller X is strictly worse, and best_win_rate is the rate of best_x |
| Driver.Step | multisim.py:111-112 | storing the best response adds exactly the current state and changes no other entry |
| Driver.Solve | multisim.py:92-112 | after visiting a list of states, both tables hold exactly those states, every strategy is in X_VALUES and every probability in [0, 1] |
| Driver.SolveKeepsEntries | multisim.py:92-112 | an entry once stored is never revised by later visits |
| Driver.SolveEntry | multisim.py:92-112 | the final entry of the k-th visited state is its best response against the tables as they were when it was visited |
| Driver.SolveSize | multisim.py:92-112 | visiting distinct states stores one entry per state |
| Driver.ComputeOptimalStrategies | multisim.py:74-114 | both returned dictionaries hold exactly the 400 grid states, every strategy is in X_VALUES and every win probability in [0, 1] |
| Driver.CurrentStateUnsolved | multisim.py:69 | a lookup of the state being visited reads the 0.5 default |
| Driver.ContinuationVisitedBefore | multisim.py:67-69 | in a visiting order, every state an undecided sample continues from comes earlier or is the current state |
| Driver.LookupsResolved | multisim.py:67-69 | solving in a visiting order, every lookup of the sampling loop finds an entry stored by an earlier visit, or is the current state itself |
| Driver.KeysOfTablesBefore | multisim.py:92-112 | the tables before the k-th visit hold exactly the states visited earlier |
| Driver.MirrorSolvedIff | multisim.py:100 | the stored mirrored strategy is used exactly when p2 < p1; for p1 <= p2 the default 25 applies |
| Driver.OptimalEntry | multisim.py:74-114 | the final strategy and win probability of every grid state are its best response when visited |
| StateKeys.NatToString | multisim.py:123-124 | str of a non-negative int is non-empty decimal digits without a leading zero |
| StateKeys.ParseInt | multisim.py:151 | int() succeeds exactly on an optional sign followed by at least one digit |
| StateKeys.ParseIntRoundTrip | multisim.py:151 | int(str(i)) == i for every int |
| StateKeys.IntToStringCanonical | multisim.py:123-124 | str writes canonical strings, and a canonical string that int reads as i is str(i) |
| StateKeys.Split | multisim.py:151 | split(",") gives one more piece than there are commas, and no piece holds a comma |
| StateKeys.JoinSplit | multisim.py:151 | joining the pieces of a split gives back the string |
| StateKeys.SplitJoin | multisim.py:151 | splitting comma-free pieces joined by commas gives back the pieces |
| StateKeys.DecodeKey | multisim.py:151 | a key decodes only if it holds exactly one comma |
| StateKeys.DecodeEncodeKey | multisim.py:150-152 | the key f"{p1},{p2}" decodes back to (p1, p2) for every pair of ints |
| StateKeys.EncodeKeyInjective | multisim.py:123-124 | different states get different keys |
| StateKeys.EncodedKeysAreCanonical | multisim.py:123-124 | k is the key of s exactly when k is canonical and decodes to s |
| StateKeys.DecodeIsLenient | multisim.py:151 | load accepts keys save never writes, e.g. "+7,05" decodes to (7, 5) |
| StateKeys.DecodeRejectsMalformed | multisim.py:151 | keys with no comma, two commas or a non-numeric piece are rejected |
| StateKeys.SaveEntries | multisim.py:123-124 | one entry per state in iteration order; each key is in the canonical form str() writes and decodes back to its own state, and carries that state's stored value |
| StateKeys.LoadEntries | multisim.py:149-157 | loading succeeds exactly when every key decodes |
| StateKeys.LoadSaveEntries | multisim.py:149-157 | loading saved entries gives the dictionary restricted to the states saved |
| StateKeys.LoadSaveTable | multisim.py:149-157 | a dictionary saved with all its keys is loaded back unchanged |

## Left out

- Randomness: `random.shuffle` is not modelled. The deck is an input, and a shuffled deck is any arrangement of the full deck. The optimiser's samples come from a `Sampler` parameter, so the Monte Carlo estimates and their statistical accuracy are not modelled.
- The Sampler abstraction: the optimiser works on hand-score pairs. `Driver.DeckSampler` connects these to decks, but nothing forces the Sampler to draw independent decks for every call, as the source does.
- Floating point: win rates and probabilities are exact reals, so the rounding of `wins / n_sims` is not modelled.
- I/O: JSONL and JSON files, `argparse`, `tqdm`, `print`, `get_sim_path`, `os.makedirs`, the `parameters` block of the saved results, and `main`.
- The JSON encoding itself: only the key strings and the key-to-state maps are modelled. The values are copied unchanged.
- StateKeys.ParseInt: models `int()` on ASCII signs and digits only. It does not accept the surrounding whitespace, the `_` digit separators or the non-ASCII digits Python's `int()` also accepts.
- Hand.Play: additionally reports why the turn stopped (full hand, stood, empty deck or bust) in its `Turn` result. The source does not return this; `Hand.Simulate` returns only the source's fields.
- Evaluator.Evaluate: requires at least one sample, so the `ZeroDivisionError` that `wins / n_sims` raises for `n_sims == 0` is not modelled; the optimiser always passes `SIMS_PER_STRATEGY` (10000) samples. Evaluator.EvaluateStrategy has the same precondition for the same reason.
- The remaining analysis scripts (analyze_multisim.py, analyze_results.py, generate_blog.py, learnings.py and strategy_learnings.py) are not part of this model.
- The unused `optimal_strategies` parameter of `evaluate_strategy` is dropped.
