/** Backwards induction over the score grid (multisim.py,
    compute_optimal_strategies): the states are visited highest sum first, and
    at each one player 1's best threshold is chosen against the opponent's
    stored threshold for the mirrored state and the win probabilities stored so
    far.

    The source estimates every win rate from freshly shuffled decks. Here the
    randomness is a parameter: a Sampler names the hand scores of the samples
    used to evaluate threshold x against the opponent's threshold y at state
    s, and DeckSampler builds one from shuffled decks. */
module Driver {
  import opened Cards
  import opened Grid
  import opened Evaluator

  /** The hand scores of one evaluation: SIMS_PER_STRATEGY samples, every
      score non-negative as simulate_hand's are. */
  type HandBatch = b: seq<HandPair> | |b| == SimsPerStrategy && NonNegative(b)
    witness Copies((0, 0), SimsPerStrategy)

  /** The hand scores drawn when player 1's threshold x is evaluated against
      the opponent's threshold y at state s. */
  type Sampler = (State, int, int) -> HandBatch

  /** The decks of one evaluation: SIMS_PER_STRATEGY pairs of shuffled decks. */
  type DeckBatch = b: seq<DeckPair> | |b| == SimsPerStrategy && forall i :: 0 <= i < |b| ==> IsShuffle(b[i].0) && IsShuffle(b[i].1)
    witness Copies((FullDeck(), FullDeck()), SimsPerStrategy)

  /** The hand scores of threshold x against threshold y on one batch of decks. */
  function DealBatch(x: int, y: int, decks: DeckBatch): HandBatch
  {
    DealHands(x, y, decks)
  }

  /** The sampler that plays every hand of the source from the given decks. */
  function DeckSampler(decks: (State, int, int) -> DeckBatch): Sampler
  {
    (s: State, x: int, y: int) => DealBatch(x, y, decks(s, x, y))
  }

  /** The two dictionaries the induction fills in. */
  datatype Tables = Tables(strategies: map<State, int>, winProbs: map<State, real>)

  /** Every stored strategy is a candidate threshold. */
  predicate Thresholds(strategies: map<State, int>)
  {
    forall s :: s in strategies ==> IsThreshold(strategies[s])
  }

  /** optimal_strategies.get((p2, p1), 25): the opponent plays the threshold
      stored for the mirrored state, or the default while that is unsolved. */
  function OpponentX(t: Tables, s: State): (x: int)
    ensures Thresholds(t.strategies) ==> IsThreshold(x)
  {
    if (s.1, s.0) in t.strategies then t.strategies[(s.1, s.0)] else DefaultOpponentX
  }

  /** The estimated win rate of threshold x at state s against the tables. */
  function Rate(s: State, t: Tables, draws: Sampler, x: int): (rate: real)
    ensures ValidProbs(t.winProbs) ==> 0.0 <= rate <= 1.0
  {
    Evaluate(s.0, s.1, t.winProbs, draws(s, x, OpponentX(t, s)))
  }

  /** With the deck sampler, a rate is evaluate_strategy on the decks drawn. */
  lemma RateFromDecks(s: State, t: Tables, decks: (State, int, int) -> DeckBatch, x: int)
    ensures Rate(s, t, DeckSampler(decks), x)
         == EvaluateStrategy(s.0, s.1, x, OpponentX(t, s), t.winProbs, decks(s, x, OpponentX(t, s)))
  {
  }

  /** The inner loop over candidate (threshold, rate) pairs: a candidate
      replaces the best so far only when its rate is strictly higher. */
  function Scan(cands: seq<(int, real)>, best: (int, real)): (r: (int, real))
    ensures r.1 >= best.1
    ensures forall i :: 0 <= i < |cands| ==> cands[i].1 <= r.1
    ensures r == best || (r in cands && r.1 > best.1)
    decreases |cands|
  {
    if |cands| == 0 then best
    else Scan(cands[1..], if cands[0].1 > best.1 then cands[0] else best)
  }

  /** With candidates in strictly ascending order, all above the initial
      threshold, the scan keeps the first of several equally good thresholds:
      every smaller candidate is strictly worse. */
  lemma {:induction false} ScanPicksFirst(cands: seq<(int, real)>, best: (int, real))
    requires forall i :: 0 <= i < |cands| ==> best.0 <= cands[i].0
    requires forall i, j :: 0 <= i < j < |cands| ==> cands[i].0 < cands[j].0
    ensures forall i :: 0 <= i < |cands| && cands[i].0 < Scan(cands, best).0 ==> cands[i].1 < Scan(cands, best).1
    decreases |cands|
  {
    if |cands| > 0 {
      var next := if cands[0].1 > best.1 then cands[0] else best;
      var rest := cands[1..];
      assert forall i :: 0 <= i < |rest| ==> rest[i] == cands[i + 1];
      ScanPicksFirst(rest, next);
      var r := Scan(rest, next);
      assert r == Scan(cands, best);
      forall i | 0 <= i < |cands| && cands[i].0 < r.0
        ensures cands[i].1 < r.1
      {
        if i > 0 {
          assert rest[i - 1] == cands[i];
        }
      }
    }
  }

  /** Every X in X_VALUES paired with its estimated win rate, in order. */
  function Candidates(s: State, t: Tables, draws: Sampler): (cands: seq<(int, real)>)
    ensures |cands| == |XValues()|
    ensures forall i :: 0 <= i < |cands| ==> cands[i] == (XValues()[i], Rate(s, t, draws, XValues()[i]))
  {
    seq(|XValues()|, i requires 0 <= i < |XValues()| => (XValues()[i], Rate(s, t, draws, XValues()[i])))
  }

  /** The best response at s: best_x and best_win_rate after the loop over
      X_VALUES, starting from best_x = 0 and best_win_rate = -1. */
  function BestResponse(s: State, t: Tables, draws: Sampler): (r: (int, real))
    ensures IsThreshold(r.0)
    ensures forall i :: 0 <= i < |XValues()| ==> Rate(s, t, draws, XValues()[i]) <= r.1
    ensures forall i :: 0 <= i < |XValues()| && XValues()[i] < r.0 ==> Rate(s, t, draws, XValues()[i]) < r.1
    ensures ValidProbs(t.winProbs) ==> r.1 == Rate(s, t, draws, r.0) && 0.0 <= r.1 <= 1.0
  {
    var cands := Candidates(s, t, draws);
    XValuesShape();
    ScanPicksFirst(cands, (0, -1.0));
    var r := Scan(cands, (0, -1.0));
    if ValidProbs(t.winProbs) then
      assert r != (0, -1.0) by {
        assert cands[0].1 >= 0.0;
      }
      r
    else
      r
  }

  /** One iteration of the outer loop: store the best response at s. */
  function Step(t: Tables, s: State, draws: Sampler): (u: Tables)
    ensures forall k :: k in u.strategies <==> k in t.strategies || k == s
    ensures forall k :: k in u.winProbs <==> k in t.winProbs || k == s
    ensures forall k :: k in t.strategies && k != s ==> u.strategies[k] == t.strategies[k]
    ensures forall k :: k in t.winProbs && k != s ==> u.winProbs[k] == t.winProbs[k]
    ensures Thresholds(t.strategies) ==> Thresholds(u.strategies)
    ensures ValidProbs(t.winProbs) ==> ValidProbs(u.winProbs)
  {
    var r := BestResponse(s, t, draws);
    Tables(t.strategies[s := r.0], t.winProbs[s := r.1])
  }

  /** The tables after visiting the given states in order. */
  function Solve(states: seq<State>, draws: Sampler): (t: Tables)
    ensures forall s :: s in t.strategies <==> s in states
    ensures forall s :: s in t.winProbs <==> s in states
    ensures Thresholds(t.strategies)
    ensures ValidProbs(t.winProbs)
  {
    if |states| == 0 then Tables(map[], map[])
    else
      var init := states[..|states| - 1];
      assert forall s :: s in states <==> s in init || s == states[|states| - 1];
      Step(Solve(init, draws), states[|states| - 1], draws)
  }

  /** Once a state is stored its entries are never revised by later visits. */
  lemma {:induction false} SolveKeepsEntries(states: seq<State>, k: nat, draws: Sampler)
    requires k <= |states| && Distinct(states)
    ensures forall s :: s in Solve(states[..k], draws).strategies ==>
              Solve(states, draws).strategies[s] == Solve(states[..k], draws).strategies[s]
              && Solve(states, draws).winProbs[s] == Solve(states[..k], draws).winProbs[s]
    decreases |states|
  {
    if k < |states| {
      var init := states[..|states| - 1];
      assert init[..k] == states[..k];
      SolveKeepsEntries(init, k, draws);
      assert states[|states| - 1] !in init;
    } else {
      assert states[..k] == states;
    }
  }

  /** The entry stored for the k-th visited state is the best response against
      the tables as they stood when that state was visited. */
  lemma SolveEntry(states: seq<State>, k: nat, draws: Sampler)
    requires k < |states| && Distinct(states)
    ensures Solve(states, draws).strategies[states[k]] == BestResponse(states[k], Solve(states[..k], draws), draws).0
    ensures Solve(states, draws).winProbs[states[k]] == BestResponse(states[k], Solve(states[..k], draws), draws).1
  {
    var upto := states[..k + 1];
    assert upto[..k] == states[..k] && upto[k] == states[k];
    SolveLast(upto, draws);
    StepStores(Solve(states[..k], draws), states[k], draws);
    SolveKeepsEntries(states, k + 1, draws);
  }

  /** Visiting one more state is one more Step. */
  lemma SolveLast(states: seq<State>, draws: Sampler)
    requires |states| > 0
    ensures Solve(states, draws) == Step(Solve(states[..|states| - 1], draws), states[|states| - 1], draws)
  {
  }

  /** The visited state's entries are its best response. */
  lemma StepStores(t: Tables, s: State, draws: Sampler)
    ensures Step(t, s, draws).strategies[s] == BestResponse(s, t, draws).0
    ensures Step(t, s, draws).winProbs[s] == BestResponse(s, t, draws).1
  {
  }

  /** compute_optimal_strategies: both tables hold exactly the 400 grid
      states, every strategy is one of X_VALUES, and every win probability
      lies in [0, 1]. */
  function ComputeOptimalStrategies(draws: Sampler): (t: Tables)
    ensures forall s :: s in t.strategies <==> OnGrid(s)
    ensures forall s :: s in t.winProbs <==> OnGrid(s)
    ensures |t.strategies| == 400 && |t.winProbs| == 400
    ensures Thresholds(t.strategies)
    ensures ValidProbs(t.winProbs)
  {
    var q := SortedStates();
    SortedStatesCoverGrid();
    SortedStatesPermuteProduct();
    SolveSize(q, draws);
    Solve(q, draws)
  }

  /** Visiting distinct states stores one entry per state. */
  lemma {:induction false} SolveSize(states: seq<State>, draws: Sampler)
    requires Distinct(states)
    ensures |Solve(states, draws).strategies| == |states|
    ensures |Solve(states, draws).winProbs| == |states|
  {
    if |states| > 0 {
      var init := states[..|states| - 1];
      SolveSize(init, draws);
      assert states[|states| - 1] !in init;
    }
  }

  /** The tables in place when the k-th state of the sorted order is visited. */
  function TablesBefore(k: nat, draws: Sampler): Tables
    requires k <= |SortedStates()|
  {
    Solve(SortedStates()[..k], draws)
  }

  /** The state being visited is not yet stored, so a lookup of it reads the
      0.5 default. */
  lemma CurrentStateUnsolved(k: nat, draws: Sampler)
    requires k < |SortedStates()|
    ensures SortedStates()[k] !in TablesBefore(k, draws).winProbs
    ensures Lookup(TablesBefore(k, draws).winProbs, SortedStates()[k]) == 0.5
  {
    SortedStatesVisitOrder();
    NotVisitedBefore(SortedStates(), k);
  }

  /** An undecided sample at the k-th visited state of a visiting order
      continues from a state visited earlier, or from that state itself. */
  lemma ContinuationVisitedBefore(q: seq<State>, k: nat, h1: int, h2: int)
    requires VisitOrder(q) && k < |q|
    requires h1 >= 0 && h2 >= 0
    requires q[k].0 + h1 < WinThreshold && q[k].1 + h2 < WinThreshold
    ensures ContinuationKey(q[k].0 + h1, q[k].1 + h2) in q[..k]
         || ContinuationKey(q[k].0 + h1, q[k].1 + h2) == q[k]
  {
    ContinuationKeyAdvances(q[k], h1, h2);
    NoLowerVisitedBefore(q, k, ContinuationKey(q[k].0 + h1, q[k].1 + h2));
  }

  /** The lookups of the sampling loop read only final entries: when the
      states are visited in a visiting order (SortedStatesVisitOrder shows the
      source's is one), every state an undecided sample continues from was
      stored by an earlier visit (and is never revised), or is the state being
      visited itself. */
  lemma LookupsResolved(q: seq<State>, k: nat, draws: Sampler, h1: int, h2: int)
    requires VisitOrder(q) && k < |q|
    requires h1 >= 0 && h2 >= 0
    requires q[k].0 + h1 < WinThreshold && q[k].1 + h2 < WinThreshold
    ensures ContinuationKey(q[k].0 + h1, q[k].1 + h2) in Solve(q[..k], draws).winProbs
         || ContinuationKey(q[k].0 + h1, q[k].1 + h2) == q[k]
  {
    ContinuationVisitedBefore(q, k, h1, h2);
  }

  /** The tables before the k-th visit hold exactly the states visited earlier. */
  lemma KeysOfTablesBefore(k: nat, draws: Sampler, s: State)
    requires k <= |SortedStates()|
    ensures s in TablesBefore(k, draws).strategies <==> s in SortedStates()[..k]
    ensures s in TablesBefore(k, draws).winProbs <==> s in SortedStates()[..k]
  {
  }

  /** The opponent's stored threshold is used exactly when the mirrored state
      comes first in the order, that is when p2 < p1; for p1 <= p2 the default
      25 applies. */
  lemma MirrorSolvedIff(k: nat, draws: Sampler)
    requires k < |SortedStates()|
    ensures (SortedStates()[k].1, SortedStates()[k].0) in TablesBefore(k, draws).strategies
        <==> SortedStates()[k].1 < SortedStates()[k].0
    ensures SortedStates()[k].0 <= SortedStates()[k].1 ==>
              OpponentX(TablesBefore(k, draws), SortedStates()[k]) == DefaultOpponentX
  {
    SortedStatesVisitOrder();
    MirrorVisitedBefore(SortedStates(), k);
  }

  /** The final entry of every grid state is the best response computed when
      it was visited. */
  lemma OptimalEntry(k: nat, draws: Sampler)
    requires k < |SortedStates()|
    ensures ComputeOptimalStrategies(draws).strategies[SortedStates()[k]]
         == BestResponse(SortedStates()[k], TablesBefore(k, draws), draws).0
    ensures ComputeOptimalStrategies(draws).winProbs[SortedStates()[k]]
         == BestResponse(SortedStates()[k], TablesBefore(k, draws), draws).1
  {
    SortedStatesPermuteProduct();
    SolveEntry(SortedStates(), k, draws);
  }
}
