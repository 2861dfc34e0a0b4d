/** One strategy evaluation of the optimiser (multisim.py, simulate_hand and
    evaluate_strategy): every sampled pair of hands moves the game to a new
    pair of totals, which is either decided (someone reached the win
    threshold) or looked up in the table of win probabilities.

    The source draws each hand from a freshly shuffled deck. Here the mean is
    taken over the pairs of hand scores the samples produced, and DealHands
    produces those scores from given pairs of decks. */
module Evaluator {
  import opened Cards
  import opened Hand
  import opened Grid

  /** The decks player 1's and player 2's hands of one sample are dealt from. */
  type DeckPair = (seq<Card>, seq<Card>)

  /** simulate_hand: the total_value of one hand played with threshold x. */
  function HandScore(x: int, deck: seq<Card>): (r: int)
    ensures r >= 0
    ensures Simulate(x, deck).isBust ==> r == 0
  {
    Simulate(x, deck).totalValue
  }

  /** A player whose threshold is not positive stands before the first card
      and banks nothing. */
  lemma StandingHandScoresZero(x: int, deck: seq<Card>)
    requires x <= 0
    ensures HandScore(x, deck) == 0
  {
    NonPositiveThresholdStandsAtOnce(x, deck);
  }

  /** win_probs.get(s, 0.5): a state not yet solved counts as a coin flip. */
  function Lookup(winProbs: map<State, real>, s: State): real
  {
    if s in winProbs then winProbs[s] else 0.5
  }

  /** Every stored win probability lies in [0, 1]. */
  predicate ValidProbs(winProbs: map<State, real>)
  {
    forall s :: s in winProbs ==> 0.0 <= winProbs[s] <= 1.0
  }

  /** The state an undecided sample continues from. */
  function ContinuationKey(newP1: int, newP2: int): State
  {
    (RoundTo10(newP1), RoundTo10(newP2))
  }

  /** What one sample adds to wins, given the two players' new totals. Once
      either player reaches the threshold the higher total wins outright and
      equal totals split the point; otherwise the game goes on from the
      rounded state. */
  function Outcome(newP1: int, newP2: int, winProbs: map<State, real>): (c: real)
    ensures ValidProbs(winProbs) ==> 0.0 <= c <= 1.0
    ensures newP1 >= WinThreshold && newP1 > newP2 ==> c == 1.0
    ensures newP2 >= WinThreshold && newP2 > newP1 ==> c == 0.0
    ensures newP1 >= WinThreshold && newP1 == newP2 ==> c == 0.5
    ensures newP1 < WinThreshold && newP2 < WinThreshold ==> c == Lookup(winProbs, ContinuationKey(newP1, newP2))
  {
    var p1Won := newP1 >= WinThreshold;
    var p2Won := newP2 >= WinThreshold;
    if p1Won && p2Won then
      if newP1 > newP2 then 1.0 else if newP1 == newP2 then 0.5 else 0.0
    else if p1Won then 1.0
    else if p2Won then 0.0
    else Lookup(winProbs, ContinuationKey(newP1, newP2))
  }

  /** A decided sample is zero-sum: swapping the players turns a win into a
      loss and leaves a tie a tie. */
  lemma OutcomeZeroSum(a: int, b: int, probsA: map<State, real>, probsB: map<State, real>)
    requires a >= WinThreshold || b >= WinThreshold
    ensures Outcome(a, b, probsA) + Outcome(b, a, probsB) == 1.0
  {
  }

  /** The scores simulate_hand returned for player 1 and player 2 in one sample. */
  type HandPair = (int, int)

  /** Both scores of every sample are non-negative. */
  predicate NonNegative(hands: seq<HandPair>)
  {
    forall i :: 0 <= i < |hands| ==> hands[i].0 >= 0 && hands[i].1 >= 0
  }

  /** The two simulate_hand calls of every sample: player 1 plays threshold p1X
      from the first deck of the pair and player 2 plays p2X from the second. */
  function DealHands(p1X: int, p2X: int, samples: seq<DeckPair>): (hands: seq<HandPair>)
    ensures |hands| == |samples|
    ensures forall i :: 0 <= i < |samples| ==> hands[i] == (HandScore(p1X, samples[i].0), HandScore(p2X, samples[i].1))
    ensures NonNegative(hands)
  {
    seq(|samples|, i requires 0 <= i < |samples| => (HandScore(p1X, samples[i].0), HandScore(p2X, samples[i].1)))
  }

  /** The outcome of every sample, in sampling order. */
  function Outcomes(p1Score: int, p2Score: int, winProbs: map<State, real>, hands: seq<HandPair>): (os: seq<real>)
    ensures |os| == |hands|
    ensures forall i :: 0 <= i < |hands| ==> os[i] == Outcome(p1Score + hands[i].0, p2Score + hands[i].1, winProbs)
    ensures ValidProbs(winProbs) ==> Fractions(os)
  {
    seq(|hands|, i requires 0 <= i < |hands| => Outcome(p1Score + hands[i].0, p2Score + hands[i].1, winProbs))
  }

  /** Every entry lies in [0, 1]. */
  predicate Fractions(xs: seq<real>)
  {
    forall i :: 0 <= i < |xs| ==> 0.0 <= xs[i] <= 1.0
  }

  /** The wins accumulator: the outcomes added up in order. */
  function Total(xs: seq<real>): (t: real)
    ensures Fractions(xs) ==> 0.0 <= t <= |xs| as real
  {
    if |xs| == 0 then 0.0 else Total(xs[..|xs| - 1]) + xs[|xs| - 1]
  }

  /** The mean of a non-empty sequence of outcomes. */
  function Mean(xs: seq<real>): (m: real)
    requires |xs| > 0
    ensures Fractions(xs) ==> 0.0 <= m <= 1.0
  {
    MeanBounds(xs);
    Total(xs) / (|xs| as real)
  }

  lemma FractionBounds(w: real, n: real)
    requires 0.0 <= w <= n && n > 0.0
    ensures 0.0 <= w / n <= 1.0
  {
    assert w / n * n == w;
  }

  lemma MeanBounds(xs: seq<real>)
    requires |xs| > 0
    ensures Fractions(xs) ==> 0.0 <= Total(xs) / (|xs| as real) <= 1.0
  {
    if Fractions(xs) {
      FractionBounds(Total(xs), |xs| as real);
    }
  }

  lemma Cancel(t: real, n: real, c: real)
    requires n > 0.0 && t == n * c
    ensures t / n == c
  {
  }

  /** When every outcome is c, the total is n * c. */
  lemma {:induction false} TotalOfConstant(xs: seq<real>, c: real)
    requires forall i :: 0 <= i < |xs| ==> xs[i] == c
    ensures Total(xs) == |xs| as real * c
  {
    if |xs| > 0 {
      var init := xs[..|xs| - 1];
      TotalOfConstant(init, c);
      assert (|init| + 1) as real * c == |init| as real * c + c;
    }
  }

  /** The mean of n copies of c is c. */
  lemma MeanOfConstant(xs: seq<real>, c: real)
    requires |xs| > 0
    requires forall i :: 0 <= i < |xs| ==> xs[i] == c
    ensures Mean(xs) == c
  {
    TotalOfConstant(xs, c);
    Cancel(Total(xs), |xs| as real, c);
  }

  /** The sampling loop and the final division of evaluate_strategy, given
      the hand scores of every sample: player 1's estimated win rate is the
      mean outcome. The source divides by n_sims, so it needs a sample. */
  function Evaluate(p1Score: int, p2Score: int, winProbs: map<State, real>, hands: seq<HandPair>): (rate: real)
    requires |hands| > 0
    ensures ValidProbs(winProbs) ==> 0.0 <= rate <= 1.0
  {
    Mean(Outcomes(p1Score, p2Score, winProbs, hands))
  }

  /** evaluate_strategy with the decks of every sample given. */
  function EvaluateStrategy(p1Score: int, p2Score: int, p1X: int, p2X: int, winProbs: map<State, real>, samples: seq<DeckPair>): (rate: real)
    requires |samples| > 0
    ensures ValidProbs(winProbs) ==> 0.0 <= rate <= 1.0
  {
    Evaluate(p1Score, p2Score, winProbs, DealHands(p1X, p2X, samples))
  }

  /** A sample set whose every outcome is c is rated exactly c. */
  lemma EvaluateOfConstant(p1Score: int, p2Score: int, winProbs: map<State, real>, hands: seq<HandPair>, c: real)
    requires |hands| > 0
    requires forall i :: 0 <= i < |hands| ==> Outcome(p1Score + hands[i].0, p2Score + hands[i].1, winProbs) == c
    ensures Evaluate(p1Score, p2Score, winProbs, hands) == c
  {
    MeanOfConstant(Outcomes(p1Score, p2Score, winProbs, hands), c);
  }

  /** If both players stand at once from an undecided state, every sample
      continues from the state itself, so the estimate is exactly the stored
      value there. */
  lemma StandingKeepsState(p1Score: int, p2Score: int, p1X: int, p2X: int, winProbs: map<State, real>, samples: seq<DeckPair>)
    requires |samples| > 0
    requires p1X <= 0 && p2X <= 0
    requires p1Score < WinThreshold && p2Score < WinThreshold
    ensures EvaluateStrategy(p1Score, p2Score, p1X, p2X, winProbs, samples)
         == Lookup(winProbs, ContinuationKey(p1Score, p2Score))
  {
    var c := Lookup(winProbs, ContinuationKey(p1Score, p2Score));
    var hands := DealHands(p1X, p2X, samples);
    forall i | 0 <= i < |hands|
      ensures hands[i] == (0, 0)
    {
      StandingHandScoresZero(p1X, samples[i].0);
      StandingHandScoresZero(p2X, samples[i].1);
    }
    EvaluateOfConstant(p1Score, p2Score, winProbs, hands, c);
  }

  /** At (190, 190) with nothing stored, two players who stand at once are
      rated a coin flip. */
  lemma TopStateStandingIsCoinFlip(winProbs: map<State, real>, samples: seq<DeckPair>)
    requires |samples| > 0
    requires (TopStep, TopStep) !in winProbs
    ensures EvaluateStrategy(TopStep, TopStep, 0, 0, winProbs, samples) == 0.5
  {
    var key := ContinuationKey(TopStep, TopStep);
    assert key == (TopStep, TopStep);
    assert Lookup(winProbs, key) == 0.5;
    StandingKeepsState(TopStep, TopStep, 0, 0, winProbs, samples);
  }

  /** From a grid state, an undecided sample continues from a grid state that
      is no lower in either coordinate; it is either the state itself or has a
      strictly larger sum. */
  lemma ContinuationKeyAdvances(s: State, h1: int, h2: int)
    requires OnGrid(s) && h1 >= 0 && h2 >= 0
    requires s.0 + h1 < WinThreshold && s.1 + h2 < WinThreshold
    ensures OnGrid(ContinuationKey(s.0 + h1, s.1 + h2))
    ensures ContinuationKey(s.0 + h1, s.1 + h2).0 >= s.0
    ensures ContinuationKey(s.0 + h1, s.1 + h2).1 >= s.1
    ensures ContinuationKey(s.0 + h1, s.1 + h2) == s || Sum(ContinuationKey(s.0 + h1, s.1 + h2)) > Sum(s)
  {
    RoundTo10KeepsStep(s.0, s.0 + h1);
    RoundTo10KeepsStep(s.1, s.1 + h2);
  }
}
