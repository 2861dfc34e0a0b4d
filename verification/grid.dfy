/** The two-player score grid of the optimiser (multisim.py): its constants,
    round_to_10, and the order in which compute_optimal_strategies visits the
    states. */
module Grid {

  /** A game state (player 1's score, player 2's score). */
  type State = (int, int)

  /** WIN_THRESHOLD: a player who reaches this total wins. */
  const WinThreshold: int := 200

  /** SIMS_PER_STRATEGY: the number of sampled hand pairs per evaluation. */
  const SimsPerStrategy: nat := 10000

  /** The opponent's threshold for a state whose mirror is not yet solved. */
  const DefaultOpponentX: int := 25

  /** The largest grid coordinate. */
  const TopStep: int := 190

  /** SCORE_STEPS = range(0, 200, 10). */
  function ScoreSteps(): seq<int>
  {
    seq(20, i => 10 * i)
  }

  /** X_VALUES = range(0, 101, 5): the candidate thresholds, ascending. */
  function XValues(): seq<int>
  {
    seq(21, i => 5 * i)
  }

  /** A grid coordinate: a multiple of 10 in [0, 190]. */
  predicate IsStep(v: int)
  {
    0 <= v <= TopStep && v % 10 == 0
  }

  predicate OnGrid(s: State)
  {
    IsStep(s.0) && IsStep(s.1)
  }

  function Sum(s: State): int
  {
    s.0 + s.1
  }

  lemma StepsAreScoreSteps(v: int)
    ensures IsStep(v) <==> v in ScoreSteps()
  {
    if IsStep(v) {
      assert ScoreSteps()[v / 10] == v;
    }
  }

  /** A candidate threshold: a multiple of 5 in [0, 100]. */
  predicate IsThreshold(x: int)
  {
    0 <= x <= 100 && x % 5 == 0
  }

  lemma ThresholdsAreXValues(x: int)
    ensures IsThreshold(x) <==> x in XValues()
  {
    if IsThreshold(x) {
      assert XValues()[x / 5] == x;
    }
  }

  /** X_VALUES is strictly ascending, starts at 0 and holds the default 25. */
  lemma XValuesShape()
    ensures XValues()[0] == 0 && IsThreshold(DefaultOpponentX)
    ensures forall i :: 0 <= i < |XValues()| ==> IsThreshold(XValues()[i])
    ensures forall i, j :: 0 <= i < j < |XValues()| ==> XValues()[i] < XValues()[j]
  {
  }

  /** No element occurs twice. */
  predicate Distinct<T(==)>(q: seq<T>)
  {
    forall i, j :: 0 <= i < j < |q| ==> q[i] != q[j]
  }

  /** round_to_10: round down to a multiple of 10, capped at 190. Python's //
      floors and Dafny's / is Euclidean; for the positive divisor 10 they agree
      on every integer. */
  function RoundTo10(score: int): (r: int)
    ensures r % 10 == 0 && r <= TopStep
    ensures score >= 0 ==> 0 <= r <= score && IsStep(r)
    ensures r == TopStep || score < r + 10
  {
    var floored := (score / 10) * 10;
    var capped := if floored < TopStep then floored else TopStep;
    capped
  }

  /** round_to_10 of a non-negative score is one of SCORE_STEPS. */
  lemma RoundTo10OnScoreSteps(score: int)
    requires score >= 0
    ensures RoundTo10(score) in ScoreSteps()
  {
    StepsAreScoreSteps(RoundTo10(score));
  }

  lemma RoundTo10Idempotent(score: int)
    ensures RoundTo10(RoundTo10(score)) == RoundTo10(score)
  {
  }

  lemma RoundTo10Monotone(a: int, b: int)
    requires a <= b
    ensures RoundTo10(a) <= RoundTo10(b)
  {
    assert a / 10 <= b / 10;
  }

  /** A grid coordinate is a fixed point of rounding, and rounding never moves
      a score below a grid coordinate it has reached. */
  lemma RoundTo10KeepsStep(v: int, score: int)
    requires IsStep(v) && v <= score
    ensures v <= RoundTo10(score)
  {
    assert v / 10 <= score / 10;
    assert v == (v / 10) * 10;
  }

  // ---------------------------------------------------------------------------
  // Visiting order
  // ---------------------------------------------------------------------------

  /** The states in the order the source's list comprehension generates them:
      p1 over SCORE_STEPS, and for each p1, p2 over SCORE_STEPS. */
  function ProductOrder(): seq<State>
  {
    seq(400, n requires 0 <= n < 400 => (ScoreSteps()[n / 20], ScoreSteps()[n % 20]))
  }

  /** Sum level k holds the states with p1 + p2 == 10 * k; p1 / 10 runs from
      Lo(k) to Hi(k). */
  function Lo(k: nat): nat
  {
    if k <= 19 then 0 else k - 19
  }

  function Hi(k: nat): nat
  {
    if k <= 19 then k else 19
  }

  /** The states of sum 10 * k, in increasing order of p1 (so in the order the
      product generates them). */
  function Level(k: nat): seq<State>
    requires k <= 38
  {
    seq(Hi(k) - Lo(k) + 1, m => (10 * (Lo(k) + m), 10 * (k - Lo(k) - m)))
  }

  /** The levels k, k - 1, ..., 0, highest sum first. */
  function Descending(k: nat): seq<State>
    requires k <= 38
  {
    if k == 0 then Level(0) else Level(k) + Descending(k - 1)
  }

  /** all_states after all_states.sort(key=sum, reverse=True): Python's sort is
      stable, so states of equal sum keep their generation order (p1
      ascending). */
  function SortedStates(): seq<State>
  {
    Descending(TopLevel())
  }

  /** The sum level of the top state (190, 190). */
  function TopLevel(): nat
  {
    2 * (|ScoreSteps()| - 1)
  }

  /** a comes strictly before b in the sorted order. */
  predicate Precedes(a: State, b: State)
  {
    Sum(a) > Sum(b) || (Sum(a) == Sum(b) && a.0 < b.0)
  }

  lemma LevelShape(k: nat)
    requires k <= 38
    ensures forall i :: 0 <= i < |Level(k)| ==> OnGrid(Level(k)[i]) && Sum(Level(k)[i]) == 10 * k
    ensures forall i, j :: 0 <= i < j < |Level(k)| ==> Level(k)[i].0 < Level(k)[j].0
  {
  }

  lemma {:induction false} DescendingShape(k: nat)
    requires k <= 38
    ensures forall i :: 0 <= i < |Descending(k)| ==> OnGrid(Descending(k)[i]) && Sum(Descending(k)[i]) <= 10 * k
  {
    LevelShape(k);
    if k > 0 {
      DescendingShape(k - 1);
    }
  }

  lemma {:induction false} DescendingOrder(k: nat)
    requires k <= 38
    ensures forall i, j :: 0 <= i < j < |Descending(k)| ==> Precedes(Descending(k)[i], Descending(k)[j])
  {
    LevelShape(k);
    if k > 0 {
      DescendingOrder(k - 1);
      DescendingShape(k - 1);
      var l, d := Level(k), Descending(k - 1);
      assert Descending(k) == l + d;
      forall i, j | 0 <= i < j < |l + d|
        ensures Precedes((l + d)[i], (l + d)[j])
      {
        if j < |l| {
        } else if i < |l| {
          assert (l + d)[j] == d[j - |l|];
        } else {
          assert (l + d)[i] == d[i - |l|] && (l + d)[j] == d[j - |l|];
        }
      }
    }
  }

  lemma {:induction false} DescendingCovers(k: nat, s: State)
    requires k <= 38
    requires OnGrid(s) && Sum(s) <= 10 * k
    ensures s in Descending(k)
  {
    if Sum(s) == 10 * k {
      var m := s.0 / 10 - Lo(k);
      assert Level(k)[m] == s;
      assert s in Level(k);
    } else {
      DescendingCovers(k - 1, s);
    }
  }

  /** The sorted order is strict: sums never increase along it, and equal sums
      appear in increasing p1 (the generation order, kept by the stable sort). */
  lemma SortedStatesOrdered()
    ensures forall i, j :: 0 <= i < j < |SortedStates()| ==> Precedes(SortedStates()[i], SortedStates()[j])
  {
    DescendingOrder(TopLevel());
  }

  /** Every state the sort outputs is a grid state, and every grid state is
      there. */
  lemma SortedStatesCoverGrid()
    ensures forall i :: 0 <= i < |SortedStates()| ==> OnGrid(SortedStates()[i])
    ensures forall s :: OnGrid(s) ==> s in SortedStates()
  {
    DescendingShape(TopLevel());
    forall s | OnGrid(s)
      ensures s in SortedStates()
    {
      DescendingCovers(TopLevel(), s);
    }
  }

  /** The generated list: 400 states, p1 running over the outer loop and p2
      over the inner one, every grid state exactly once. */
  lemma ProductOrderShape()
    ensures |ProductOrder()| == 400
    ensures forall n :: 0 <= n < |ProductOrder()| ==> ProductOrder()[n].0 == 10 * (n / 20) && ProductOrder()[n].1 == 10 * (n % 20)
    ensures forall n :: 0 <= n < |ProductOrder()| ==> OnGrid(ProductOrder()[n])
    ensures forall s :: OnGrid(s) ==> s in ProductOrder()
    ensures Distinct(ProductOrder())
  {
    var p := ProductOrder();
    forall n | 0 <= n < |p|
      ensures p[n] == (10 * (n / 20), 10 * (n % 20))
    {
      assert 0 <= n / 20 < 20 && 0 <= n % 20 < 20;
      assert ScoreSteps()[n / 20] == 10 * (n / 20);
      assert ScoreSteps()[n % 20] == 10 * (n % 20);
    }
    forall s | OnGrid(s)
      ensures s in p
    {
      var a, b := s.0 / 10, s.1 / 10;
      var n := 20 * a + b;
      assert n / 20 == a && n % 20 == b;
      assert p[n] == s;
    }
    forall n, m | 0 <= n < m < |p|
      ensures p[n] != p[m]
    {
      assert n == 20 * (n / 20) + n % 20;
      assert m == 20 * (m / 20) + m % 20;
    }
  }


  /** Among states of equal sum the generated list has p1 ascending: this is
      the relative order Python's stable sort keeps. */
  lemma ProductOrderStable()
    ensures forall i, j :: 0 <= i < j < |ProductOrder()| && Sum(ProductOrder()[i]) == Sum(ProductOrder()[j]) ==> ProductOrder()[i].0 < ProductOrder()[j].0
  {
    ProductOrderShape();
    var p := ProductOrder();
    forall i, j | 0 <= i < j < |p| && Sum(p[i]) == Sum(p[j])
      ensures p[i].0 < p[j].0
    {
      assert i == 20 * (i / 20) + i % 20;
      assert j == 20 * (j / 20) + j % 20;
    }
  }

  /** A visiting order is the stable sort of the generated list by descending
      sum: two states of equal sum appear in it in their generation order. */
  lemma VisitOrderIsStableSort(q: seq<State>)
    requires VisitOrder(q)
    ensures forall m, n, i, j :: 0 <= m < n < |ProductOrder()| && 0 <= i < |q| && 0 <= j < |q| && q[i] == ProductOrder()[m] && q[j] == ProductOrder()[n] && Sum(q[i]) == Sum(q[j]) ==> i < j
  {
    ProductOrderStable();
  }

  /** The sorted states keep the generation order within each sum. */
  lemma SortedStatesStable()
    ensures forall m, n, i, j :: 0 <= m < n < |ProductOrder()| && 0 <= i < |SortedStates()| && 0 <= j < |SortedStates()| && SortedStates()[i] == ProductOrder()[m] && SortedStates()[j] == ProductOrder()[n] && Sum(SortedStates()[i]) == Sum(SortedStates()[j]) ==> i < j
  {
    SortedStatesVisitOrder();
    VisitOrderIsStableSort(SortedStates());
  }

  /** In a sequence without repetitions every element occurs exactly once. */
  lemma {:induction false} DistinctMultiplicity<T>(s: seq<T>, x: T)
    requires Distinct(s)
    ensures multiset(s)[x] == if x in s then 1 else 0
  {
    if |s| > 0 {
      var init := s[..|s| - 1];
      assert s == init + [s[|s| - 1]];
      DistinctMultiplicity(init, x);
    }
  }

  /** Two sequences without repetitions and with the same elements are
      permutations of each other. */
  lemma SameElementsPermute<T>(a: seq<T>, b: seq<T>)
    requires Distinct(a) && Distinct(b)
    requires forall x :: x in a <==> x in b
    ensures multiset(a) == multiset(b) && |a| == |b|
  {
    forall x
      ensures multiset(a)[x] == multiset(b)[x]
    {
      DistinctMultiplicity(a, x);
      DistinctMultiplicity(b, x);
    }
    assert multiset(a) == multiset(b);
    assert |a| == |multiset(a)| == |multiset(b)| == |b|;
  }

  lemma SortedStatesDistinct()
    ensures Distinct(SortedStates())
  {
    SortedStatesOrdered();
  }

  /** The sorted order is a permutation of the generated product: the 400
      states, each exactly once. */
  lemma SortedStatesPermuteProduct()
    ensures multiset(SortedStates()) == multiset(ProductOrder())
    ensures |SortedStates()| == 400
    ensures Distinct(SortedStates())
  {
    var a, b := SortedStates(), ProductOrder();
    SortedStatesDistinct();
    ProductOrderShape();
    assert forall x :: x in a <==> x in b by {
      SortedStatesCoverGrid();
    }
    SameElementsPermute(a, b);
  }


  /** What the backwards induction needs of its visiting order: it lists
      exactly the grid states, strictly ordered by Precedes (so each once). */
  ghost predicate VisitOrder(q: seq<State>)
  {
    (forall i :: 0 <= i < |q| ==> OnGrid(q[i]))
    && (forall s :: OnGrid(s) ==> s in q)
    && (forall i, j :: 0 <= i < j < |q| ==> Precedes(q[i], q[j]))
  }

  /** The sorted states are such an order. */
  lemma SortedStatesVisitOrder()
    ensures VisitOrder(SortedStates())
  {
    SortedStatesCoverGrid();
    SortedStatesOrdered();
  }

  /** The states visited before the k-th one are exactly those that precede it. */
  lemma VisitedBefore(q: seq<State>, k: nat, s: State)
    requires VisitOrder(q) && k < |q|
    requires OnGrid(s)
    ensures s in q[..k] <==> Precedes(s, q[k])
  {
    var j :| 0 <= j < |q| && q[j] == s;
    if j < k {
      assert s == q[..k][j];
    }
  }

  /** A grid state no lower than the k-th visited one in either coordinate is
      that state or was visited earlier. */
  lemma NoLowerVisitedBefore(q: seq<State>, k: nat, s: State)
    requires VisitOrder(q) && k < |q|
    requires OnGrid(s)
    requires s.0 >= q[k].0 && s.1 >= q[k].1
    ensures s in q[..k] || s == q[k]
  {
    VisitedBefore(q, k, s);
  }

  /** The mirror (p2, p1) of the k-th visited state (p1, p2) is visited
      earlier exactly when p2 < p1. */
  lemma MirrorVisitedBefore(q: seq<State>, k: nat)
    requires VisitOrder(q) && k < |q|
    ensures (q[k].1, q[k].0) in q[..k] <==> q[k].1 < q[k].0
  {
    VisitedBefore(q, k, (q[k].1, q[k].0));
  }

  /** The k-th visited state does not occur before position k. */
  lemma NotVisitedBefore(q: seq<State>, k: nat)
    requires VisitOrder(q) && k < |q|
    ensures q[k] !in q[..k]
  {
    VisitedBefore(q, k, q[k]);
  }
}
