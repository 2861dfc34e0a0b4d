/** The Flip7 scoring rule (sim.py, calculate_score). */
module Scoring {
  import opened Cards

  /** A hand of exactly this many cards earns the Flip Seven bonus, and the
      simulator never lets a hand grow past it. */
  const MaxHand: nat := 7

  /** The flat bonus for a seven-card hand that did not bust. */
  const FlipSevenBonus: nat := 15

  /** What a card adds to the number-card sum. */
  function Points(c: Card): nat
  {
    if c.Number? then c.n else 0
  }

  /** What a card adds as a "+v" modifier. */
  function Bonus(c: Card): nat
  {
    if c.Modifier? then c.v else 0
  }

  /** The sum of the number cards in the hand. */
  function NumberSum(hand: seq<Card>): nat
  {
    if |hand| == 0 then 0 else NumberSum(hand[..|hand| - 1]) + Points(hand[|hand| - 1])
  }

  /** The sum of the modifier cards in the hand. */
  function ModifierSum(hand: seq<Card>): nat
  {
    if |hand| == 0 then 0 else ModifierSum(hand[..|hand| - 1]) + Bonus(hand[|hand| - 1])
  }

  /** calculate_score: a bust hand scores nothing; otherwise the number cards,
      doubled when an x2 is held, plus the modifiers, plus the Flip Seven bonus
      for exactly seven cards. Second Chance cards score nothing but do count
      towards the seven. */
  function Score(hand: seq<Card>, isBust: bool): (r: int)
    ensures r >= 0
    ensures isBust ==> r == 0
    ensures !isBust ==> r >= NumberSum(hand) + ModifierSum(hand)
    ensures !isBust && |hand| == MaxHand ==> r >= FlipSevenBonus
  {
    if isBust then 0
    else
      var base := NumberSum(hand);
      var doubled := if Doubler in hand then 2 * base else base;
      doubled + ModifierSum(hand) + (if |hand| == MaxHand then FlipSevenBonus else 0)
  }

  lemma {:induction false} SumsAppend(a: seq<Card>, b: seq<Card>)
    ensures NumberSum(a + b) == NumberSum(a) + NumberSum(b)
    ensures ModifierSum(a + b) == ModifierSum(a) + ModifierSum(b)
  {
    if |b| == 0 {
      assert a + b == a;
    } else {
      SumsAppend(a, b[..|b| - 1]);
      assert (a + b)[..|a + b| - 1] == a + b[..|b| - 1];
    }
  }

  lemma SumsSingleton(c: Card)
    ensures NumberSum([c]) == Points(c)
    ensures ModifierSum([c]) == Bonus(c)
  {
    assert [c][..0] == [];
  }

  /** Deleting the card at position i takes exactly that card out of the multiset. */
  lemma MultisetRemoveAt(b: seq<Card>, i: nat)
    requires i < |b|
    ensures multiset(b[..i] + b[i + 1..]) == multiset(b) - multiset{b[i]}
  {
    var l, x, r := b[..i], b[i], b[i + 1..];
    assert b == l + [x] + r;
    assert multiset(b) == multiset(l) + multiset{x} + multiset(r);
  }

  /** Deleting the card at position i takes exactly that card out of the sums. */
  lemma SumsRemoveAt(b: seq<Card>, i: nat)
    requires i < |b|
    ensures NumberSum(b) == NumberSum(b[..i] + b[i + 1..]) + Points(b[i])
    ensures ModifierSum(b) == ModifierSum(b[..i] + b[i + 1..]) + Bonus(b[i])
  {
    var l, x, r := b[..i], b[i], b[i + 1..];
    assert b[i..] == [x] + r;
    assert b == l + b[i..];
    SumsRemoveMiddle(l, x, r);
  }

  lemma SumsRemoveMiddle(l: seq<Card>, x: Card, r: seq<Card>)
    ensures NumberSum(l + ([x] + r)) == NumberSum(l + r) + Points(x)
    ensures ModifierSum(l + ([x] + r)) == ModifierSum(l + r) + Bonus(x)
  {
    SumsAppend([x], r);
    SumsAppend(l, [x] + r);
    SumsAppend(l, r);
    SumsSingleton(x);
  }

  /** The two sums depend only on which cards are held, not on their order. */
  lemma {:induction false} SumsPermutation(a: seq<Card>, b: seq<Card>)
    requires multiset(a) == multiset(b)
    ensures NumberSum(a) == NumberSum(b)
    ensures ModifierSum(a) == ModifierSum(b)
    decreases |a|
  {
    if |a| == 0 {
      assert |b| == |multiset(b)| == 0;
    } else {
      var x := a[|a| - 1];
      var a' := a[..|a| - 1];
      assert a == a' + [x];
      assert x in multiset(b);
      var i :| 0 <= i < |b| && b[i] == x;
      var b' := b[..i] + b[i + 1..];
      MultisetRemoveAt(b, i);
      assert multiset(a') == multiset(b') by {
        assert multiset(a) == multiset(a') + multiset{x};
      }
      SumsPermutation(a', b');
      SumsRemoveAt(b, i);
    }
  }

  /** calculate_score walks the hand card by card, but its result depends only
      on the multiset of cards held: any rearrangement scores the same. */
  lemma ScoreIgnoresOrder(a: seq<Card>, b: seq<Card>, isBust: bool)
    requires multiset(a) == multiset(b)
    ensures Score(a, isBust) == Score(b, isBust)
  {
    SumsPermutation(a, b);
    assert |a| == |multiset(a)| == |multiset(b)| == |b|;
    assert Doubler in a <==> Doubler in multiset(a);
    assert Doubler in b <==> Doubler in multiset(b);
  }

  /** Taking one more card into a hand of fewer than seven never lowers its
      (non-bust) score: every card kind adds a non-negative amount, and the x2
      can only double a non-negative sum. */
  lemma ScoreGrowsWithCard(hand: seq<Card>, c: Card)
    requires |hand| < MaxHand
    ensures Score(hand + [c], false) >= Score(hand, false)
  {
    SumsAppend(hand, [c]);
    SumsSingleton(c);
    assert Doubler in hand ==> Doubler in hand + [c];
  }

  /** The score of a hand grown card by card: a number card adds its value,
      twice over once an x2 is held; a modifier adds its value; the first x2
      doubles the number sum so far; a Second Chance adds nothing; and the
      seventh card brings the 15-point bonus. */
  lemma ScoreAddCard(hand: seq<Card>, c: Card)
    requires |hand| < MaxHand
    ensures var bonus := if |hand| + 1 == MaxHand then FlipSevenBonus else 0;
      Score(hand + [c], false) == Score(hand, false) + bonus +
        (match c
         case Number(n) => if Doubler in hand then 2 * n else n
         case Modifier(v) => v
         case Doubler => if Doubler in hand then 0 else NumberSum(hand)
         case SecondChance => 0)
  {
    SumsAppend(hand, [c]);
    SumsSingleton(c);
    assert Doubler in hand + [c] <==> Doubler in hand || c == Doubler;
  }

  /** A Second Chance card scores nothing: removing it from a hand of fewer
      than seven cards leaves the score unchanged. */
  lemma SecondChanceScoresNothing(a: seq<Card>, b: seq<Card>)
    requires |a + [SecondChance] + b| < MaxHand
    ensures Score(a + [SecondChance] + b, false) == Score(a + b, false)
  {
    SumsAppend(a, [SecondChance]);
    SumsAppend(a + [SecondChance], b);
    SumsAppend(a, b);
    SumsSingleton(SecondChance);
    assert Doubler in a + [SecondChance] + b <==> Doubler in a + b;
  }

  /** The two worked examples of the scoring rule: 3 + 5 + (+4) is 12, and
      (3 + 5) doubled is 16. */
  lemma ScoreExamples()
    ensures Score([Number(3), Number(5), Modifier(4)], false) == 12
    ensures Score([Number(3), Number(5), Doubler], false) == 16
  {
    var h1 := [Number(3), Number(5), Modifier(4)];
    assert h1 == [Number(3)] + [Number(5)] + [Modifier(4)];
    var h2 := [Number(3), Number(5), Doubler];
    assert h2 == [Number(3)] + [Number(5)] + [Doubler];
    SumsSingleton(Number(3));
    SumsSingleton(Number(5));
    SumsSingleton(Modifier(4));
    SumsSingleton(Doubler);
    SumsAppend([Number(3)], [Number(5)]);
    SumsAppend([Number(3)] + [Number(5)], [Modifier(4)]);
    SumsAppend([Number(3)] + [Number(5)], [Doubler]);
    assert Doubler !in h1;
    assert Doubler in h2;
  }
}
