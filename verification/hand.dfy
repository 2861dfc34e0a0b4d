/** One player's turn (sim.py, run_simulation): draw until the score reaches
    the threshold X, never standing while a Second Chance is held; a duplicate
    number busts unless a held Second Chance absorbs it; stop at seven cards or
    when the deck runs out.

    The shuffle is not modelled: the deck is an input, and the card drawn next
    is its last element, as list.pop() takes it. */
module Hand {
  import opened Cards
  import opened Scoring

  /** Why the turn ended. The source does not report this; it is kept here so
      that the stopping rule can be stated. */
  datatype Stop = FullHand | Stood | DeckEmpty | Busted

  /** The hand after one drawn card has been handled. */
  datatype Drawn =
    | Continue(hand: seq<Card>, hasSc: bool)
    | Bust(hand: seq<Card>)

  /** The end of a turn: the cards held, whether a Second Chance is still held,
      whether the hand busted, and why the loop stopped. */
  datatype Turn = Turn(cards: seq<Card>, hasSc: bool, isBust: bool, stop: Stop)

  /** The record run_simulation returns. */
  datatype SimResult = SimResult(cards: seq<Card>, isBust: bool, totalValue: int, isFlipSeven: bool)

  /** No two number cards in the hand have the same denomination. */
  predicate DistinctNumbers(hand: seq<Card>)
  {
    forall i, j :: 0 <= i < j < |hand| && hand[i].Number? ==> hand[i] != hand[j]
  }

  /** The state the drawing loop keeps: at most seven cards, at most one
      Second Chance, the has_sc flag true exactly when a Second Chance is in
      the hand, and no duplicate numbers. */
  predicate Tidy(hand: seq<Card>, hasSc: bool)
  {
    && |hand| <= MaxHand
    && Count(hand, SecondChance) <= 1
    && (hasSc <==> SecondChance in hand)
    && DistinctNumbers(hand)
  }

  /** A busted hand: its last card is a number that duplicates an earlier one,
      the cards before it are distinct, and no Second Chance was held. */
  predicate BustHand(cards: seq<Card>)
  {
    && |cards| >= 1
    && cards[|cards| - 1].Number?
    && cards[|cards| - 1] in cards[..|cards| - 1]
    && DistinctNumbers(cards[..|cards| - 1])
    && SecondChance !in cards
  }

  /** r is the hand with the first occurrence of c deleted and the other cards
      in their order. */
  predicate RemovedFirst(hand: seq<Card>, c: Card, r: seq<Card>)
  {
    exists i :: 0 <= i < |hand| && hand[i] == c && c !in hand[..i] && r == hand[..i] + hand[i + 1..]
  }

  /** The position of the first occurrence of c in the hand. */
  function FirstIndex(hand: seq<Card>, c: Card): (i: nat)
    requires c in hand
    ensures i < |hand| && hand[i] == c
    ensures c !in hand[..i]
  {
    if hand[0] == c then 0
    else
      var j := FirstIndex(hand[1..], c);
      assert hand[1..][..j] == hand[1..j + 1];
      assert hand[..j + 1] == [hand[0]] + hand[1..j + 1];
      j + 1
  }

  /** list.remove(c): delete the first occurrence of c. */
  function RemoveFirst(hand: seq<Card>, c: Card): (r: seq<Card>)
    requires c in hand
    ensures |r| == |hand| - 1
    ensures multiset(r) == multiset(hand) - multiset{c}
    ensures RemovedFirst(hand, c, r)
  {
    var i := FirstIndex(hand, c);
    MultisetRemoveAt(hand, i);
    hand[..i] + hand[i + 1..]
  }

  lemma DistinctNumbersRemoveAt(hand: seq<Card>, i: nat)
    requires i < |hand|
    requires DistinctNumbers(hand)
    ensures DistinctNumbers(hand[..i] + hand[i + 1..])
  {
    var r := hand[..i] + hand[i + 1..];
    forall p, q | 0 <= p < q < |r| && r[p].Number?
      ensures r[p] != r[q]
    {
      var p' := if p < i then p else p + 1;
      var q' := if q < i then q else q + 1;
      assert r[p] == hand[p'] && r[q] == hand[q'];
    }
  }

  lemma DistinctNumbersPush(hand: seq<Card>, c: Card)
    requires DistinctNumbers(hand)
    requires c.Number? ==> c !in hand
    ensures DistinctNumbers(hand + [c])
  {
    var r := hand + [c];
    forall p, q | 0 <= p < q < |r| && r[p].Number?
      ensures r[p] != r[q]
    {
      if q == |hand| {
        assert r[p] in hand;
      }
    }
  }

  /** Removing the one Second Chance of a tidy hand leaves a tidy hand with no
      Second Chance, one card shorter. */
  lemma RemoveSecondChance(hand: seq<Card>)
    requires Tidy(hand, true)
    ensures Tidy(RemoveFirst(hand, SecondChance), false)
  {
    var i := FirstIndex(hand, SecondChance);
    assert RemoveFirst(hand, SecondChance) == hand[..i] + hand[i + 1..];
    RemoveSecondChanceAt(hand, i);
  }

  lemma RemoveSecondChanceAt(hand: seq<Card>, i: nat)
    requires Tidy(hand, true)
    requires i < |hand| && hand[i] == SecondChance
    ensures Tidy(hand[..i] + hand[i + 1..], false)
  {
    var r := hand[..i] + hand[i + 1..];
    DistinctNumbersRemoveAt(hand, i);
    assert hand == hand[..i] + [SecondChance] + hand[i + 1..];
    CountAppend(hand[..i] + [SecondChance], hand[i + 1..], SecondChance);
    CountPush(hand[..i], SecondChance, SecondChance);
    CountAppend(hand[..i], hand[i + 1..], SecondChance);
    CountPositive(r, SecondChance);
  }

  /** The Second Chance save: hand.remove("SC"), leaving a tidy hand without
      a Second Chance. */
  function SpendSecondChance(hand: seq<Card>): (r: seq<Card>)
    requires Tidy(hand, true)
    ensures Tidy(r, false)
    ensures |r| == |hand| - 1
    ensures multiset(r) + multiset{SecondChance} == multiset(hand)
    ensures RemovedFirst(hand, SecondChance, r)
  {
    RemoveSecondChance(hand);
    RemoveFirst(hand, SecondChance)
  }

  /** The handling of one drawn card (the body of the source's loop after the
      draw). */
  function Draw(card: Card, hand: seq<Card>, hasSc: bool): (r: Drawn)
    requires Tidy(hand, hasSc) && |hand| < MaxHand
    ensures r.Continue? ==> Tidy(r.hand, r.hasSc)
    ensures r.Bust? <==> card.Number? && card in hand && !hasSc
    ensures r.Bust? ==> BustHand(r.hand) && |r.hand| <= MaxHand
    // the bust record is the hand with the duplicate as its last card
    ensures r.Bust? ==> r.hand == hand + [card]
    // a first SC is kept and sets the flag
    ensures card == SecondChance && !hasSc ==> r == Continue(hand + [card], true)
    // a second SC is discarded and the held one kept
    ensures card == SecondChance && hasSc ==> r == Continue(hand, true)
    // the Second Chance save: the held SC goes, the duplicate is not added
    ensures card.Number? && card in hand && hasSc ==>
      && r.Continue? && !r.hasSc
      && |r.hand| == |hand| - 1
      && multiset(r.hand) + multiset{SecondChance} == multiset(hand)
      && RemovedFirst(hand, SecondChance, r.hand)
    // every other card is appended
    ensures !(card.Number? && card in hand) && card != SecondChance ==> r == Continue(hand + [card], hasSc)
    ensures multiset(r.hand) <= multiset(hand) + multiset{card}
  {
    match card
    case SecondChance =>
      if hasSc then Continue(hand, true)
      else
        CountPush(hand, SecondChance, SecondChance);
        CountPositive(hand, SecondChance);
        DistinctNumbersPush(hand, card);
        Continue(hand + [card], true)
    case Number(_) =>
      if card in hand then
        if hasSc then Continue(SpendSecondChance(hand), false)
        else
          CountPositive(hand, SecondChance);
          assert (hand + [card])[..|hand|] == hand;
          Bust(hand + [card])
      else
        CountPush(hand, card, SecondChance);
        DistinctNumbersPush(hand, card);
        Continue(hand + [card], hasSc)
    case _ =>
      CountPush(hand, card, SecondChance);
      DistinctNumbersPush(hand, card);
      Continue(hand + [card], hasSc)
  }

  /** The drawing loop, from the given hand and the remaining deck. */
  function Play(x: int, deck: seq<Card>, hand: seq<Card>, hasSc: bool): (t: Turn)
    requires Tidy(hand, hasSc)
    decreases |deck|
    ensures |t.cards| <= MaxHand
    ensures Count(t.cards, SecondChance) <= 1
    ensures t.isBust <==> t.stop == Busted
    ensures !t.isBust ==> Tidy(t.cards, t.hasSc)
    ensures t.isBust ==> BustHand(t.cards)
    ensures t.stop == Stood ==> Score(t.cards, false) >= x && SecondChance !in t.cards
    ensures t.stop == FullHand <==> !t.isBust && |t.cards| == MaxHand
    // a hand that has reached X without an SC stands at once
    ensures |hand| < MaxHand && Score(hand, false) >= x && !hasSc ==> t == Turn(hand, hasSc, false, Stood)
    // the loop only gives up for an empty deck when it still wanted to draw
    ensures t.stop == DeckEmpty ==> |t.cards| < MaxHand && (Score(t.cards, false) < x || t.hasSc)
    ensures multiset(t.cards) <= multiset(hand) + multiset(deck)
  {
    if |hand| >= MaxHand then Turn(hand, hasSc, false, FullHand)
    else if Score(hand, false) >= x && !hasSc then Turn(hand, hasSc, false, Stood)
    else if |deck| == 0 then Turn(hand, hasSc, false, DeckEmpty)
    else
      var card := deck[|deck| - 1];
      var rest := deck[..|deck| - 1];
      assert deck == rest + [card];
      match Draw(card, hand, hasSc)
      case Bust(h) =>
        assert Count(h, SecondChance) == 0 by {
          CountPositive(h, SecondChance);
        }
        Turn(h, false, true, Busted)
      case Continue(h, sc) => Play(x, rest, h, sc)
  }

  /** run_simulation's turn, from an empty hand. */
  function PlayTurn(x: int, deck: seq<Card>): Turn
  {
    Play(x, deck, [], false)
  }

  /** run_simulation with the deck given: the cards held, the bust flag, the
      score and the Flip Seven flag. */
  function Simulate(x: int, deck: seq<Card>): (r: SimResult)
    ensures |r.cards| <= MaxHand
    ensures Count(r.cards, SecondChance) <= 1
    ensures multiset(r.cards) <= multiset(deck)
    ensures r.totalValue == Score(r.cards, r.isBust)
    ensures r.totalValue >= 0
    ensures r.isBust ==> r.totalValue == 0 && BustHand(r.cards)
    ensures !r.isBust ==> DistinctNumbers(r.cards)
    ensures !(r.isBust && r.isFlipSeven)
    ensures r.isFlipSeven <==> !r.isBust && |r.cards| == MaxHand
    ensures r.isFlipSeven ==> r.totalValue >= FlipSevenBonus
  {
    var t := PlayTurn(x, deck);
    SimResult(t.cards, t.isBust, Score(t.cards, t.isBust), |t.cards| == MaxHand && !t.isBust)
  }

  /** The source's while-loop, step for step; it computes exactly Simulate. */
  method RunSimulation(x: int, deck: seq<Card>) returns (res: SimResult)
    ensures res == Simulate(x, deck)
  {
    var d := deck;
    var hand: seq<Card> := [];
    var hasSc := false;
    var isBust := false;
    while true
      invariant Tidy(hand, hasSc)
      invariant !isBust
      invariant Play(x, d, hand, hasSc) == PlayTurn(x, deck)
      decreases |d|
    {
      if |hand| >= MaxHand {
        break;
      }
      var currentScore := Score(hand, false);
      if currentScore >= x && !hasSc {
        break;
      }
      if |d| == 0 {
        break;
      }
      ghost var d0, hand0, hasSc0 := d, hand, hasSc;
      var card := d[|d| - 1];
      d := d[..|d| - 1];
      if card == SecondChance {
        if !hasSc {
          hasSc := true;
          hand := hand + [card];
        }
      } else if card.Number? {
        if card in hand {
          if hasSc {
            hasSc := false;
            hand := RemoveFirst(hand, SecondChance);
          } else {
            hand := hand + [card];
            isBust := true;
            assert Play(x, d0, hand0, hasSc0) == Turn(hand, false, true, Busted);
            break;
          }
        } else {
          hand := hand + [card];
        }
      } else {
        hand := hand + [card];
      }
      assert Draw(card, hand0, hasSc0) == Continue(hand, hasSc);
    }
    var finalScore := Score(hand, isBust);
    var isFlipSeven := |hand| == MaxHand && !isBust;
    res := SimResult(hand, isBust, finalScore, isFlipSeven);
  }
  /** A busted turn ended on a card drawn from a hand that scored below X. */
  predicate BustDrawnBelow(x: int, t: Turn)
  {
    t.isBust ==> |t.cards| >= 1 && Score(t.cards[..|t.cards| - 1], false) < x
  }

  /** A full turn's seventh card was drawn from a hand that scored below X or
      held a Second Chance. */
  predicate SeventhDrawnBelow(x: int, t: Turn)
  {
    t.stop == FullHand && |t.cards| == MaxHand ==>
      Score(t.cards[..MaxHand - 1], false) < x || SecondChance in t.cards[..MaxHand - 1]
  }

  /** The other direction of "hit until the score reaches X": a card is only
      drawn while the score is below X or an SC is held. A bust needs no SC
      held, so the hand before a busting card scored below X. */
  lemma {:induction false} BustDrawnBelowThreshold(x: int, deck: seq<Card>, hand: seq<Card>, hasSc: bool)
    requires Tidy(hand, hasSc)
    ensures BustDrawnBelow(x, Play(x, deck, hand, hasSc))
    decreases |deck|
  {
    var t := Play(x, deck, hand, hasSc);
    if |hand| >= MaxHand || (Score(hand, false) >= x && !hasSc) || |deck| == 0 {
      assert !t.isBust;
    } else {
      var card := deck[|deck| - 1];
      var rest := deck[..|deck| - 1];
      assert deck == rest + [card];
      var d := Draw(card, hand, hasSc);
      if d.Bust? {
        assert !hasSc && Score(hand, false) < x;
        assert t.cards == hand + [card];
        assert t.cards[..|t.cards| - 1] == hand;
      } else {
        assert t == Play(x, rest, d.hand, d.hasSc);
        BustDrawnBelowThreshold(x, rest, d.hand, d.hasSc);
      }
    }
  }

  /** Likewise, a turn that starts below seven cards and fills up drew its
      seventh card from a hand that scored below X or held an SC. */
  lemma {:induction false} SeventhDrawnBelowThreshold(x: int, deck: seq<Card>, hand: seq<Card>, hasSc: bool)
    requires Tidy(hand, hasSc) && |hand| < MaxHand
    ensures SeventhDrawnBelow(x, Play(x, deck, hand, hasSc))
    decreases |deck|
  {
    var t := Play(x, deck, hand, hasSc);
    if t.stop == FullHand {
      assert !(Score(hand, false) >= x && !hasSc) && |deck| > 0;
      var card := deck[|deck| - 1];
      var rest := deck[..|deck| - 1];
      assert deck == rest + [card];
      var d := Draw(card, hand, hasSc);
      DrawGrowsByAppending(card, hand, hasSc);
      assert d.Continue? && t == Play(x, rest, d.hand, d.hasSc);
      if |d.hand| == MaxHand {
        assert t.cards == d.hand;
        assert SecondChance in hand <==> hasSc;
      } else {
        SeventhDrawnBelowThreshold(x, rest, d.hand, d.hasSc);
      }
    }
  }

  /** A drawn card that makes the hand one card longer was appended. */
  lemma DrawGrowsByAppending(card: Card, hand: seq<Card>, hasSc: bool)
    requires Tidy(hand, hasSc) && |hand| < MaxHand
    ensures var d := Draw(card, hand, hasSc);
      |d.hand| == |hand| + 1 ==> d.hand == hand + [card] && d.hand[..|hand|] == hand
  {
    assert (hand + [card])[..|hand|] == hand;
  }

  /** run_simulation draws only below the threshold: the hand before a
      busting card scored below X, and the hand before the seventh card
      scored below X or held an SC. */
  lemma SimulateDrawsBelowThreshold(x: int, deck: seq<Card>)
    ensures var r := Simulate(x, deck);
      r.isBust ==> Score(r.cards[..|r.cards| - 1], false) < x
    ensures var r := Simulate(x, deck);
      r.isFlipSeven ==> Score(r.cards[..MaxHand - 1], false) < x || SecondChance in r.cards[..MaxHand - 1]
  {
    assert Tidy([], false) by {
      CountPositive([], SecondChance);
    }
    var t := Play(x, deck, [], false);
    BustDrawnBelowThreshold(x, deck, [], false);
    SeventhDrawnBelowThreshold(x, deck, [], false);
    assert BustDrawnBelow(x, t) && SeventhDrawnBelow(x, t);
    var r := Simulate(x, deck);
    assert r.cards == t.cards && r.isBust == t.isBust;
    assert r.isFlipSeven ==> t.stop == FullHand && |t.cards| == MaxHand;
  }

  /** On a shuffled deck a turn that neither busts nor fills seven cards has
      stood: it scores at least X and holds no SC. */
  lemma ShuffledTurnStandsAtThreshold(x: int, deck: seq<Card>)
    requires IsShuffle(deck)
    ensures var r := Simulate(x, deck);
      !r.isBust && !r.isFlipSeven ==> r.totalValue >= x && SecondChance !in r.cards
  {
    ShuffledDeckNeverRunsOut(x, deck);
  }

  /** A deck with enough cards never runs dry: each draw either grows the hand
      by one or spends a Second Chance card (a discarded extra SC, or a held SC
      together with the duplicate it absorbs), and the SCs left in the deck and
      in the hand bound how often the latter can happen. */
  lemma {:induction false} PlayKeepsDrawing(x: int, deck: seq<Card>, hand: seq<Card>, hasSc: bool)
    requires Tidy(hand, hasSc)
    requires |deck| + |hand| >= MaxHand + 2 * Count(deck, SecondChance) + (if hasSc then 2 else 0)
    ensures Play(x, deck, hand, hasSc).stop != DeckEmpty
    decreases |deck|
  {
    if |hand| < MaxHand && !(Score(hand, false) >= x && !hasSc) {
      var card := deck[|deck| - 1];
      var rest := deck[..|deck| - 1];
      assert deck == rest + [card];
      CountPush(rest, card, SecondChance);
      match Draw(card, hand, hasSc)
      case Bust(h) =>
      case Continue(h, sc) =>
        PlayKeepsDrawing(x, rest, h, sc);
    }
  }

  /** With a full shuffled deck of 88 cards the "deck is empty" exit is never
      taken: a turn draws at most 7 + 2 * 3 = 13 cards. */
  lemma ShuffledDeckNeverRunsOut(x: int, deck: seq<Card>)
    requires IsShuffle(deck)
    ensures PlayTurn(x, deck).stop != DeckEmpty
  {
    ShuffleComposition(deck);
    assert |deck| == 88 && Count(deck, SecondChance) == 3;
    assert Tidy([], false) by {
      CountPositive([], SecondChance);
    }
    PlayKeepsDrawing(x, deck, [], false);
  }

  /** With a threshold of 0 or less the empty hand already meets it, so the
      player stands at once with nothing and scores 0. */
  lemma NonPositiveThresholdStandsAtOnce(x: int, deck: seq<Card>)
    requires x <= 0
    ensures Simulate(x, deck) == SimResult([], false, 0, false)
  {
    assert PlayTurn(x, deck) == Turn([], false, false, Stood);
  }
}
