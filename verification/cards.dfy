/** The Flip7 card set and the fixed 88-card deck (sim.py, create_deck).

    The source represents cards as plain ints (number cards), the strings
    "+2" .. "+10" (modifiers), "x2" (the doubler) and "SC" (Second Chance).
    Here they are one closed datatype. */
module Cards {

  datatype Card =
    | Number(n: nat)      // a number card 0 .. 12
    | Modifier(v: nat)    // a "+v" card, v in {2, 4, 6, 8, 10}
    | Doubler             // the "x2" card
    | SecondChance        // the "SC" card

  /** The highest number-card denomination. */
  const MaxNumber: nat := 12

  /** The number of modifier cards: +2, +4, ..., +10. */
  const ModifierKinds: nat := 5

  /** The number of Second Chance cards in the deck. */
  const SecondChanceCopies: nat := 3

  /** The number of occurrences of c in s. */
  function Count(s: seq<Card>, c: Card): nat
  {
    if |s| == 0 then 0 else Count(s[..|s| - 1], c) + (if s[|s| - 1] == c then 1 else 0)
  }

  /** k copies of the same value. */
  function Copies<T>(v: T, k: nat): seq<T>
  {
    seq(k, _ => v)
  }

  /** i copies of Number(i) for every i in 1 .. hi, in increasing order of i. */
  function NumberBlock(hi: nat): seq<Card>
  {
    if hi == 0 then [] else NumberBlock(hi - 1) + Copies(Number(hi), hi)
  }

  /** The modifiers +2, +4, ..., +2k, one of each. */
  function ModifierBlock(k: nat): seq<Card>
  {
    if k == 0 then [] else ModifierBlock(k - 1) + [Modifier(2 * k)]
  }

  /** 1 + 2 + ... + hi. */
  function Triangle(hi: nat): nat
  {
    if hi == 0 then 0 else Triangle(hi - 1) + hi
  }

  /** The deck layout of create_deck, for a highest denomination hi, mods
      modifier cards and sc Second Chance cards. */
  function Layout(hi: nat, mods: nat, sc: nat): seq<Card>
  {
    [Number(0)] + NumberBlock(hi) + ModifierBlock(mods) + [Doubler] + Copies(SecondChance, sc)
  }

  /** The unshuffled deck, in the order create_deck builds it before the shuffle. */
  function FullDeck(): seq<Card>
  {
    Layout(MaxNumber, ModifierKinds, SecondChanceCopies)
  }

  /** How many copies of each card the deck holds; an independent statement of
      the composition, against which FullDeck is checked. */
  function DeckCount(c: Card): nat
  {
    match c
    case Number(n) => if n == 0 then 1 else if n <= 12 then n else 0
    case Modifier(v) => if v in {2, 4, 6, 8, 10} then 1 else 0
    case Doubler => 1
    case SecondChance => 3
  }

  /** A deck as the shuffle leaves it: any arrangement of the fixed composition. */
  predicate IsShuffle(deck: seq<Card>)
  {
    multiset(deck) == multiset(FullDeck())
  }

  lemma {:induction false} CountAppend(a: seq<Card>, b: seq<Card>, c: Card)
    ensures Count(a + b, c) == Count(a, c) + Count(b, c)
  {
    if |b| == 0 {
      assert a + b == a;
    } else {
      CountAppend(a, b[..|b| - 1], c);
      assert (a + b)[..|a + b| - 1] == a + b[..|b| - 1];
    }
  }

  lemma CountPush(s: seq<Card>, x: Card, c: Card)
    ensures Count(s + [x], c) == Count(s, c) + (if x == c then 1 else 0)
  {
    assert (s + [x])[..|s|] == s;
  }

  lemma {:induction false} CountPositive(s: seq<Card>, c: Card)
    ensures Count(s, c) > 0 <==> c in s
  {
    if |s| > 0 {
      CountPositive(s[..|s| - 1], c);
      assert s == s[..|s| - 1] + [s[|s| - 1]];
    }
  }

  /** Count agrees with the multiset of the sequence. */
  lemma {:induction false} CountMultiset(s: seq<Card>, c: Card)
    ensures Count(s, c) == multiset(s)[c]
  {
    if |s| > 0 {
      CountMultiset(s[..|s| - 1], c);
      assert s == s[..|s| - 1] + [s[|s| - 1]];
    }
  }

  lemma {:induction false} CopiesCount(c: Card, k: nat, d: Card)
    ensures Count(Copies(c, k), d) == if d == c then k else 0
  {
    if k > 0 {
      CopiesCount(c, k - 1, d);
      assert Copies(c, k)[..k - 1] == Copies(c, k - 1);
    }
  }

  lemma {:induction false} NumberBlockLength(hi: nat)
    ensures |NumberBlock(hi)| == Triangle(hi)
  {
    if hi > 0 {
      NumberBlockLength(hi - 1);
    }
  }

  lemma {:induction false} NumberBlockCount(hi: nat, d: Card)
    ensures Count(NumberBlock(hi), d) == if d.Number? && 1 <= d.n <= hi then d.n else 0
  {
    if hi > 0 {
      NumberBlockCount(hi - 1, d);
      CopiesCount(Number(hi), hi, d);
      CountAppend(NumberBlock(hi - 1), Copies(Number(hi), hi), d);
    }
  }

  lemma {:induction false} ModifierBlockLength(k: nat)
    ensures |ModifierBlock(k)| == k
  {
    if k > 0 {
      ModifierBlockLength(k - 1);
    }
  }

  lemma {:induction false} ModifierBlockCount(k: nat, d: Card)
    ensures Count(ModifierBlock(k), d) == if d.Modifier? && d.v % 2 == 0 && 2 <= d.v <= 2 * k then 1 else 0
  {
    if k > 0 {
      ModifierBlockCount(k - 1, d);
      var s := ModifierBlock(k - 1) + [Modifier(2 * k)];
      ModifierBlockLength(k - 1);
      assert s[..|s| - 1] == ModifierBlock(k - 1);
    }
  }

  lemma LayoutLength(hi: nat, mods: nat, sc: nat)
    ensures |Layout(hi, mods, sc)| == 1 + Triangle(hi) + mods + 1 + sc
  {
    NumberBlockLength(hi);
    ModifierBlockLength(mods);
  }

  /** The number of copies of c in Layout(hi, mods, sc), read off its five parts. */
  function LayoutComposition(hi: nat, mods: nat, sc: nat, c: Card): nat
  {
    (if c == Number(0) then 1 else 0)
    + (if c.Number? && 1 <= c.n <= hi then c.n else 0)
    + (if c.Modifier? && c.v % 2 == 0 && 2 <= c.v <= 2 * mods then 1 else 0)
    + (if c == Doubler then 1 else 0)
    + (if c == SecondChance then sc else 0)
  }

  lemma LayoutCount(hi: nat, mods: nat, sc: nat, c: Card)
    ensures Count(Layout(hi, mods, sc), c) == LayoutComposition(hi, mods, sc, c)
  {
    var a := [Number(0)];
    var b := NumberBlock(hi);
    var m := ModifierBlock(mods);
    var d := [Doubler];
    var e := Copies(SecondChance, sc);
    NumberBlockCount(hi, c);
    ModifierBlockCount(mods, c);
    CopiesCount(SecondChance, sc, c);
    CountAppend(a, b, c);
    CountAppend(a + b, m, c);
    CountAppend(a + b + m, d, c);
    CountAppend(a + b + m + d, e, c);
    assert Count(a, c) == (if c == Number(0) then 1 else 0) by {
      assert a[..0] == [];
    }
    assert Count(d, c) == (if c == Doubler then 1 else 0) by {
      assert d[..0] == [];
    }
  }

  lemma CompositionIsDeckCount(c: Card)
    ensures LayoutComposition(MaxNumber, ModifierKinds, SecondChanceCopies, c) == DeckCount(c)
  {
    if c.Modifier? {
      assert c.v % 2 == 0 && 2 <= c.v <= 10 <==> c.v in {2, 4, 6, 8, 10};
    }
  }

  /** The number of copies of c that create_deck puts into the deck. */
  lemma FullDeckCount(c: Card)
    ensures Count(FullDeck(), c) == DeckCount(c)
  {
    LayoutCount(MaxNumber, ModifierKinds, SecondChanceCopies, c);
    CompositionIsDeckCount(c);
  }

  /** create_deck: one 0, i copies of each i in 1..12, one of each modifier,
      one x2 and three SC -- 88 cards in all. */
  lemma FullDeckComposition()
    ensures |FullDeck()| == 88
    ensures forall c :: Count(FullDeck(), c) == DeckCount(c)
    ensures forall c :: multiset(FullDeck())[c] == DeckCount(c)
  {
    LayoutLength(MaxNumber, ModifierKinds, SecondChanceCopies);
    assert Triangle(MaxNumber) == 78;
    forall c
      ensures Count(FullDeck(), c) == DeckCount(c)
      ensures multiset(FullDeck())[c] == DeckCount(c)
    {
      FullDeckCount(c);
      CountMultiset(FullDeck(), c);
    }
  }

  /** Every shuffled deck has the fixed composition: 88 cards, three of them SC. */
  lemma ShuffleComposition(deck: seq<Card>)
    requires IsShuffle(deck)
    ensures |deck| == 88
    ensures forall c :: Count(deck, c) == DeckCount(c)
  {
    FullDeckComposition();
    assert |deck| == |multiset(deck)| == |multiset(FullDeck())| == |FullDeck()|;
    forall c
      ensures Count(deck, c) == DeckCount(c)
    {
      CountMultiset(deck, c);
    }
  }
}
