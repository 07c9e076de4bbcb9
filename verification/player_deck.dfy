/**
 * A player's hand and deck with a rotating cursor (server/src/logic/PlayerDeck.ts).
 * A played card is never discarded: it is swapped into the cursor slot of the deck.
 */
module Decks {
  import opened Cards
  import opened Constants

  /** The deck every player gets in the prototype. */
  const DUMMY_DECK: seq<CardId> := [
    MeleeFighter, MeleeFighter, MeleeFighter, MeleeFighter, MeleeFighter,
    RangedFighter, RangedFighter, RangedFighter, RangedFighter, RangedFighter,
    Flying, Flying, Flying, Flying]

  /** The value of a deck: the hand, the rest of the deck and the cursor into it. */
  datatype DeckState = DeckState(hand: seq<CardId>, deck: seq<CardId>, deckIndex: nat)

  predicate WellFormed(s: DeckState)
  {
    |s.hand| == HAND_SIZE && |s.deck| == |DUMMY_DECK| - HAND_SIZE && s.deckIndex < |s.deck|
  }

  /** Every card a player owns, in hand or in deck. */
  function AllCards(s: DeckState): multiset<CardId>
  {
    multiset(s.hand) + multiset(s.deck)
  }

  /** Position of the first occurrence of `c` (Array.prototype.indexOf). */
  function {:induction false} FirstIndex(s: seq<CardId>, c: CardId): (i: nat)
    requires c in s
    ensures i < |s| && s[i] == c
    ensures forall j :: 0 <= j < i ==> s[j] != c
  {
    if s[0] == c then 0 else 1 + FirstIndex(s[1..], c)
  }

  /** The card that will be drawn next. */
  function NextCard(s: DeckState): CardId
    requires WellFormed(s)
  {
    s.deck[s.deckIndex]
  }

  /** Playing card `c`: the first hand slot holding it takes the next card, the cursor slot takes `c`,
      and the cursor moves on by one, wrapping around. */
  function AfterUse(s: DeckState, c: CardId): DeckState
    requires WellFormed(s) && c in s.hand
  {
    var i := FirstIndex(s.hand, c);
    DeckState(s.hand[i := s.deck[s.deckIndex]], s.deck[s.deckIndex := c], (s.deckIndex + 1) % |s.deck|)
  }

  /** Overwriting one slot swaps one element of the multiset for another. */
  lemma {:induction false} UpdateMultiset<T>(s: seq<T>, i: nat, v: T)
    requires i < |s|
    ensures multiset(s[i := v]) == multiset(s) - multiset{s[i]} + multiset{v}
  {
    assert s == s[..i] + [s[i]] + s[i + 1..];
    assert s[i := v] == s[..i] + [v] + s[i + 1..];
  }

  /** Cutting a sequence in two splits its multiset in two. */
  lemma SplitMultiset<T>(s: seq<T>, k: nat)
    requires k <= |s|
    ensures multiset(s[..k]) + multiset(s[k..]) == multiset(s)
  {
    assert s == s[..k] + s[k..];
  }

  /** A play keeps the shape of the deck and never loses or creates a card. */
  lemma UseKeepsCards(s: DeckState, c: CardId)
    requires WellFormed(s) && c in s.hand
    ensures WellFormed(AfterUse(s, c))
    ensures AllCards(AfterUse(s, c)) == AllCards(s)
  {
    var i := FirstIndex(s.hand, c);
    var next := s.deck[s.deckIndex];
    UpdateMultiset(s.hand, i, next);
    UpdateMultiset(s.deck, s.deckIndex, c);
  }

  /** Exactly two slots change: the first hand slot holding `c` and the cursor slot of the deck. */
  lemma UseTouchesTwoSlots(s: DeckState, c: CardId)
    requires WellFormed(s) && c in s.hand
    ensures var r, i := AfterUse(s, c), FirstIndex(s.hand, c);
      && r.hand[i] == NextCard(s) && r.deck[s.deckIndex] == c
      && (forall j :: 0 <= j < |s.hand| && j != i ==> r.hand[j] == s.hand[j])
      && (forall j :: 0 <= j < |s.deck| && j != s.deckIndex ==> r.deck[j] == s.deck[j])
      && (forall j :: 0 <= j < i ==> s.hand[j] != c)
  {
  }

  /** The cursor advances by exactly one modulo the deck length, so after a play the next card is the
      one after the old cursor; with a one-card deck it is the card just played. */
  lemma UseAdvancesCursor(s: DeckState, c: CardId)
    requires WellFormed(s) && c in s.hand
    ensures AfterUse(s, c).deckIndex == if s.deckIndex + 1 == |s.deck| then 0 else s.deckIndex + 1
    ensures |s.deck| > 1 ==> NextCard(AfterUse(s, c)) == s.deck[(s.deckIndex + 1) % |s.deck|]
    ensures |s.deck| == 1 ==> NextCard(AfterUse(s, c)) == c
  {
    ModNext(s.deckIndex, |s.deck|);
  }

  /** A cursor below `n` moved on by one, modulo `n`, wraps only from the last slot. */
  lemma ModNext(d: nat, n: nat)
    requires d < n
    ensures (d + 1) % n == if d + 1 == n then 0 else d + 1
  {
    if d + 1 == n {
      assert (d + 1) % n == 0;
    } else {
      assert (d + 1) % n == d + 1;
    }
  }

  class PlayerDeck {
    var deck: array<CardId>
    var deckIndex: nat
    var hand: array<CardId>

    ghost predicate Valid()
      reads this
    {
      hand != deck && hand.Length == HAND_SIZE && deck.Length == |DUMMY_DECK| - HAND_SIZE
      && deckIndex < deck.Length
    }

    function State(): DeckState
      reads this, hand, deck
    {
      DeckState(hand[..], deck[..], deckIndex)
    }

    /** Shuffles a copy of the dummy deck, deals the first HAND_SIZE cards into the hand and keeps
        the rest as the deck, with the cursor at its start. */
    constructor()
      ensures Valid() && fresh(hand) && fresh(deck)
      ensures WellFormed(State()) && deckIndex == 0
      ensures AllCards(State()) == multiset(DUMMY_DECK)
    {
      var h, rest := Deal();
      hand, deck, deckIndex := h, rest, 0;
    }

    /** The shuffle and the deal of the constructor: a shuffled copy of the dummy deck, cut after
        HAND_SIZE cards. */
    static method Deal() returns (h: array<CardId>, rest: array<CardId>)
      ensures fresh(h) && fresh(rest) && h != rest
      ensures h.Length == HAND_SIZE && rest.Length == |DUMMY_DECK| - HAND_SIZE
      ensures multiset(h[..]) + multiset(rest[..]) == multiset(DUMMY_DECK)
    {
      var d := ArrayOf(DUMMY_DECK);
      Shuffle(d);
      var shuffled := d[..];
      SplitMultiset(shuffled, HAND_SIZE);
      h := ArrayOf(shuffled[..HAND_SIZE]);
      rest := ArrayOf(shuffled[HAND_SIZE..]);
    }

    static method ArrayOf(s: seq<CardId>) returns (a: array<CardId>)
      ensures fresh(a) && a[..] == s
    {
      a := new CardId[|s|](i requires 0 <= i < |s| => s[i]);
    }

    /** The CARD_HAND message: the current hand and the next card. */
    method GetHand() returns (cards: seq<CardId>, nextCard: CardId)
      requires Valid()
      ensures cards == hand[..] && |cards| == HAND_SIZE
      ensures nextCard == NextCard(State())
    {
      cards := hand[..];
      nextCard := GetNextCard();
    }

    function HasCard(c: CardId): (r: bool)
      reads this, hand
      ensures r <==> exists i :: 0 <= i < hand.Length && hand[i] == c
    {
      c in hand[..]
    }

    /** Plays a card the hand holds (the source throws otherwise). */
    method UseCard(c: CardId)
      requires Valid() && HasCard(c)
      modifies this, hand, deck
      ensures Valid() && hand == old(hand) && deck == old(deck)
      ensures State() == AfterUse(old(State()), c)
    {
      var index := FirstIndex(hand[..], c);
      hand[index] := deck[deckIndex];
      deck[deckIndex] := c;
      deckIndex := (deckIndex + 1) % deck.Length;
    }

    function GetNextCard(): (c: CardId)
      requires Valid()
      reads this, deck
      ensures c == deck[deckIndex]
    {
      deck[deckIndex]
    }

    /** Fisher-Yates shuffle; the random index drawn at each step is an arbitrary one in [0, i]. */
    static method Shuffle(a: array<CardId>)
      modifies a
      ensures multiset(a[..]) == old(multiset(a[..]))
    {
      var i := a.Length - 1;
      while i > 0
        invariant i < a.Length
        invariant multiset(a[..]) == old(multiset(a[..]))
      {
        var randIndex :| 0 <= randIndex <= i;
        a[randIndex], a[i] := a[i], a[randIndex];
        i := i - 1;
      }
    }
  }
}
