/**
 * Client code driving the deck the way the page does: after every event the
 * completion effect settles. Only the contracts of the deck are used.
 */
module DeckScenarios {
  import opened Wrappers
  import opened Seqs
  import opened Data
  import opened Deck

  /**
   * Three cards walked to the end. The third "next" completes the deck on
   * its own: the effect has nothing to re-run, so the flag survives. Reset
   * starts over.
   */
  method ThreeCardWalk(a: Card, b: Card, c: Card) {
    var d := new FlashcardDeck([a, b, c]);
    d.HandleNext();
    var t := d.Settle();
    assert d.currentIndex == 1 && !d.deckComplete;
    d.HandleNext();
    t := d.Settle();
    assert d.currentIndex == 2 && !d.deckComplete;
    d.HandleNext();
    t := d.Settle();
    assert d.currentIndex == 2 && d.deckComplete && t == None;
    var r := d.ResetDeck();
    t := d.Settle();
    assert d.currentIndex == 0 && !d.deckComplete;
  }

  /** Review mode with nothing flagged only warns. */
  method NothingToReview(cards: seq<Card>) {
    var d := new FlashcardDeck(cards);
    var toast := d.ToggleReviewMode();
    assert toast == NoCardsToReview && !d.showReviewMode && d.currentIndex == 0;
  }

  /**
   * Flag the second card and enter review mode: the deck shows just that
   * card, from the start, not complete.
   */
  method ReviewOneCard(a: Card, b: Card, c: Card)
    requires a.id == 1 && b.id == 2 && c.id == 3
  {
    var d := new FlashcardDeck([a, b, c]);
    d.HandleUnknown(2);
    var t := d.Settle();
    assert d.reviewCards == [2];
    var toast := d.ToggleReviewMode();
    t := d.Settle();
    OneFlaggedCard(a, b, c);
    assert d.Active() == [b];
    assert toast == Reviewing(1) && d.currentIndex == 0 && !d.deckComplete;
  }

  /**
   * Marking the only review card known: "next" sets the completion flag,
   * but the review list is now empty, so the effect runs and clears it.
   */
  method LastReviewCardKnown(d: FlashcardDeck, id: int)
    requires d.Valid() && d.Committed()
    requires d.showReviewMode && d.reviewCards == [id] && |d.Active()| == 1
    modifies d
  {
    d.MarkKnownThenNext(id);
    assert d.deckComplete;
    var t := d.Settle();
    assert d.reviewCards == [] && d.Active() == [];
    assert !d.deckComplete && t == None;
  }

  /** With only the second of three cards flagged, review mode shows just that card. */
  lemma OneFlaggedCard(a: Card, b: Card, c: Card)
    requires a.id == 1 && b.id == 2 && c.id == 3
    ensures ActiveCards([a, b, c], [2], true) == [b]
  {
    var flagged := IsFlagged([2]);
    assert !flagged(a) && flagged(b) && !flagged(c);
    assert [a, b, c][1..] == [b, c] && [b, c][1..] == [c] && [c][1..] == [];
    assert Filter([c], flagged) == [];
    assert Filter([b, c], flagged) == [b];
  }

  /** Marking a card known and then unknown leaves its id in both lists. */
  method KnownThenUnknown(cards: seq<Card>, id: int) {
    var d := new FlashcardDeck(cards);
    d.HandleKnown(id);
    d.HandleUnknown(id);
    assert id in d.knownCards && id in d.reviewCards;
  }
}
