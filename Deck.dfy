/**
 * The review deck: a position in the list of active cards, the ids marked
 * known and the ids flagged for review, the review-mode switch, and the
 * completion flag and progress value that an effect recomputes whenever the
 * position, the number of active cards or the mode has changed.
 */
module Deck {
  import opened Wrappers
  import opened Seqs
  import opened Data

  /** The card test of review mode: the card's id is flagged for review. */
  function IsFlagged(reviewCards: seq<int>): Card -> bool {
    (c: Card) => c.id in reviewCards
  }

  /** The same test on a bare id. */
  function IdFlagged(reviewCards: seq<int>): int -> bool {
    (id: int) => id in reviewCards
  }

  /**
   * The cards the deck steps through: all of them, or in review mode those
   * whose id is flagged, in catalog order.
   */
  function ActiveCards(cards: seq<Card>, reviewCards: seq<int>, showReviewMode: bool): (r: seq<Card>)
    ensures !showReviewMode ==> r == cards
    ensures showReviewMode ==> IsSubsequence(r, cards)
    ensures showReviewMode ==>
      forall c :: multiset(r)[c] == if c.id in reviewCards then multiset(cards)[c] else 0
    ensures showReviewMode ==> forall c :: c in r <==> c in cards && c.id in reviewCards
  {
    if showReviewMode then Filter(cards, IsFlagged(reviewCards)) else cards
  }

  /** The ids of the review-mode cards are the flagged ids of the catalog, in catalog order. */
  lemma {:induction false} ActiveIds(cards: seq<Card>, reviewCards: seq<int>)
    ensures Ids(ActiveCards(cards, reviewCards, true)) == Filter(Ids(cards), IdFlagged(reviewCards))
    decreases |cards|
  {
    if cards != [] {
      ActiveIds(cards[1..], reviewCards);
      assert Ids(cards)[1..] == Ids(cards[1..]);
      var rest := Filter(cards[1..], IsFlagged(reviewCards));
      if cards[0].id in reviewCards {
        assert Ids([cards[0]] + rest) == [cards[0].id] + Ids(rest);
      }
    }
  }

  /**
   * When every flagged id belongs to exactly one catalog card, review mode
   * shows as many cards as there are flagged ids: the count that the review
   * toast and the "reviewed all" message print.
   */
  lemma ReviewCountMatchesActive(cards: seq<Card>, reviewCards: seq<int>)
    requires DistinctIds(cards)
    requires NoDup(reviewCards)
    requires forall id :: id in reviewCards ==> id in Ids(cards)
    ensures |ActiveCards(cards, reviewCards, true)| == |reviewCards|
  {
    var ids := Ids(cards);
    var flagged := Filter(ids, IdFlagged(reviewCards));
    assert |ActiveCards(cards, reviewCards, true)| == |flagged| by {
      ActiveIds(cards, reviewCards);
    }
    assert NoDup(flagged) by {
      assert NoDup(ids);
      FilterKeepsNoDup(ids, IdFlagged(reviewCards));
    }
    assert (set x | x in flagged) == (set x | x in reviewCards) by {
      forall x ensures x in flagged <==> x in reviewCards {
        assert x in flagged <==> x in ids && IdFlagged(reviewCards)(x);
      }
    }
    NoDupCardinality(flagged);
    NoDupCardinality(reviewCards);
  }

  /**
   * The progress bar's value for a position in a non-empty list of cards: the
   * percentage of the list before the position.
   */
  function Progress(index: int, length: nat): (r: real)
    requires length > 0
    ensures r * length as real == index as real * 100.0
    ensures 0 <= index ==> 0.0 <= r
    ensures index < length ==> r < 100.0
  {
    var q := index as real / length as real;
    assert q * length as real == index as real;
    q * 100.0
  }

  /** The values the completion effect depends on. */
  datatype Deps = Deps(index: int, activeLength: nat, reviewMode: bool)

  /** The notifications the deck raises. */
  datatype Toast =
    | DeckCompleteToast
    | ReviewCompleteToast
    | ShowingAllCards
    | NoCardsToReview
    | Reviewing(count: nat)
    | DeckReset

  class FlashcardDeck {
    const cards: seq<Card>
    var currentIndex: int
    var knownCards: seq<int>
    var reviewCards: seq<int>
    var showReviewMode: bool
    var deckComplete: bool
    var progress: real
    /** The dependency values the completion effect last ran with; `None` before the first run. */
    var lastDeps: Option<Deps>

    function Active(): seq<Card>
      reads this
    {
      ActiveCards(cards, reviewCards, showReviewMode)
    }

    function CurrentDeps(): Deps
      reads this
    {
      Deps(currentIndex, |Active()|, showReviewMode)
    }

    /** The effect has run for the current dependency values. */
    predicate Settled()
      reads this
    {
      lastDeps == Some(CurrentDeps())
    }

    /**
     * Invariants every reachable state keeps. Outside review mode the
     * position is the first card or a card of the list: "next" stops at the
     * last card and the list never shrinks.
     */
    ghost predicate Valid()
      reads this
    {
      && 0 <= currentIndex
      && (!showReviewMode ==> currentIndex == 0 || currentIndex < |cards|)
      && NoDup(knownCards)
      && NoDup(reviewCards)
      && 0.0 <= progress
    }

    /**
     * What holds while the effect has nothing to do: a position past the last
     * card of a non-empty list is complete, a complete deck sits at or past
     * its last card, and the progress value belongs to the current position.
     */
    ghost predicate Coherent()
      reads this
    {
      Settled() ==>
        && (0 < |Active()| <= currentIndex ==> deckComplete)
        && (deckComplete ==> currentIndex >= |Active()| - 1)
        && (0 < |Active()| ==> progress == Progress(currentIndex, |Active()|))
    }

    /** The state of a committed render whose effects have run. */
    ghost predicate Committed()
      reads this
    {
      Settled() && Coherent()
    }

    /** Mounting the deck: the initial state, then the effect's first run. */
    constructor (cards: seq<Card>)
      ensures this.cards == cards
      ensures currentIndex == 0 && knownCards == [] && reviewCards == []
      ensures !showReviewMode && !deckComplete && progress == 0.0
      ensures Valid() && Committed()
    {
      this.cards := cards;
      currentIndex := 0;
      knownCards := [];
      reviewCards := [];
      showReviewMode := false;
      deckComplete := false;
      progress := 0.0;
      lastDeps := None;
      new;
      var _ := Settle();
    }

    /**
     * The completion effect. It runs only when the position, the number of
     * active cards or the mode differs from its last run; then it recomputes
     * the progress (only for a non-empty list) and the completion flag.
     */
    method Settle() returns (toast: Option<Toast>)
      requires Valid()
      modifies this
      ensures Valid() && Settled()
      ensures old(Coherent()) || !old(Settled()) ==> Committed()
      ensures toast != Some(DeckCompleteToast)
      ensures currentIndex == old(currentIndex) && knownCards == old(knownCards)
      ensures reviewCards == old(reviewCards) && showReviewMode == old(showReviewMode)
      ensures old(Settled()) ==>
        deckComplete == old(deckComplete) && progress == old(progress) && toast == None
      ensures !old(Settled()) ==>
        && deckComplete == (currentIndex >= |Active()| && |Active()| > 0)
        && progress == (if |Active()| > 0 then Progress(currentIndex, |Active()|) else old(progress))
        && toast == (if deckComplete
                     then Some(if showReviewMode then ReviewCompleteToast else DeckCompleteToast)
                     else None)
    {
      toast := None;
      if !Settled() {
        var n := |Active()|;
        if n > 0 {
          progress := Progress(currentIndex, n);
        }
        if currentIndex >= n && n > 0 {
          deckComplete := true;
          toast := Some(if showReviewMode then ReviewCompleteToast else DeckCompleteToast);
        } else {
          deckComplete := false;
        }
        lastDeps := Some(CurrentDeps());
      }
    }

    /** Next card, or at the last card (or beyond it) mark the deck complete. */
    method HandleNext()
      requires Valid()
      modifies this
      ensures Valid()
      ensures old(Committed()) ==> Coherent()
      ensures knownCards == old(knownCards) && reviewCards == old(reviewCards)
      ensures showReviewMode == old(showReviewMode) && progress == old(progress)
      ensures lastDeps == old(lastDeps)
      ensures if old(currentIndex) < |Active()| - 1
              then currentIndex == old(currentIndex) + 1 && deckComplete == old(deckComplete)
              else currentIndex == old(currentIndex) && deckComplete
    {
      if currentIndex < |Active()| - 1 {
        currentIndex := currentIndex + 1;
      } else {
        deckComplete := true;
      }
    }

    /** Previous card; nothing at the first card, so the position never goes below 0. */
    method HandlePrevious()
      requires Valid()
      modifies this
      ensures Valid()
      ensures old(Committed()) ==> Coherent()
      ensures knownCards == old(knownCards) && reviewCards == old(reviewCards)
      ensures showReviewMode == old(showReviewMode) && deckComplete == old(deckComplete)
      ensures progress == old(progress) && lastDeps == old(lastDeps)
      ensures currentIndex == if old(currentIndex) > 0 then old(currentIndex) - 1 else old(currentIndex)
    {
      if currentIndex > 0 {
        currentIndex := currentIndex - 1;
      }
    }

    /** Mark a card known: add its id to the known list, drop it from the review list. */
    method HandleKnown(id: int)
      requires Valid()
      modifies this
      ensures Valid()
      ensures old(Committed()) ==> Coherent()
      ensures knownCards == AppendIfAbsent(old(knownCards), id)
      ensures reviewCards == Without(old(reviewCards), id)
      ensures currentIndex == old(currentIndex) && showReviewMode == old(showReviewMode)
      ensures deckComplete == old(deckComplete) && progress == old(progress)
      ensures lastDeps == old(lastDeps)
    {
      knownCards := AppendIfAbsent(knownCards, id);
      reviewCards := Without(reviewCards, id);
    }

    /** Flag a card for review. The known list is left as it is. */
    method HandleUnknown(id: int)
      requires Valid()
      modifies this
      ensures Valid()
      ensures old(Committed()) ==> Coherent()
      ensures reviewCards == AppendIfAbsent(old(reviewCards), id)
      ensures knownCards == old(knownCards)
      ensures currentIndex == old(currentIndex) && showReviewMode == old(showReviewMode)
      ensures deckComplete == old(deckComplete) && progress == old(progress)
      ensures lastDeps == old(lastDeps)
    {
      reviewCards := AppendIfAbsent(reviewCards, id);
    }

    /**
     * Leave review mode, or enter it when some card is flagged; either way
     * back to the first card. With nothing flagged, only a warning.
     */
    method ToggleReviewMode() returns (toast: Toast)
      requires Valid()
      modifies this
      ensures Valid()
      ensures old(Committed()) ==> Coherent()
      ensures knownCards == old(knownCards) && reviewCards == old(reviewCards)
      ensures deckComplete == old(deckComplete) && progress == old(progress)
      ensures lastDeps == old(lastDeps)
      ensures old(showReviewMode) ==>
        !showReviewMode && currentIndex == 0 && toast == ShowingAllCards
      ensures !old(showReviewMode) && old(reviewCards) == [] ==>
        !showReviewMode && currentIndex == old(currentIndex) && toast == NoCardsToReview
      ensures !old(showReviewMode) && old(reviewCards) != [] ==>
        showReviewMode && currentIndex == 0 && toast == Reviewing(|reviewCards|)
    {
      if showReviewMode {
        showReviewMode := false;
        currentIndex := 0;
        toast := ShowingAllCards;
      } else {
        if |reviewCards| == 0 {
          toast := NoCardsToReview;
          return;
        }
        showReviewMode := true;
        currentIndex := 0;
        toast := Reviewing(|reviewCards|);
      }
    }

    /** Back to the first card, not complete; the known and review lists stay. */
    method ResetDeck() returns (toast: Toast)
      requires Valid()
      modifies this
      ensures Valid()
      ensures old(Committed()) ==> Coherent()
      ensures currentIndex == 0 && !deckComplete && toast == DeckReset
      ensures knownCards == old(knownCards) && reviewCards == old(reviewCards)
      ensures showReviewMode == old(showReviewMode) && progress == old(progress)
      ensures lastDeps == old(lastDeps)
    {
      currentIndex := 0;
      deckComplete := false;
      toast := DeckReset;
    }

    /** The card's "known" button: mark the card known, then move on. */
    method MarkKnownThenNext(id: int)
      requires Valid()
      modifies this
      ensures Valid()
      ensures old(Committed()) ==> Coherent()
      ensures knownCards == AppendIfAbsent(old(knownCards), id)
      ensures reviewCards == Without(old(reviewCards), id)
      ensures showReviewMode == old(showReviewMode) && progress == old(progress)
      ensures lastDeps == old(lastDeps)
      ensures if old(currentIndex) < |Active()| - 1
              then currentIndex == old(currentIndex) + 1 && deckComplete == old(deckComplete)
              else currentIndex == old(currentIndex) && deckComplete
    {
      HandleKnown(id);
      HandleNext();
    }

    /** The card's "review" button: flag the card, then move on. */
    method MarkUnknownThenNext(id: int)
      requires Valid()
      modifies this
      ensures Valid()
      ensures old(Committed()) ==> Coherent()
      ensures reviewCards == AppendIfAbsent(old(reviewCards), id)
      ensures knownCards == old(knownCards)
      ensures showReviewMode == old(showReviewMode) && progress == old(progress)
      ensures lastDeps == old(lastDeps)
      ensures if old(currentIndex) < |Active()| - 1
              then currentIndex == old(currentIndex) + 1 && deckComplete == old(deckComplete)
              else currentIndex == old(currentIndex) && deckComplete
    {
      HandleUnknown(id);
      HandleNext();
    }
  }
}
