/**
 * The card-list editor: a draft form for a new card, a validated add that
 * gives the card a fresh id, delete by id and field-by-field editing of the
 * listed cards.
 */
module Manage {
  import opened Wrappers
  import opened Seqs
  import opened Data

  /** The card fields the form and the edit inputs write. */
  datatype TextField = Word | Pronunciation | Definition | Example

  /** The new-card form. */
  datatype Draft = Draft(word: string, pronunciation: string, definition: string, example: string)

  /** The form's initial and reset value. */
  const EmptyDraft := Draft("", "", "", "")

  /** One field of the form. */
  function DraftText(d: Draft, f: TextField): string {
    match f
    case Word => d.word
    case Pronunciation => d.pronunciation
    case Definition => d.definition
    case Example => d.example
  }

  /** The form with one field replaced; the other three keep their text. */
  function SetDraftField(d: Draft, f: TextField, v: string): (r: Draft)
    ensures DraftText(r, f) == v
    ensures forall g :: g != f ==> DraftText(r, g) == DraftText(d, g)
  {
    match f
    case Word => d.(word := v)
    case Pronunciation => d.(pronunciation := v)
    case Definition => d.(definition := v)
    case Example => d.(example := v)
  }

  /** One text field of a card; the pronunciation may be absent. */
  function CardText(c: Card, f: TextField): Option<string> {
    match f
    case Word => Some(c.word)
    case Pronunciation => c.pronunciation
    case Definition => Some(c.definition)
    case Example => Some(c.example)
  }

  /** `a` and `b` agree on everything except possibly field `f`. */
  ghost predicate SameExcept(a: Card, b: Card, f: TextField) {
    && a.id == b.id
    && a.categoryId == b.categoryId
    && forall g :: g != f ==> CardText(a, g) == CardText(b, g)
  }

  /** `{ ...card, [field]: value }` */
  function SetCardField(c: Card, f: TextField, v: string): (r: Card)
    ensures CardText(r, f) == Some(v)
    ensures SameExcept(r, c, f)
  {
    match f
    case Word => c.(word := v)
    case Pronunciation => c.(pronunciation := Some(v))
    case Definition => c.(definition := v)
    case Example => c.(example := v)
  }

  /** `Math.max(0, ...ids)` */
  function MaxId(cards: seq<Card>): (m: int)
    ensures 0 <= m
    ensures forall c :: c in cards ==> c.id <= m
    ensures m == 0 || exists c :: c in cards && c.id == m
    decreases |cards|
  {
    if cards == [] then 0
    else
      var rest := MaxId(cards[1..]);
      assert cards == [cards[0]] + cards[1..];
      if cards[0].id > rest then cards[0].id else rest
  }

  /** The id a new card gets: one more than the largest id, and at least 1. */
  function NextId(cards: seq<Card>): (id: int)
    ensures 1 <= id
    ensures forall c :: c in cards ==> c.id < id
    ensures id == 1 || exists c :: c in cards && c.id == id - 1
  {
    MaxId(cards) + 1
  }

  /** The form lacks one of the three required fields (the pronunciation is optional). */
  predicate MissingRequired(d: Draft)
    ensures MissingRequired(d) <==> exists f :: f != Pronunciation && DraftText(d, f) == ""
  {
    assert DraftText(d, Word) == d.word && DraftText(d, Definition) == d.definition;
    assert DraftText(d, Example) == d.example;
    d.word == "" || d.definition == "" || d.example == ""
  }

  /** The card the form describes, under the given id. */
  function CardFromDraft(id: int, d: Draft): (c: Card)
    ensures c.id == id && c.categoryId == None
    ensures forall f :: CardText(c, f) == Some(DraftText(d, f))
  {
    Card(id, d.word, d.definition, d.example, Some(d.pronunciation), None)
  }

  /**
   * The list after "add": `None` (rejected) when a required field is
   * empty, otherwise the old list with one new card at the end.
   */
  function AddCard(cards: seq<Card>, d: Draft): (r: Option<seq<Card>>)
    ensures r.None? <==> (d.word == "" || d.definition == "" || d.example == "")
    ensures r.Some? ==> |r.value| == |cards| + 1 && r.value[..|cards|] == cards
    ensures r.Some? ==>
      var n := r.value[|cards|];
      && (forall c :: c in cards ==> c.id < n.id)
      && n.id == NextId(cards)
      && n.word == d.word && n.definition == d.definition && n.example == d.example
      && n.pronunciation == Some(d.pronunciation)
      && n.categoryId == None
  {
    if MissingRequired(d) then None
    else Some(cards + [CardFromDraft(NextId(cards), d)])
  }

  /** The card test of "delete": the card's id differs from the deleted one. */
  function KeepsId(id: int): Card -> bool {
    (c: Card) => c.id != id
  }

  /** `cards.filter(card => card.id !== id)` */
  function DeleteCard(cards: seq<Card>, id: int): (r: seq<Card>)
    ensures forall c :: c in r ==> c.id != id
    ensures forall c: Card :: c.id != id ==> multiset(r)[c] == multiset(cards)[c]
    ensures IsSubsequence(r, cards)
    ensures (forall c :: c in cards ==> c.id != id) ==> r == cards
  {
    Filter(cards, KeepsId(id))
  }

  /** `cards.map(card => card.id === id ? { ...card, [field]: value } : card)` */
  function UpdateCard(cards: seq<Card>, id: int, f: TextField, v: string): (r: seq<Card>)
    ensures |r| == |cards| && Ids(r) == Ids(cards)
    ensures forall i :: 0 <= i < |cards| && cards[i].id != id ==> r[i] == cards[i]
    ensures forall i :: 0 <= i < |cards| && cards[i].id == id ==>
      CardText(r[i], f) == Some(v) && SameExcept(r[i], cards[i], f)
  {
    var r := seq(|cards|, i requires 0 <= i < |cards| =>
      if cards[i].id == id then SetCardField(cards[i], f, v) else cards[i]);
    assert Ids(r) == Ids(cards);
    r
  }

  /** A new card's id is above every existing one, so distinct ids stay distinct. */
  lemma AddKeepsDistinctIds(cards: seq<Card>, d: Draft)
    requires DistinctIds(cards)
    requires AddCard(cards, d).Some?
    ensures DistinctIds(AddCard(cards, d).value)
  {
    var r := AddCard(cards, d).value;
    forall i, j | 0 <= i < j < |r| ensures r[i].id != r[j].id {
      if j == |cards| {
        assert r[i] == cards[i];
        assert r[i] in cards;
      } else {
        assert r[i] == cards[i] && r[j] == cards[j];
      }
    }
  }

  /** Dropping the first card keeps ids distinct, and no later card shares the first one's id. */
  lemma DistinctIdsTail(cards: seq<Card>)
    requires DistinctIds(cards) && cards != []
    ensures DistinctIds(cards[1..])
    ensures forall c :: c in cards[1..] ==> c.id != cards[0].id
  {
    var tail := cards[1..];
    forall i, j | 0 <= i < j < |tail| ensures tail[i].id != tail[j].id {
      assert tail[i] == cards[i + 1] && tail[j] == cards[j + 1];
    }
    forall c | c in tail ensures c.id != cards[0].id {
      var k :| 0 <= k < |tail| && tail[k] == c;
      assert tail[k] == cards[k + 1];
    }
  }

  /** A card whose id no card of `rest` has can go in front of `rest`. */
  lemma DistinctIdsCons(c: Card, rest: seq<Card>)
    requires DistinctIds(rest)
    requires forall x :: x in rest ==> x.id != c.id
    ensures DistinctIds([c] + rest)
  {
    var r := [c] + rest;
    forall i, j | 0 <= i < j < |r| ensures r[i].id != r[j].id {
      assert r[j] == rest[j - 1];
      if i > 0 {
        assert r[i] == rest[i - 1];
      }
    }
  }

  /** Filtering a list with distinct ids keeps them distinct. */
  lemma {:induction false} FilterKeepsDistinctIds(cards: seq<Card>, p: Card -> bool)
    requires DistinctIds(cards)
    ensures DistinctIds(Filter(cards, p))
    decreases |cards|
  {
    if cards != [] {
      DistinctIdsTail(cards);
      FilterKeepsDistinctIds(cards[1..], p);
      var rest := Filter(cards[1..], p);
      if p(cards[0]) {
        DistinctIdsCons(cards[0], rest);
        assert Filter(cards, p) == [cards[0]] + rest;
      } else {
        assert Filter(cards, p) == rest;
      }
    }
  }

  /** Deleting keeps ids distinct. */
  lemma DeleteKeepsDistinctIds(cards: seq<Card>, id: int)
    requires DistinctIds(cards)
    ensures DistinctIds(DeleteCard(cards, id))
  {
    FilterKeepsDistinctIds(cards, KeepsId(id));
  }

  /** Editing a field never touches ids, so it keeps them distinct. */
  lemma UpdateKeepsDistinctIds(cards: seq<Card>, id: int, f: TextField, v: string)
    requires DistinctIds(cards)
    ensures DistinctIds(UpdateCard(cards, id, f, v))
  {
    var r := UpdateCard(cards, id, f, v);
    forall i, j | 0 <= i < j < |r| ensures r[i].id != r[j].id {
      assert Ids(r)[i] == Ids(cards)[i] && Ids(r)[j] == Ids(cards)[j];
    }
  }

  /** The editor page's state. */
  class ManageFlashcards {
    var cards: seq<Card>
    var newCard: Draft
    var editMode: bool

    /** Every card has its own id. */
    ghost predicate Valid()
      reads this
    {
      DistinctIds(cards)
    }

    constructor (catalog: seq<Card>)
      ensures cards == catalog && newCard == EmptyDraft && !editMode
      ensures Valid() <==> DistinctIds(catalog)
    {
      cards := catalog;
      newCard := EmptyDraft;
      editMode := false;
    }

    /** Typing into one field of the new-card form. */
    method HandleNewCardChange(f: TextField, v: string)
      modifies this
      ensures newCard == SetDraftField(old(newCard), f, v)
      ensures cards == old(cards) && editMode == old(editMode)
    {
      newCard := SetDraftField(newCard, f, v);
    }

    /**
     * "Add Flashcard": rejected, with nothing changed, when a required field
     * is empty; otherwise the card is appended and the form is cleared.
     */
    method HandleAddCard() returns (added: bool)
      modifies this
      ensures added <==> !MissingRequired(old(newCard))
      ensures !added ==> cards == old(cards) && newCard == old(newCard)
      ensures added ==> Some(cards) == AddCard(old(cards), old(newCard)) && newCard == EmptyDraft
      ensures editMode == old(editMode)
      ensures old(Valid()) ==> Valid()
    {
      var r := AddCard(cards, newCard);
      if r.None? {
        return false;
      }
      if Valid() {
        AddKeepsDistinctIds(cards, newCard);
      }
      cards := r.value;
      newCard := EmptyDraft;
      added := true;
    }

    /** Deleting every card with the given id. */
    method HandleDeleteCard(id: int)
      modifies this
      ensures cards == DeleteCard(old(cards), id)
      ensures newCard == old(newCard) && editMode == old(editMode)
      ensures old(Valid()) ==> Valid()
    {
      if Valid() {
        DeleteKeepsDistinctIds(cards, id);
      }
      cards := DeleteCard(cards, id);
    }

    /** Editing one field of the cards with the given id. */
    method HandleUpdateCard(id: int, f: TextField, v: string)
      modifies this
      ensures cards == UpdateCard(old(cards), id, f, v)
      ensures newCard == old(newCard) && editMode == old(editMode)
      ensures old(Valid()) ==> Valid()
    {
      if Valid() {
        UpdateKeepsDistinctIds(cards, id, f, v);
      }
      cards := UpdateCard(cards, id, f, v);
    }

    /** The "Edit Mode" / "View Mode" button. */
    method ToggleEditMode()
      modifies this
      ensures editMode == !old(editMode)
      ensures cards == old(cards) && newCard == old(newCard)
    {
      editMode := !editMode;
    }
  }
}
