/**
 * The records the pages and the deck work on: flashcards, categories and
 * learning topics. The catalog that supplies them is an input of the model.
 */
module Data {
  import opened Wrappers
  import opened Seqs

  /**
   * A flashcard. `categoryId` is not declared by the card interface but is
   * carried by the catalog's records and read by the topic page.
   */
  datatype Card = Card(
    id: int,
    word: string,
    definition: string,
    example: string,
    pronunciation: Option<string>,
    categoryId: Option<string>)

  /** A card category with its display name and color class. */
  datatype Category = Category(id: string, name: string, color: string)

  /** A learning topic: a named group of categories. */
  datatype Topic = Topic(id: string, name: string, description: Option<string>, categoryIds: seq<string>)

  /** The ids of `cards`, position by position. */
  function Ids(cards: seq<Card>): (r: seq<int>)
    ensures |r| == |cards|
    ensures forall i :: 0 <= i < |cards| ==> r[i] == cards[i].id
    decreases |cards|
  {
    if cards == [] then [] else [cards[0].id] + Ids(cards[1..])
  }

  /** No two cards share an id. */
  ghost predicate DistinctIds(cards: seq<Card>) {
    forall i, j :: 0 <= i < j < |cards| ==> cards[i].id != cards[j].id
  }
}
