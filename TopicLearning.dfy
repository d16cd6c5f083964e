/**
 * The topic study page: on load it looks the route's topic up, sends the
 * user back to the topic list when there is none, and otherwise keeps the
 * catalog cards of the topic's categories for the deck.
 */
module TopicLearning {
  import opened Wrappers
  import opened Seqs
  import opened Data

  /** What the page's load effect decides. */
  datatype Navigation = Redirect(path: string) | Show(topic: Topic, cards: seq<Card>)

  /** What the page renders. */
  datatype Screen = Loading | NoFlashcards(topic: Topic) | DeckScreen(topic: Topic, cards: seq<Card>)

  /** The route the page sends the user to when the topic is unknown. */
  const TopicsPath := "/topics"

  /** The topic test of `find`: the topic has the wanted id. */
  function HasId(id: string): Topic -> bool {
    (t: Topic) => t.id == id
  }

  /** `topics.find(t => t.id === id)` */
  function FindTopic(topics: seq<Topic>, id: string): (r: Option<Topic>)
    ensures r.None? <==> forall i :: 0 <= i < |topics| ==> topics[i].id != id
    ensures r.Some? ==> exists i :: FirstMatchAt(topics, HasId(id), i) && topics[i] == r.value
    ensures r.Some? ==> r.value in topics && r.value.id == id
  {
    Find(topics, HasId(id))
  }

  /** The card test of the topic filter: the card's category, or `""` for none, is one of the topic's. */
  function InTopic(topic: Topic): Card -> bool {
    (c: Card) => c.categoryId.GetOr("") in topic.categoryIds
  }

  /**
   * The catalog cards whose category belongs to the topic, in catalog
   * order. A card without a category counts as having category `""`.
   */
  function TopicCards(topic: Topic, cards: seq<Card>): (r: seq<Card>)
    ensures IsSubsequence(r, cards)
    ensures forall c :: multiset(r)[c] == if InTopic(topic)(c) then multiset(cards)[c] else 0
    ensures forall c :: c in cards && c.categoryId.Some? ==>
      (c in r <==> c.categoryId.value in topic.categoryIds)
    ensures forall c :: c in cards && c.categoryId.None? ==>
      (c in r <==> "" in topic.categoryIds)
  {
    Filter(cards, InTopic(topic))
  }

  /**
   * The load effect's decision: a missing or empty route id, or one no
   * topic has, redirects to the topic list; otherwise the first topic with
   * that id is shown with its cards.
   */
  function Load(topicId: Option<string>, topics: seq<Topic>, catalog: seq<Card>): (r: Navigation)
    ensures r.Redirect? <==>
      || topicId.None?
      || topicId.value == ""
      || forall i :: 0 <= i < |topics| ==> topics[i].id != topicId.value
    ensures r.Redirect? ==> r.path == TopicsPath
    ensures r.Show? ==>
      && topicId.Some?
      && r.topic.id == topicId.value
      && (exists i :: FirstMatchAt(topics, HasId(topicId.value), i) && topics[i] == r.topic)
      && r.cards == TopicCards(r.topic, catalog)
  {
    if topicId.None? || topicId.value == "" then Redirect(TopicsPath)
    else
      match FindTopic(topics, topicId.value)
      case None => Redirect(TopicsPath)
      case Some(t) => Show(t, TopicCards(t, catalog))
  }

  /**
   * The page's rendering decision: "Loading..." until a topic is loaded,
   * then the deck, or the "No flashcards available" message when the topic
   * has no cards.
   */
  function ScreenFor(loading: bool, topic: Option<Topic>, flashcards: seq<Card>): (s: Screen)
    ensures s.Loading? <==> loading || topic.None?
    ensures s.NoFlashcards? <==> !loading && topic.Some? && flashcards == []
    ensures s.NoFlashcards? ==> s.topic == topic.value
    ensures s.DeckScreen? ==> s.topic == topic.value && s.cards == flashcards && |flashcards| > 0
  {
    if loading || topic.None? then Loading
    else if |flashcards| > 0 then DeckScreen(topic.value, flashcards)
    else NoFlashcards(topic.value)
  }

  /** The page's state: the route parameter, the data it reads, and what the effect writes. */
  class TopicLearningPage {
    const topicId: Option<string>
    const topics: seq<Topic>
    const catalog: seq<Card>
    var topic: Option<Topic>
    var flashcards: seq<Card>
    var loading: bool

    /** The initial state: the topic looked up from the route, no cards, loading. */
    constructor (topicId: Option<string>, topics: seq<Topic>, catalog: seq<Card>)
      ensures this.topicId == topicId && this.topics == topics && this.catalog == catalog
      ensures topic == (if topicId.Some? then FindTopic(topics, topicId.value) else None)
      ensures flashcards == [] && loading
    {
      this.topicId := topicId;
      this.topics := topics;
      this.catalog := catalog;
      topic := if topicId.Some? then FindTopic(topics, topicId.value) else None;
      flashcards := [];
      loading := true;
    }

    /** What the page renders in its current state. */
    function Screen(): Screen
      reads this
    {
      ScreenFor(loading, topic, flashcards)
    }

    /**
     * The load effect. A redirect changes no state (the page stays on
     * "Loading..." while it navigates away); otherwise the topic and its
     * cards are stored and loading ends.
     */
    method RunEffect() returns (navigateTo: Option<string>)
      modifies this
      ensures navigateTo.Some? <==> Load(topicId, topics, catalog).Redirect?
      ensures navigateTo.Some? ==>
        navigateTo.value == TopicsPath &&
        topic == old(topic) && flashcards == old(flashcards) && loading == old(loading)
      ensures navigateTo.None? ==>
        var n := Load(topicId, topics, catalog);
        topic == Some(n.topic) && flashcards == n.cards && !loading
    {
      if topicId.None? || topicId.value == "" {
        return Some(TopicsPath);
      }
      var found := FindTopic(topics, topicId.value);
      if found.None? {
        return Some(TopicsPath);
      }
      topic := found;
      flashcards := TopicCards(found.value, catalog);
      loading := false;
      navigateTo := None;
    }
  }

  /** A route without a topic id navigates to the topic list; the page stays on "Loading...". */
  method MissingRouteId(topics: seq<Topic>, catalog: seq<Card>) {
    var page := new TopicLearningPage(None, topics, catalog);
    var to := page.RunEffect();
    assert to == Some(TopicsPath) && page.Screen() == Loading;
  }

  /** A topic found by its id, with no card in its categories, shows "No flashcards available". */
  method TopicWithoutCards(t: Topic)
    requires t.id != ""
  {
    var page := new TopicLearningPage(Some(t.id), [t], []);
    var to := page.RunEffect();
    assert FirstMatchAt([t], HasId(t.id), 0);
    assert to == None && page.Screen() == NoFlashcards(t);
  }

  /** A topic whose category holds a card shows the deck with that card. */
  method TopicWithOneCard(t: Topic, c: Card)
    requires t.id != "" && c.categoryId.Some? && c.categoryId.value in t.categoryIds
  {
    var page := new TopicLearningPage(Some(t.id), [t], [c]);
    var to := page.RunEffect();
    assert FirstMatchAt([t], HasId(t.id), 0);
    assert to == None && page.Screen() == DeckScreen(t, [c]);
  }
}
