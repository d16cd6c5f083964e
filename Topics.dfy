/**
 * The topic list page: a case-insensitive search over topic names and
 * descriptions, and the category name and color lookups the topic cards
 * display.
 */
module Topics {
  import opened Wrappers
  import opened Seqs
  import opened Data

  /** Lower-case of one character (ASCII letters only). */
  function LowerChar(ch: char): char {
    if 'A' <= ch <= 'Z' then (ch as int + 32) as char else ch
  }

  /** `s.toLowerCase()`, character by character. */
  function ToLower(s: string): (r: string)
    ensures |r| == |s|
    ensures forall i :: 0 <= i < |r| ==> !('A' <= r[i] <= 'Z')
    ensures forall i :: 0 <= i < |s| && 'A' <= s[i] <= 'Z' ==> r[i] as int == s[i] as int + 32
    ensures forall i :: 0 <= i < |s| && !('A' <= s[i] <= 'Z') ==> r[i] == s[i]
  {
    seq(|s|, i requires 0 <= i < |s| => LowerChar(s[i]))
  }

  /** Lowering twice is lowering once. */
  lemma ToLowerIdempotent(s: string)
    ensures ToLower(ToLower(s)) == ToLower(s)
  {
  }

  /** `q` occurs in `s` starting at position `i`. */
  ghost predicate OccursAt(s: string, q: string, i: int) {
    0 <= i && i + |q| <= |s| && s[i..i + |q|] == q
  }

  /** `q` occurs somewhere in `s`. */
  ghost predicate IsSubstring(q: string, s: string) {
    exists i :: OccursAt(s, q, i)
  }

  /** `s.includes(q)`: `q` is a prefix of `s` or of one of its suffixes. */
  function Includes(s: string, q: string): (r: bool)
    ensures q == [] ==> r
    ensures r ==> |q| <= |s|
    decreases |s|
  {
    q <= s || (s != [] && Includes(s[1..], q))
  }

  /** An occurrence in the tail of `s` is an occurrence in `s` one position later. */
  lemma OccursInTail(s: string, q: string, i: int)
    requires s != [] && 0 <= i
    ensures OccursAt(s[1..], q, i) <==> OccursAt(s, q, i + 1)
  {
    if i + |q| <= |s| - 1 {
      assert s[1..][i..i + |q|] == s[i + 1..i + 1 + |q|];
    }
  }

  /** `Includes` decides substring occurrence. */
  lemma {:induction false} IncludesIsSubstring(s: string, q: string)
    ensures Includes(s, q) <==> IsSubstring(q, s)
    decreases |s|
  {
    if q <= s {
      assert OccursAt(s, q, 0);
    } else if s != [] {
      IncludesIsSubstring(s[1..], q);
      if IsSubstring(q, s[1..]) {
        var i :| OccursAt(s[1..], q, i);
        OccursInTail(s, q, i);
      }
      if IsSubstring(q, s) {
        var i :| OccursAt(s, q, i);
        assert i != 0;
        OccursInTail(s, q, i - 1);
      }
    }
  }

  /** The search test: the lowered query occurs in the lowered name or in the lowered description. */
  predicate Matches(t: Topic, query: string)
    ensures query == [] ==> Matches(t, query)
    ensures Matches(t, query) ==>
      |query| <= |t.name| || (t.description.Some? && |query| <= |t.description.value|)
  {
    var q := ToLower(query);
    || Includes(ToLower(t.name), q)
    || (t.description.Some? && Includes(ToLower(t.description.value), q))
  }

  /** The search test as a filter argument. */
  function MatchesQuery(query: string): Topic -> bool {
    (t: Topic) => Matches(t, query)
  }

  /** A topic matches exactly when the query, lowered, occurs in its name or in its description, lowered. */
  lemma MatchesMeaning(t: Topic, query: string)
    ensures Matches(t, query) <==>
      || IsSubstring(ToLower(query), ToLower(t.name))
      || (t.description.Some? && IsSubstring(ToLower(query), ToLower(t.description.value)))
  {
    IncludesIsSubstring(ToLower(t.name), ToLower(query));
    if t.description.Some? {
      IncludesIsSubstring(ToLower(t.description.value), ToLower(query));
    }
  }

  /** The topics the search keeps: the matching ones, in their list order. */
  function FilterTopics(topics: seq<Topic>, query: string): (r: seq<Topic>)
    ensures IsSubsequence(r, topics)
    ensures forall t :: multiset(r)[t] == if Matches(t, query) then multiset(topics)[t] else 0
    ensures forall t :: t in r <==> t in topics && Matches(t, query)
  {
    Filter(topics, MatchesQuery(query))
  }

  /** An empty search keeps every topic. */
  lemma EmptyQueryKeepsAll(topics: seq<Topic>)
    ensures FilterTopics(topics, "") == topics
  {
    forall i | 0 <= i < |topics| ensures Matches(topics[i], "") {
      assert ToLower("") == "";
    }
  }

  /** A topic without a description matches on its name alone. */
  lemma NoDescriptionMatchesOnName(t: Topic, query: string)
    requires t.description.None?
    ensures Matches(t, query) <==> IsSubstring(ToLower(query), ToLower(t.name))
  {
    MatchesMeaning(t, query);
  }

  /** The search ignores the case of the query. */
  lemma SearchIgnoresQueryCase(t: Topic, query: string)
    ensures Matches(t, ToLower(query)) == Matches(t, query)
  {
    ToLowerIdempotent(query);
  }

  /** "No topics found" shows exactly when no topic matches. */
  lemma NoTopicsFound(topics: seq<Topic>, query: string)
    ensures FilterTopics(topics, query) == [] <==> forall i :: 0 <= i < |topics| ==> !Matches(topics[i], query)
  {
    var r := FilterTopics(topics, query);
    if r != [] {
      assert r[0] in r;
    }
    if exists i :: 0 <= i < |topics| && Matches(topics[i], query) {
      var i :| 0 <= i < |topics| && Matches(topics[i], query);
      assert topics[i] in r;
    }
  }

  /** The category test of `find`: the category has the wanted id. */
  function HasCategoryId(id: string): Category -> bool {
    (c: Category) => c.id == id
  }

  /** The name of the first category with the given id, or `""` when there is none. */
  function CategoryName(categories: seq<Category>, id: string): (r: string)
    ensures (forall i :: 0 <= i < |categories| ==> categories[i].id != id) ==> r == ""
    ensures forall i :: FirstMatchAt(categories, HasCategoryId(id), i) ==> r == categories[i].name
  {
    match Find(categories, HasCategoryId(id))
    case Some(c) => c.name
    case None => ""
  }

  /** The color of the first category with the given id, or `""` when there is none. */
  function CategoryColor(categories: seq<Category>, id: string): (r: string)
    ensures (forall i :: 0 <= i < |categories| ==> categories[i].id != id) ==> r == ""
    ensures forall i :: FirstMatchAt(categories, HasCategoryId(id), i) ==> r == categories[i].color
  {
    match Find(categories, HasCategoryId(id))
    case Some(c) => c.color
    case None => ""
  }
}
