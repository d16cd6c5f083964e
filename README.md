# WordFlow flashcards: a Dafny model of the study and editing logic

WordFlow is a browser flashcard app for learning English vocabulary. This
project models the parts of it that hold sequential logic. All other code is
presentation.

- **The review deck** (`Deck`, `FlashcardDeck.tsx`). It tracks the position in
  the active cards, the ids marked known, the ids flagged for review, the
  review-mode switch, and the completion flag and progress value that an
  effect recomputes. It is a class whose methods are the deck's handlers.
  `Settle` models the effect. The effect runs only when the position, the
  number of active cards or the mode differs from the values it last ran with
  (`lastDeps`). Because of that rule, the completion flag that "next" sets on
  the last card survives. The constructor covers mount plus the effect's
  first run.
- **The card-list editor** (`Manage`, `ManageFlashcards.tsx`). It covers the
  new-card form, the validated add with fresh id `max(0, ids) + 1`, delete by
  id, per-field edits and the edit-mode switch. The list operations are pure
  functions. The page's state is a class whose handlers assign their results.
- **The topic study page** (`TopicLearning`, `TopicLearningPage.tsx`). It
  looks up the route's topic, redirects to `/topics` when the topic is
  missing, and otherwise keeps the catalog cards whose category belongs to
  the topic. Navigation is a returned `Navigation` value. `ScreenFor` is the
  page's choice between loading, "No flashcards available" and the deck.
- **The topic list** (`Topics`, `TopicsPage.tsx`). It covers the
  case-insensitive substring search over topic name and optional
  description, and the first-match category name and color lookups, which
  fall back to `""`.

`Seqs` defines the array operations these share: `filter`, `find`,
"append unless included" and "remove every occurrence". It also defines
order-preserving subsequence and duplicate-freedom, which are used to state
their contracts. `Data` holds the records. `DeckScenarios` drives the deck
through the event sequences the pages produce. After every event the effect
settles, and the sequences do or do not complete the deck.

Every event handler keeps the invariant `Valid()`. The position is never
negative, and outside review mode it is 0 or below the number of cards.
Both id lists are duplicate-free, and progress is non-negative.
Each handler also states its whole new state. `Coherent()` is what the
effect guarantees once it has nothing left to do:

- a position at or past the end of a non-empty list is complete;
- a complete deck sits at or past its last card;
- progress belongs to the current position.

Each handler preserves `Coherent()` from a committed state, which is a
settled and coherent one.

The cards the topic page loads, the topic list and the category list are
inputs. `getFlashcards`, `defaultTopics` and `getCategories` are not part of
this model. The `Card` record carries an optional `categoryId`. The card
interface does not declare it, but the catalog's records carry it and the
topic page reads it.

The model follows the code on three points where a cleaner design might
differ:

- the deck has no category filter;
- marking a card unknown does not remove it from the known list, so an id
  can be in both lists (`DeckScenarios.KnownThenUnknown`);
- known and review ids are lists, not sets.

The model also shows one thing about the code itself: the "Deck complete!"
notification is never raised. The effect raises it only outside review
mode, for a position at or past the end of a non-empty list. Outside review
mode the active cards are all cards, so that list never shrinks. "Next"
stops at the last card, and toggling and reset go back to the first. When
"next" completes the deck, the effect does not run again, because the
position did not change (`DeckScenarios.ThreeCardWalk`, where `Settle`
returns `None`). `Valid()` holds in every reachable state and keeps the
position outside review mode at the first card or on a card of the list.
Under it, `Settle` never returns `DeckCompleteToast`. Only "Review
complete!" can be raised. That happens in review mode, when marking cards
known shrinks the review list to or below the position.

## Model

| member | source | states |
|---|---|---|
| `Seqs.Filter` | src/components/FlashcardDeck.tsx:22 | `filter` keeps exactly the elements that pass the test, each as often as in the input, as an order-preserving subsequence; when all pass, the input is returned |
| `Seqs.FilterKeepsNoDup` | src/components/FlashcardDeck.tsx:61 | filtering a duplicate-free list leaves it duplicate-free |
| `Seqs.Find` | src/pages/TopicLearningPage.tsx:24 | `find` returns nothing iff no element passes; otherwise it returns the element at the first passing position |
| `Seqs.FindIsFirst` | src/pages/TopicsPage.tsx:25 | whenever position `i` is the first passing one, `find` returns the element at `i` |
| `Seqs.AppendIfAbsent` | src/components/FlashcardDeck.tsx:57-59 | the id ends up in the list; it is added once at the end only if it was absent; the old list is a prefix; duplicate-freedom is kept |
| `Seqs.Without` | src/components/FlashcardDeck.tsx:61 | the id is gone; every other element keeps its count and order; removing an absent id changes nothing; duplicate-freedom is kept |
| `Deck.ActiveCards` | src/components/FlashcardDeck.tsx:21-23 | outside review mode the active cards are all cards; in review mode they are the order-preserving subsequence of cards whose id is flagged, with each such card as often as in `cards` |
| `Deck.ActiveIds` | src/components/FlashcardDeck.tsx:21-23 | the ids of the review-mode cards are the catalog's ids filtered by the review list, in catalog order |
| `Deck.ReviewCountMatchesActive` | src/components/FlashcardDeck.tsx:80-82 | if catalog ids are distinct and every flagged id is a card's id, review mode shows as many cards as there are flagged ids (the count the toast prints) |
| `Deck.Progress` | src/components/FlashcardDeck.tsx:26-28 | for a non-empty list, progress times the length is 100 times the position; it is never negative for a non-negative position, and it stays below 100 for a position inside the list |
| `Deck.FlashcardDeck.constructor` | src/components/FlashcardDeck.tsx:13-19 | a mounted deck is at position 0 with empty known and review lists, outside review mode, not complete, progress 0, and committed |
| `Deck.FlashcardDeck.Settle` | src/components/FlashcardDeck.tsx:25-40 | with unchanged dependencies nothing changes; otherwise it sets complete iff position >= active length > 0, rewrites progress only for a non-empty list, and raises the review or deck completion toast on completion; the deck completion toast is never raised from a valid state; afterwards the deck is settled, and committed when it was coherent or unsettled before |
| `Deck.FlashcardDeck.HandleNext` | src/components/FlashcardDeck.tsx:42-48 | the position advances iff it is below active length - 1; otherwise it stays and the deck is marked complete; nothing else changes |
| `Deck.FlashcardDeck.HandlePrevious` | src/components/FlashcardDeck.tsx:50-54 | the position drops by one only when positive, so it never goes negative; nothing else changes |
| `Deck.FlashcardDeck.HandleKnown` | src/components/FlashcardDeck.tsx:56-62 | the id is appended to the known list if absent and removed from the review list; position, mode and flags are unchanged |
| `Deck.FlashcardDeck.HandleUnknown` | src/components/FlashcardDeck.tsx:64-68 | the id is appended to the review list if absent; the known list is unchanged |
| `Deck.FlashcardDeck.ToggleReviewMode` | src/components/FlashcardDeck.tsx:70-84 | leaving review mode, or entering it with a non-empty review list, flips the mode and resets the position to 0; entering with no flagged card changes nothing and warns |
| `Deck.FlashcardDeck.ResetDeck` | src/components/FlashcardDeck.tsx:86-90 | position 0, not complete; the known and review lists and the mode are untouched |
| `Deck.FlashcardDeck.MarkKnownThenNext` | src/components/Flashcard.tsx:36-45 | marking known and then "next", in that order: the list updates of `HandleKnown`, then the step of `HandleNext` judged on the new active cards |
| `Deck.FlashcardDeck.MarkUnknownThenNext` | src/components/Flashcard.tsx:47-56 | flagging for review and then "next", in that order |
| `DeckScenarios.OneFlaggedCard` | src/components/FlashcardDeck.tsx:21-23 | with cards 1, 2, 3 and only 2 flagged, review mode shows exactly card 2 |
| `Manage.SetDraftField` | src/pages/ManageFlashcards.tsx:25-30 | the named form field takes the value; the other three keep theirs |
| `Manage.SetCardField` | src/pages/ManageFlashcards.tsx:70-72 | the named field of the card takes the value; id, category and the other text fields are unchanged |
| `Manage.MaxId` | src/pages/ManageFlashcards.tsx:38 | the result is at least 0 and every id; it is 0 or some card's id |
| `Manage.NextId` | src/pages/ManageFlashcards.tsx:38 | the new id is at least 1 and above every existing id; the id below it is 0 or an existing id |
| `Manage.MissingRequired` | src/pages/ManageFlashcards.tsx:33 | the form is rejected iff some field other than the pronunciation is empty |
| `Manage.CardFromDraft` | src/pages/ManageFlashcards.tsx:39-45 | the new card has the given id and no category, and each text field holds the form's text for that field |
| `Manage.AddCard` | src/pages/ManageFlashcards.tsx:32-47 | rejected iff word, definition or example is empty (the pronunciation is optional); otherwise exactly one card is appended, earlier cards are unchanged, and the new card carries the fresh id, the form's texts and its pronunciation as given (`""` when left empty) |
| `Manage.DeleteCard` | src/pages/ManageFlashcards.tsx:62-63 | no card with the id remains; every other card keeps its count and order; deleting an absent id changes nothing |
| `Manage.UpdateCard` | src/pages/ManageFlashcards.tsx:69-72 | length, order and ids are unchanged; cards with another id are untouched; cards with the id get the value in that field and no other change |
| `Manage.AddKeepsDistinctIds` | src/pages/ManageFlashcards.tsx:38-47 | a successful add keeps card ids distinct |
| `Manage.FilterKeepsDistinctIds` | src/pages/ManageFlashcards.tsx:63 | filtering a card list with distinct ids keeps them distinct |
| `Manage.DeleteKeepsDistinctIds` | src/pages/ManageFlashcards.tsx:62-64 | deleting keeps card ids distinct |
| `Manage.UpdateKeepsDistinctIds` | src/pages/ManageFlashcards.tsx:69-73 | editing a field keeps card ids distinct |
| `Manage.ManageFlashcards.constructor` | src/pages/ManageFlashcards.tsx:16-23 | the page starts with the catalog, an empty form and edit mode off |
| `Manage.ManageFlashcards.HandleNewCardChange` | src/pages/ManageFlashcards.tsx:25-30 | only the form changes, in the one field |
| `Manage.ManageFlashcards.HandleAddCard` | src/pages/ManageFlashcards.tsx:32-60 | with a required field empty nothing changes; otherwise the list becomes the `AddCard` result and the form is reset to four empty fields; distinct ids stay distinct |
| `Manage.ManageFlashcards.HandleDeleteCard` | src/pages/ManageFlashcards.tsx:62-67 | the list becomes the `DeleteCard` result; the form and mode are unchanged; distinct ids stay distinct |
| `Manage.ManageFlashcards.HandleUpdateCard` | src/pages/ManageFlashcards.tsx:69-74 | the list becomes the `UpdateCard` result; distinct ids stay distinct |
| `Manage.ManageFlashcards.ToggleEditMode` | src/pages/ManageFlashcards.tsx:111 | edit mode flips; cards and form are unchanged |
| `TopicLearning.FindTopic` | src/pages/TopicLearningPage.tsx:24 | no topic iff none has the id; otherwise the first topic with that id |
| `TopicLearning.TopicCards` | src/pages/TopicLearningPage.tsx:36-38 | an order-preserving subsequence of the catalog; a card with category `c` is kept iff `c` is one of the topic's; a card without category is kept iff `""` is one of them |
| `TopicLearning.Load` | src/pages/TopicLearningPage.tsx:18-42 | a missing or empty route id, or one no topic has, redirects to `/topics`; otherwise it shows the first topic with that id and its `TopicCards` |
| `TopicLearning.ScreenFor` | src/pages/TopicLearningPage.tsx:44-90 | loading iff still loading or no topic; "No flashcards available" iff loaded with a topic and no cards; otherwise the deck with the loaded cards |
| `TopicLearning.TopicLearningPage.constructor` | src/pages/TopicLearningPage.tsx:13-16 | the page starts loading, with no cards and the topic looked up from the route id |
| `TopicLearning.TopicLearningPage.RunEffect` | src/pages/TopicLearningPage.tsx:18-42 | it navigates to `/topics` iff `Load` redirects, and then changes nothing; otherwise it stores the topic and its cards and ends loading |
| `Topics.ToLower` | src/pages/TopicsPage.tsx:20-21 | lowering keeps the length and leaves no upper-case ASCII letter; each upper-case letter becomes its lower-case letter (code point + 32), and every other character is kept |
| `Topics.Includes` | src/pages/TopicsPage.tsx:20-21 | every text includes the empty query, and a text includes only queries no longer than itself (`IncludesIsSubstring` gives the full meaning) |
| `Topics.ToLowerIdempotent` | src/pages/TopicsPage.tsx:20-21 | lowering twice is lowering once |
| `Topics.IncludesIsSubstring` | src/pages/TopicsPage.tsx:20-21 | `includes` holds iff the query occurs at some position of the text |
| `Topics.Matches` | src/pages/TopicsPage.tsx:19-22 | the empty query matches every topic; a match needs the name, or an existing description, at least as long as the query (`MatchesMeaning` gives the full meaning) |
| `Topics.MatchesMeaning` | src/pages/TopicsPage.tsx:19-22 | a topic matches iff the lowered query is a substring of the lowered name, or a description exists and the lowered query is a substring of it |
| `Topics.FilterTopics` | src/pages/TopicsPage.tsx:19-22 | the kept topics are exactly the matching ones, as an order-preserving subsequence of the list |
| `Topics.EmptyQueryKeepsAll` | src/pages/TopicsPage.tsx:19-22 | an empty query keeps every topic |
| `Topics.NoDescriptionMatchesOnName` | src/pages/TopicsPage.tsx:21 | a topic without a description matches iff its name does |
| `Topics.SearchIgnoresQueryCase` | src/pages/TopicsPage.tsx:20-21 | a query and its lower-case form match the same topics |
| `Topics.NoTopicsFound` | src/pages/TopicsPage.tsx:83-87 | the "No topics found" message shows iff no topic matches |
| `Topics.CategoryName` | src/pages/TopicsPage.tsx:24-27 | the name of the first category with the id, or `""` if none has it |
| `Topics.CategoryColor` | src/pages/TopicsPage.tsx:29-32 | the color of the first category with the id, or `""` if none has it |

## Left out

- Rendering and styling: all JSX, the card flip, the button states. These are presentation.
- Notifications: the deck's toasts are a `Toast` value returned by `Settle`, `ToggleReviewMode` and `ResetDeck`. The card's own toasts, the editor's toasts and the success and error messages are not modelled. `HandleAddCard` returns whether the card was added instead.
- Router navigation: `TopicLearningPage.RunEffect` returns the path to navigate to. The back buttons, the links and the "Add Flashcards" button are not modelled.
- Authentication (`SignedIn`, the sign-up page, the auth menu): these are components of a foreign library.
- The navigation bar's dark-mode toggle: it uses local storage and the DOM.
- The card component's 300 ms timeout and flip flag. Only its order "mark, then next" is modelled, by `MarkKnownThenNext` and `MarkUnknownThenNext`.
- React batching and stale closures. The timeout's callback holds the handlers of an earlier render. The model runs the handlers one after another on the current state.
- `Deck.FlashcardDeck.HandleNext` (and the other handlers): they promise `Coherent()` only when they start from a committed state. A run of several handlers with no settle in between can return the dependencies to the values of the last run while the flag and progress have changed. The effect would then not re-run.
- Persistence: `updateFlashcardData` and "Save Changes" only log to the console. The add, update and delete functions of the data file are commented out.
- The catalog data itself: the seed cards, categories and topics are inputs. The deck's `cards` are fixed for the deck's lifetime, as the topic page passes them.
- The deck's "No flashcards found" view for an empty `cards` list: it is presentation over `|cards| == 0`.
- Card ids are unbounded integers, while the source stores them in JavaScript numbers (64-bit floats). This is exact for the seed catalog the editor starts from (ids 1 to N) and for the `+ 1` steps of adding. Ids that are not integers, or ids of 2^53 and above, are not modelled: there `max(0, ids) + 1` can round back to an existing id. `Manage.NextId` and `Manage.AddKeepsDistinctIds` hold only for integer ids.
- Floating point: `progress` is a `real`, computed only for a non-empty list, so there is no `NaN` and no division by zero.
- `Topics.ToLower`: it lowers ASCII letters only. Unicode case mapping is not modelled. The same function is applied to the query and to the text.
- `Topic.image` and the topic card's layout: presentation.
- The form fields are plain strings. The source initialises them to `""` and only ever assigns strings, so the `undefined` case of the partial record never arises.
- The field argument of the edit handlers is one of the four text fields. No caller passes `id`.
- The landing page's start toggle and the not-found page's log: no logic.
