# Poker equity core, modelled in Dafny

This project models the poker maths engine `app/core/equity.py`. It has two
Monte-Carlo estimators.

- `estimate_equity(hero, board, players, trials)` runs `trials` trials. Each
  trial:
  - removes the hero's and the board's cards from a freshly shuffled 52-card
    deck;
  - pops two cards off the end of the deck for each of the `players - 1`
    opponents;
  - pops more cards until the board has five;
  - scores every hand (lower is stronger) and counts the trial as a win (the
    hero alone holds the best score), a tie (the hero shares it) or a loss.
- `nuts_and_prob(board, hero, players, trials)` has two steps:
  - It scores every two-card combination of the unseen cards (the deck minus
    board and hero) on the current board. It keeps all combinations with the
    least score (the "nuts") and names that score's hand class.
  - It then counts the trials in which some opponent, drawing two cards at
    random positions of the remaining deck, is dealt one of those holdings as
    an unordered pair. Each trial stops at the first such opponent.

The model has three modules:

- `Cards` (`cards.dfy`): cards, shuffled decks, the unseen filter, and the
  Python list operations the estimators use (`remove`, `pop(i)`, `count`).
- `Equity` (`equity.dfy`): `estimate_equity`.
- `Nuts` (`nuts.dfy`): `nuts_and_prob`.

How the outside world enters the model:

- **Cards.** A card is an integer `0..51`. Only card identity matters, because
  the treys hand evaluator is a function-typed parameter
  `evaluate(board, hand): int`. Likewise `get_rank_class` and
  `class_to_string` are the parameters `rankClass` and `className`.
- **Randomness.** Trial `r`'s shuffled deck is a supplied sequence `decks[r]`
  holding each of the 52 cards exactly once. `random.randrange(len(deck))` is
  a supplied index below the current deck length. `nuts_and_prob`'s
  `full_deck` is a supplied shuffled deck too.
- **Loops and counters.** The trial loops, the combination search, the card
  removal and dealing loops and the opponent loop with its `break` are
  methods with loops, proved against specification functions. For example,
  `TrialOutcome`, `Outcomes`, `Draw` and `Hits` describe what one trial or
  all trials produce, and the counters are `Count` over those sequences.
- **Values, not mutation.** Python lists the code mutates (`deck`, `runout`)
  are sequence-valued local variables. The caller's `board` is a value, so
  copying it into `runout` (line 49) cannot change the caller's list.
- **Caller guarantees as preconditions.** These come from the request layer
  (`app/models.py:8-11`, `app/api/v1_equity.py:13-17`):
  - hero has two cards, the board has at most five, and no card appears
    twice (`ValidSeen`);
  - `players` is between 2 and 10;
  - `trials > 0`.

The model's `EstimateEquity` and `NutsAndProb` return the integer counts the
Python code turns into percentages and a probability.

The core raises no errors of its own. The request layer validates its inputs,
and the preconditions above stand for that validation. Under them the deck
never runs short:

- `Deal` proves that every `pop()` of `estimate_equity` stays in range.
- In `nuts_and_prob`, the supplied `randrange` indices are required to lie
  below the current deck length, as `random.randrange(len(deck))` guarantees.
- `DeckSuffices` proves that such indices exist for every allowed number of
  players and board size.

## Model

| member | source | states |
|---|---|---|
| Cards.Unseen | app/core/equity.py:84 | `[c for c in deck if c not in seen]`, keeping deck order; never longer than the deck (its meaning is stated by `UnseenMembers`, `UnseenCounts` and `UnseenSize`) |
| Cards.ShuffledDistinct | app/core/equity.py:40 | a freshly shuffled deck holds no card twice |
| Cards.RemoveFirst | app/core/equity.py:43 | `list.remove(x)` makes the list one card shorter |
| Cards.RemoveFirstCounts | app/core/equity.py:43 | `list.remove(x)` takes out exactly one `x` and no other card |
| Cards.RemoveFirstUnseen | app/core/equity.py:42-43 | removing a once-present card from the filtered deck equals filtering by one more card |
| Cards.RemoveSeen | app/core/equity.py:42-43 | after `for c in hero + board: deck.remove(c)`, the deck is exactly the shuffled deck minus the seen cards, in deck order, with `52 - len(seen)` cards |
| Cards.UnseenMembers | app/core/equity.py:84 | a card is unseen if and only if it is in the deck and not in `board + hero` |
| Cards.UnseenCounts | app/core/equity.py:84 | the filter keeps every unseen card's multiplicity and drops every seen card |
| Cards.UnseenDistinct | app/core/equity.py:84 | filtering a repeat-free deck yields a repeat-free list |
| Cards.UnseenSize | app/core/equity.py:83-84 | with distinct seen cards and a full deck, `unseen` has `52 - len(board) - len(hero)` cards |
| Cards.UnseenNothing | app/core/equity.py:84 | filtering by nothing leaves the deck unchanged |
| Cards.Count | app/core/equity.py:57 | `list.count(x)`, read off from the back of the list (its meaning is stated by `CountIsMultiplicity`) |
| Cards.CountIsMultiplicity | app/core/equity.py:57 | `list.count(x)` is the number of occurrences of `x` |
| Cards.CountBound | app/core/equity.py:57 | a count never exceeds the list length |
| Cards.CountAbsent | app/core/equity.py:57 | a value that never occurs is counted zero times |
| Cards.PopAt | app/core/equity.py:109-110 | `deck.pop(i)` shortens the deck by one, keeps the cards before `i` and shifts those after it |
| Cards.PopAtCounts | app/core/equity.py:109-110 | `deck.pop(i)` takes out exactly the card at `i` |
| Equity.Min | app/core/equity.py:56 | `min(scores)` over a nonempty list (its meaning is stated by `MinIsLeast`) |
| Equity.Classify | app/core/equity.py:56-62 | the `best`/`n_best` test: win if the hero holds the only best score, tie if the hero holds a shared one, loss otherwise (its meaning is stated by `ClassifyMeaning`) |
| Equity.MinIsLeast | app/core/equity.py:56 | `min(scores)` is one of the scores and no score is below it |
| Equity.ClassifyMeaning | app/core/equity.py:56-62 | win if and only if the hero's score is strictly below every opponent's; tie if and only if it is at most every opponent's and equal to one; loss if and only if some opponent scores lower |
| Equity.Popped | app/core/equity.py:46-51 | the first `n` cards repeated `deck.pop()` takes, last card first; there are exactly `n` of them |
| Equity.PoppedCounts | app/core/equity.py:46-51 | the cards `pop()` takes are, as a multiset, the end of the deck |
| Equity.OpponentHands | app/core/equity.py:46 | there are `players - 1` opponent hands of two cards each |
| Equity.OpponentHandsPopped | app/core/equity.py:46 | the opponents' cards, hand after hand, are the first `2(players - 1)` cards popped |
| Equity.Runout | app/core/equity.py:49-51 | the board followed by cards popped from what the opponents left; it has exactly five cards and the board as prefix |
| Equity.OpponentScores | app/core/equity.py:54 | each opponent hand scored on the runout, in dealing order |
| Equity.TrialOutcome | app/core/equity.py:40-62 | one trial from its shuffled deck: filter the seen cards, deal, score and classify (proved equal to the loop body by `PlayTrial`, and characterised by `Deal` and `ClassifyMeaning`) |
| Equity.PoppedSplit | app/core/equity.py:46-51 | popping `m + n` cards is popping `m` cards and then `n` more from what is left |
| Equity.DealOrder | app/core/equity.py:45-51 | the opponents' cards followed by the new board cards are exactly the first `2(players - 1) + (5 - len(board))` cards popped |
| Equity.PoppedFresh | app/core/equity.py:40-51 | no card is dealt twice and no dealt card is a hero or board card |
| Equity.DealOpponents | app/core/equity.py:46 | the hands are taken in `pop()` order and the deck loses exactly those cards |
| Equity.FinishBoard | app/core/equity.py:49-51 | the runout is the board followed by cards popped off the deck until it has five |
| Equity.Deal | app/core/equity.py:40-51 | one trial's deal: `players - 1` two-card hands, a five-card runout with the board as prefix, all dealt cards distinct and none seen |
| Equity.PlayTrial | app/core/equity.py:40-62 | one trial's loop body computes that trial's outcome |
| Equity.TallyTotal | app/core/equity.py:59-64 | every trial is counted under exactly one of win, tie and loss |
| Equity.EstimateEquity | app/core/equity.py:36-64 | `wins`, `ties` and `loses` count the winning, tied and lost trials; they sum to `trials` and `loses >= 0` |
| Nuts.Combinations | app/core/equity.py:90 | `combinations(unseen, 2)` in its order: every `(u[a], u[c])` with `a < c`, by `a` and then by `c` (its meaning is stated by `CombinationsEmpty`, `CombinationsComplete` and `CombinationsSound`) |
| Nuts.PairScore | app/core/equity.py:91 | `evaluator.evaluate(board, [h1, h2])` for one combination |
| Nuts.CombinationsEmpty | app/core/equity.py:90 | `combinations(unseen, 2)` is empty if and only if there are fewer than two unseen cards |
| Nuts.CombinationsComplete | app/core/equity.py:90 | every two unseen cards, in their order in `unseen`, form a combination |
| Nuts.CombinationsSound | app/core/equity.py:90 | in every combination `(h1, h2)`, `h1` precedes `h2` in `unseen` |
| Nuts.CombinationsUnordered | app/core/equity.py:90-99 | a combination of distinct cards holds two different cards, and no two combinations hold the same unordered pair |
| Nuts.ScoringPrefix | app/core/equity.py:92-96 | one more combination adds itself to the pairs scoring `b` exactly when it scores `b` |
| Nuts.ScoringBelow | app/core/equity.py:92-94 | no combination reaches a score below all scores seen so far |
| Nuts.FindNuts | app/core/equity.py:86-96 | the best score exists if and only if there are two unseen cards; it is at most the score of every two-combination; `nut_pairs` is exactly the set of combinations reaching it and is nonempty |
| Nuts.NutSets | app/core/equity.py:99 | `{frozenset(p) for p in nut_pairs}` (its size is stated by `NutSetsSize`) |
| Nuts.NutSetsSize | app/core/equity.py:99 | when no unordered pair is recorded twice, `nut_sets` has as many members as `nut_pairs` |
| Nuts.PicksExist | app/core/equity.py:108-110 | whenever the deck holds two cards per opponent, in-range `randrange` results exist |
| Nuts.DeckSuffices | app/core/equity.py:108-110 | with 2 to 10 players, two hole cards and at most five board cards, the deck never runs short and the index requirement can be met |
| Nuts.Draw | app/core/equity.py:108-110 | each opponent gets one hand, and the deck shrinks by two cards per opponent |
| Nuts.DrawPrefix | app/core/equity.py:108-110 | dealing fewer opponents gives the same first hands |
| Nuts.HandCardsAppend | app/core/equity.py:109-110 | a newly dealt hand adds its two cards at the end of the dealt cards |
| Nuts.DrawConserves | app/core/equity.py:108-110 | the dealt cards and the remaining deck together are exactly the deck dealt from |
| Nuts.DrawnFresh | app/core/equity.py:104-110 | the opponents' cards are pairwise distinct and none is a board or hero card |
| Nuts.HoldsNut | app/core/equity.py:111 | some dealt hand, as an unordered pair, is in `nut_sets` |
| Nuts.HoldsNutAppend | app/core/equity.py:108-111 | after one more hand, some hand holds a nut set if and only if an earlier one did or the new one does |
| Nuts.HoldsNutPrefix | app/core/equity.py:111-113 | a nut set among the first hands dealt is a nut set among all hands |
| Nuts.NutTrial | app/core/equity.py:107-113 | a trial is a hit if and only if some opponent's unordered pair is a nut set |
| Nuts.TrialHit | app/core/equity.py:104-113 | one hit-count trial from its shuffled deck and indices: filter the seen cards, deal every opponent, and test for a nut set (proved equal to the loop body by `NutTrial`) |
| Nuts.EstimateNutHits | app/core/equity.py:101-113 | `hits` counts the trials that are hits; `hits <= trials`, and with no nut sets `hits == 0` |
| Nuts.NutsAndProb | app/core/equity.py:82-113 | the nut pairs are nonempty, are exactly the combinations of unseen cards with the least score, each precede in `unseen`, and all share the reported class name; `nut_sets` does not merge pairs; `hits` counts the hit trials and is at most `trials` |

## Left out

- Hand evaluation: treys' `Evaluator.evaluate`, `get_rank_class` and `class_to_string` are foreign code. They are parameters of the model with no properties assumed. In particular, treys scores only 5 to 7 cards. Lines 53-54 always pass the five-card runout and two hole cards. Line 91 passes `board` and two cards, which is fewer than five cards when the board has fewer than three; treys then raises `KeyError`. The model scores those calls like any other.
- Shuffling and `random.randrange`: the supplied decks and indices stand for them. No statistical or convergence property is stated.
- Floating point: the `100.0 / trials` percentages (line 65-66) and the `hits / trials` probability (line 115) are not computed. The model returns the integer counts, and `hits <= trials` is the fact that keeps the probability in `[0, 1]`.
- The `float("inf")` sentinel (line 87) is `Option.None`.
- `parse` and `Card.int_to_str` (lines 18-20 and 116) are string conversions in treys. `nuts_and_prob` returns the nut pairs as card pairs, not as strings.
- The default arguments `trials=200_000` (line 28) and `trials=50_000` (line 74) are not modelled. The only caller, `app/api/v1_equity.py:16-17`, always passes `trials`.
- The request layer (`app/api/v1_equity.py`, `app/models.py`, `app/main.py`) is not modelled. Its checks are the preconditions named above, and the rounding at `app/api/v1_equity.py:20-25` is not part of this model.
