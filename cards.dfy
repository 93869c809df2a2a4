/** The card universe shared by both estimators of app/core/equity.py: the 52
    cards, a shuffled deck, the Python list operations the estimators apply to
    it (`remove`, `pop`, `pop(i)`, `count`), and the "unseen" filter. */
module Cards {

  /** One of the 52 physical cards, identified by its index in a fixed
      enumeration of rank x suit. Only identity matters to this model: the
      hand evaluator that gives cards their meaning is a parameter. */
  type Card = c: int | 0 <= c < 52

  const DeckSize: nat := 52

  /** The hand evaluator (treys `Evaluator.evaluate(cards, board)`), called as
      `evaluate(board, hand)`: a strength score, lower is stronger. */
  type Evaluator = (seq<Card>, seq<Card>) -> int

  /** No card occurs twice. */
  ghost predicate Distinct(s: seq<Card>)
  {
    forall x :: multiset(s)[x] <= 1
  }

  /** The order of the two parts does not matter. */
  lemma {:induction false} DistinctSwap(a: seq<Card>, b: seq<Card>)
    requires Distinct(a + b)
    ensures Distinct(b + a)
  {
    assert multiset(a + b) == multiset(b + a);
  }

  /** `Deck().cards`: the 52 cards, each exactly once, in shuffled order. */
  ghost predicate IsShuffledDeck(d: seq<Card>)
  {
    |d| == DeckSize && forall c: Card :: multiset(d)[c] == 1
  }

  /** A shuffled deck repeats no card. */
  lemma {:induction false} ShuffledDistinct(d: seq<Card>)
    requires IsShuffledDeck(d)
    ensures Distinct(d)
  {
    forall x ensures multiset(d)[x] <= 1 {
      if multiset(d)[x] > 0 {
        assert x in d;
      }
    }
  }

  /** What the request layer guarantees about hero and board: two hole cards,
      at most five board cards, no card twice (app/models.py, app/api/v1_equity.py). */
  ghost predicate ValidSeen(hero: seq<Card>, board: seq<Card>)
  {
    |hero| == 2 && |board| <= 5 && Distinct(hero + board)
  }

  /** `[c for c in deck if c not in seen]`: the cards of `deck` that are not in
      `seen`, in their order in `deck`. */
  function Unseen(deck: seq<Card>, seen: seq<Card>): (u: seq<Card>)
    ensures |u| <= |deck|
  {
    if |deck| == 0 then []
    else
      assert deck == [deck[0]] + deck[1..];
      (if deck[0] in seen then [] else [deck[0]]) + Unseen(deck[1..], seen)
  }

  /** A card is unseen exactly when it is in the deck and not seen. */
  lemma {:induction false} UnseenMembers(deck: seq<Card>, seen: seq<Card>)
    ensures forall c :: c in Unseen(deck, seen) <==> c in deck && c !in seen
  {
    if |deck| > 0 {
      UnseenMembers(deck[1..], seen);
      assert deck == [deck[0]] + deck[1..];
    }
  }

  /** Each card keeps its multiplicity in the unseen part unless it was seen. */
  lemma {:induction false} UnseenCounts(deck: seq<Card>, seen: seq<Card>)
    ensures forall c :: multiset(Unseen(deck, seen))[c] == if c in seen then 0 else multiset(deck)[c]
  {
    if |deck| > 0 {
      UnseenCounts(deck[1..], seen);
      assert deck == [deck[0]] + deck[1..];
    }
  }

  /** Filtering keeps a deck free of repeated cards. */
  lemma {:induction false} UnseenDistinct(deck: seq<Card>, seen: seq<Card>)
    requires Distinct(deck)
    ensures Distinct(Unseen(deck, seen))
  {
    UnseenCounts(deck, seen);
  }

  /** When `seen` holds distinct cards of a full deck, the unseen part has
      exactly `52 - |seen|` cards. */
  lemma {:induction false} UnseenSize(deck: seq<Card>, seen: seq<Card>)
    requires IsShuffledDeck(deck)
    requires Distinct(seen)
    ensures |Unseen(deck, seen)| == DeckSize - |seen|
  {
    var u := Unseen(deck, seen);
    UnseenCounts(deck, seen);
    forall c
      ensures multiset(deck)[c] == multiset(u)[c] + multiset(seen)[c]
    {
      if c in seen {
        assert c in deck;
      }
    }
    assert multiset(deck) == multiset(u) + multiset(seen);
  }

  /** `list.remove(x)`: drops the first occurrence of `x` (Python raises
      ValueError when there is none, hence the precondition). */
  function RemoveFirst(s: seq<Card>, x: Card): (r: seq<Card>)
    requires x in s
    ensures |r| == |s| - 1
  {
    assert s == [s[0]] + s[1..];
    if s[0] == x then s[1..] else [s[0]] + RemoveFirst(s[1..], x)
  }

  /** `remove` takes out exactly one `x` and nothing else. */
  lemma {:induction false} RemoveFirstCounts(s: seq<Card>, x: Card)
    requires x in s
    ensures multiset(s) == multiset(RemoveFirst(s, x)) + multiset{x}
  {
    assert s == [s[0]] + s[1..];
    if s[0] != x {
      RemoveFirstCounts(s[1..], x);
    }
  }

  /** Filtering by one more card that the deck does not hold changes nothing. */
  lemma {:induction false} UnseenIgnores(t: seq<Card>, xs: seq<Card>, x: Card)
    requires x !in t
    ensures Unseen(t, xs) == Unseen(t, xs + [x])
  {
    if |t| > 0 {
      UnseenIgnores(t[1..], xs, x);
    }
  }

  /** Removing a card that occurs once from a filtered deck is the same as
      filtering by one more card. */
  lemma {:induction false} RemoveFirstUnseen(s: seq<Card>, xs: seq<Card>, x: Card)
    requires multiset(s)[x] == 1 && x !in xs
    ensures x in Unseen(s, xs)
    ensures RemoveFirst(Unseen(s, xs), x) == Unseen(s, xs + [x])
  {
    var t: seq<Card> := s[1..];
    assert s == [s[0]] + t;
    assert multiset(s) == multiset([s[0]]) + multiset(t);
    var u := Unseen(s, xs);
    if s[0] == x {
      assert multiset(t)[x] == 0;
      assert u == [x] + Unseen(t, xs);
      assert RemoveFirst(u, x) == Unseen(t, xs);
      UnseenIgnores(t, xs, x);
    } else if s[0] in xs {
      assert u == Unseen(t, xs);
      RemoveFirstUnseen(t, xs, x);
    } else {
      assert u == [s[0]] + Unseen(t, xs);
      RemoveFirstUnseen(t, xs, x);
      assert RemoveFirst(u, x) == [s[0]] + RemoveFirst(Unseen(t, xs), x);
    }
  }

  /** In a sequence without repeats, the card at `i` is not among those before it. */
  lemma {:induction false} DistinctAt(s: seq<Card>, i: nat)
    requires Distinct(s) && i < |s|
    ensures s[i] !in s[..i]
  {
    assert s == s[..i] + [s[i]] + s[i + 1..];
    assert multiset(s) == multiset(s[..i]) + multiset([s[i]]) + multiset(s[i + 1..]);
    assert multiset(s)[s[i]] <= 1;
  }

  /** `for c in seen: deck.remove(c)` (equity.py lines 42-43 and 105-106):
      the deck afterwards is the full deck minus `seen`, in its order. */
  method RemoveSeen(deck: seq<Card>, seen: seq<Card>) returns (d: seq<Card>)
    requires IsShuffledDeck(deck)
    requires Distinct(seen)
    ensures d == Unseen(deck, seen)
    ensures |d| == DeckSize - |seen|
  {
    d := deck;
    ghost var removed: seq<Card> := [];
    UnseenNothing(deck);
    for i := 0 to |seen|
      invariant removed == seen[..i]
      invariant d == Unseen(deck, removed)
      invariant |d| == DeckSize - i
    {
      var c := seen[i];
      DistinctAt(seen, i);
      RemoveFirstUnseen(deck, removed, c);
      d := RemoveFirst(d, c);
      removed := removed + [c];
    }
    assert seen[..|seen|] == seen;
  }

  /** Filtering by no cards leaves the deck unchanged. */
  lemma {:induction false} UnseenNothing(deck: seq<Card>)
    ensures Unseen(deck, []) == deck
  {
    if |deck| > 0 {
      UnseenNothing(deck[1..]);
      assert deck == [deck[0]] + deck[1..];
    }
  }

  /** `list.count(x)`: how many entries of `s` equal `x`. */
  function Count<T(==)>(s: seq<T>, x: T): nat
  {
    if |s| == 0 then 0 else Count(s[..|s| - 1], x) + (if s[|s| - 1] == x then 1 else 0)
  }

  /** `count` is the multiplicity of `x` in `s`. */
  lemma {:induction false} CountIsMultiplicity<T>(s: seq<T>, x: T)
    ensures Count(s, x) == multiset(s)[x]
  {
    if |s| > 0 {
      CountIsMultiplicity(s[..|s| - 1], x);
      assert s == s[..|s| - 1] + [s[|s| - 1]];
    } else {
      assert s == [];
    }
  }

  /** Counting over one more entry adds one exactly when that entry is `x`. */
  lemma {:induction false} CountPrefix<T>(s: seq<T>, r: nat, x: T)
    requires r < |s|
    ensures Count(s[..r + 1], x) == Count(s[..r], x) + (if s[r] == x then 1 else 0)
  {
    assert s[..r + 1][..r] == s[..r];
  }

  /** A sequence count never exceeds the length. */
  lemma {:induction false} CountBound<T>(s: seq<T>, x: T)
    ensures Count(s, x) <= |s|
  {
    if |s| > 0 {
      CountBound(s[..|s| - 1], x);
    }
  }

  /** A value that no entry equals is counted zero times. */
  lemma {:induction false} CountAbsent<T>(s: seq<T>, x: T)
    requires forall i :: 0 <= i < |s| ==> s[i] != x
    ensures Count(s, x) == 0
  {
    if |s| > 0 {
      CountAbsent(s[..|s| - 1], x);
    }
  }

  /** `list.pop(i)`: the list without its element at index `i`. */
  function PopAt(s: seq<Card>, i: nat): (r: seq<Card>)
    requires i < |s|
    ensures |r| == |s| - 1
    ensures forall j :: 0 <= j < i ==> r[j] == s[j]
    ensures forall j :: i <= j < |r| ==> r[j] == s[j + 1]
  {
    assert s == s[..i] + [s[i]] + s[i + 1..];
    s[..i] + s[i + 1..]
  }

  /** Popping takes exactly the card at `i` out of the list. */
  lemma {:induction false} PopAtCounts(s: seq<Card>, i: nat)
    requires i < |s|
    ensures multiset(s) == multiset(PopAt(s, i)) + multiset{s[i]}
  {
    assert s == s[..i] + [s[i]] + s[i + 1..];
  }
}
