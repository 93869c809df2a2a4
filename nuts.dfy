/** `nuts_and_prob` (app/core/equity.py): the best hole cards on the current
    board among the cards nobody can see ("the nuts"), every holding that
    reaches that score, and in how many trials some opponent is dealt one of
    those holdings. The probability itself is left to the caller; this model
    states the hit count it is computed from. */
module Nuts {
  import opened Cards

  /** Line 87's `float("inf")` sentinel is `None`: no score seen yet. */
  datatype Option<T> = None | Some(value: T)

  /** Two hole cards, in the order `combinations` yields them. */
  type Pair = (Card, Card)

  /** Line 91: the score of hole cards `p` on `board`. */
  function PairScore(evaluate: Evaluator, board: seq<Card>, p: Pair): int
  {
    evaluate(board, [p.0, p.1])
  }

  /** `itertools.combinations(u, 2)`: every `(u[a], u[c])` with `a < c`, ordered
      by `a` and then by `c`. */
  function Combinations(u: seq<Card>): seq<Pair>
    decreases |u|
  {
    if |u| == 0 then []
    else seq(|u| - 1, j requires 0 <= j < |u| - 1 => (u[0], u[j + 1])) + Combinations(u[1..])
  }

  /** There is a combination exactly when there are at least two cards. */
  lemma {:induction false} CombinationsEmpty(u: seq<Card>)
    ensures |Combinations(u)| == 0 <==> |u| < 2
  {
    if |u| == 1 {
      assert |u[1..]| == 0;
    }
  }

  /** Every two cards of `u`, taken in their order in `u`, form a combination. */
  lemma {:induction false} CombinationsComplete(u: seq<Card>, a: nat, c: nat)
    requires a < c < |u|
    ensures (u[a], u[c]) in Combinations(u)
    decreases a
  {
    var first := seq(|u| - 1, j requires 0 <= j < |u| - 1 => (u[0], u[j + 1]));
    assert Combinations(u) == first + Combinations(u[1..]);
    if a == 0 {
      assert first[c - 1] == (u[0], u[c]);
    } else {
      CombinationsComplete(u[1..], a - 1, c - 1);
    }
  }

  /** `x` occurs in `u` strictly before `y`. */
  ghost predicate Precedes(u: seq<Card>, x: Card, y: Card)
  {
    exists a, c :: 0 <= a < c < |u| && u[a] == x && u[c] == y
  }

  /** Every combination takes its first card from strictly before its second. */
  lemma {:induction false} CombinationsSound(u: seq<Card>, p: Pair)
    requires p in Combinations(u)
    ensures Precedes(u, p.0, p.1)
    decreases |u|
  {
    var first := seq(|u| - 1, j requires 0 <= j < |u| - 1 => (u[0], u[j + 1]));
    assert Combinations(u) == first + Combinations(u[1..]);
    if p in first {
      var j :| 0 <= j < |first| && first[j] == p;
      assert u[0] == p.0 && u[j + 1] == p.1;
    } else {
      CombinationsSound(u[1..], p);
      var a, c :| 0 <= a < c < |u[1..]| && u[1..][a] == p.0 && u[1..][c] == p.1;
      assert u[a + 1] == p.0 && u[c + 1] == p.1;
    }
  }

  /** In a sequence without repeats, different positions hold different cards. */
  lemma {:induction false} DistinctInjective(s: seq<Card>)
    requires Distinct(s)
    ensures forall i, j :: 0 <= i < |s| && 0 <= j < |s| && i != j ==> s[i] != s[j]
  {
    forall i, j | 0 <= i < |s| && 0 <= j < |s| && i != j
      ensures s[i] != s[j]
    {
      if i < j {
        DistinctAt(s, j);
        assert s[..j][i] == s[i];
      } else {
        DistinctAt(s, i);
        assert s[..i][j] == s[j];
      }
    }
  }

  /** Over cards without repeats, a combination holds two different cards, and
      no two combinations hold the same two cards. */
  lemma {:induction false} CombinationsUnordered(u: seq<Card>, p: Pair, q: Pair)
    requires Distinct(u) && p in Combinations(u) && q in Combinations(u)
    ensures p.0 != p.1
    ensures {p.0, p.1} == {q.0, q.1} ==> p == q
  {
    CombinationsSound(u, p);
    CombinationsSound(u, q);
    var a, c :| 0 <= a < c < |u| && u[a] == p.0 && u[c] == p.1;
    var a', c' :| 0 <= a' < c' < |u| && u[a'] == q.0 && u[c'] == q.1;
    DistinctInjective(u);
    assert p.0 in {p.0, p.1} && p.1 in {p.0, p.1};
  }

  /** The combinations in `ps` that score `b`. */
  function Scoring(evaluate: Evaluator, board: seq<Card>, ps: seq<Pair>, b: int): set<Pair>
  {
    set p | p in ps && PairScore(evaluate, board, p) == b
  }

  /** One more combination joins the pairs scoring `b` exactly when it scores `b`. */
  lemma {:induction false} ScoringPrefix(evaluate: Evaluator, board: seq<Card>, ps: seq<Pair>, k: nat, b: int)
    requires k < |ps|
    ensures Scoring(evaluate, board, ps[..k + 1], b)
         == Scoring(evaluate, board, ps[..k], b) + (if PairScore(evaluate, board, ps[k]) == b then {ps[k]} else {})
  {
    assert ps[..k + 1] == ps[..k] + [ps[k]];
  }

  /** No combination seen so far reaches a score below all of theirs. */
  lemma {:induction false} ScoringBelow(evaluate: Evaluator, board: seq<Card>, ps: seq<Pair>, k: nat, b: int)
    requires k <= |ps|
    requires forall i :: 0 <= i < k ==> b < PairScore(evaluate, board, ps[i])
    ensures Scoring(evaluate, board, ps[..k], b) == {}
  {
    forall p | p in ps[..k]
      ensures PairScore(evaluate, board, p) != b
    {
      var i :| 0 <= i < k && ps[..k][i] == p;
    }
  }

  /** Lines 86-96: the exhaustive search over `combinations(unseen, 2)`. The
      best score is the least score of any two unseen cards, and `nutPairs` is
      exactly the set of combinations that reach it; with fewer than two
      unseen cards there is nothing to score. */
  method FindNuts(evaluate: Evaluator, board: seq<Card>, unseen: seq<Card>)
    returns (best: Option<int>, nutPairs: set<Pair>)
    ensures best.None? <==> |unseen| < 2
    ensures best.None? ==> nutPairs == {}
    ensures best.Some? ==> forall q :: q in Combinations(unseen) ==> best.value <= PairScore(evaluate, board, q)
    ensures best.Some? ==> forall a, c :: 0 <= a < c < |unseen| ==>
              best.value <= PairScore(evaluate, board, (unseen[a], unseen[c]))
    ensures best.Some? ==> nutPairs == Scoring(evaluate, board, Combinations(unseen), best.value)
    ensures best.Some? ==> nutPairs != {}
  {
    var combos := Combinations(unseen);
    best, nutPairs := None, {};
    for k := 0 to |combos|
      invariant best.None? <==> k == 0
      invariant best.None? ==> nutPairs == {}
      invariant best.Some? ==> forall i :: 0 <= i < k ==> best.value <= PairScore(evaluate, board, combos[i])
      invariant best.Some? ==> nutPairs == Scoring(evaluate, board, combos[..k], best.value)
      invariant best.Some? ==> nutPairs != {}
    {
      var (h1, h2) := combos[k];
      var score := evaluate(board, [h1, h2]);
      if best.None? || score < best.value {
        ScoringBelow(evaluate, board, combos, k, score);
        ScoringPrefix(evaluate, board, combos, k, score);
        best := Some(score);
        nutPairs := {(h1, h2)};
      } else {
        ScoringPrefix(evaluate, board, combos, k, best.value);
        if score == best.value {
          nutPairs := nutPairs + {(h1, h2)};
        }
      }
    }
    assert combos[..|combos|] == combos;
    CombinationsEmpty(unseen);
    if best.Some? {
      forall a, c | 0 <= a < c < |unseen|
        ensures best.value <= PairScore(evaluate, board, (unseen[a], unseen[c]))
      {
        CombinationsComplete(unseen, a, c);
      }
    }
  }

  /** Line 99: `{frozenset(p) for p in nut_pairs}`. */
  function NutSets(pairs: set<Pair>): set<set<Card>>
  {
    set p | p in pairs :: {p.0, p.1}
  }

  /** When no two pairs hold the same two cards, forgetting the order loses no
      pair. */
  lemma {:induction false} NutSetsSize(pairs: set<Pair>)
    requires forall p, q :: p in pairs && q in pairs && {p.0, p.1} == {q.0, q.1} ==> p == q
    ensures |NutSets(pairs)| == |pairs|
    decreases |pairs|
  {
    if pairs != {} {
      var p :| p in pairs;
      var rest := pairs - {p};
      NutSetsSize(rest);
      assert NutSets(pairs) == NutSets(rest) + {{p.0, p.1}};
      assert {p.0, p.1} !in NutSets(rest);
    }
  }

  /** Supplied `random.randrange(len(deck))` results, one pair per opponent:
      opponent `t` draws from a deck of `n - 2t` cards, and then of one fewer. */
  ghost predicate ValidPicks(n: nat, picks: seq<(nat, nat)>)
  {
    forall t :: 0 <= t < |picks| ==> picks[t].0 < n - 2 * t && picks[t].1 < n - 2 * t - 1
  }

  /** In-range indices exist whenever the deck holds two cards per opponent:
      for instance, every opponent pops index 0 twice. */
  lemma {:induction false} PicksExist(n: nat, k: nat)
    requires 2 * k <= n
    ensures ValidPicks(n, seq(k, _ => (0, 0)))
  {
  }

  /** The deck never runs short in lines 108-110: with at most 10 players, two
      hole cards and at most five board cards, `2 * 9 <= 45`, so the index
      requirement of `EstimateNutHits` and `NutsAndProb` can be met. */
  lemma {:induction false} DeckSuffices(board: seq<Card>, hero: seq<Card>, players: nat)
    requires |hero| == 2 && |board| <= 5 && 2 <= players <= 10
    ensures ValidPicks(DeckSize - |board| - |hero|, seq(players - 1, _ => (0, 0)))
  {
    PicksExist(DeckSize - |board| - |hero|, players - 1);
  }

  /** The opponents' hands and what is left of the deck. */
  datatype Drawn = Drawn(hands: seq<Pair>, rest: seq<Card>)

  /** Lines 107-109 for the first `t` opponents in turn: `h1 = deck.pop(i)`,
      then `h2 = deck.pop(j)`, with the supplied indices `(i, j)`. Each
      opponent takes two cards, so the deck shrinks by two per opponent. */
  function Draw(deck: seq<Card>, picks: seq<(nat, nat)>, t: nat): (d: Drawn)
    requires ValidPicks(|deck|, picks) && t <= |picks|
    ensures |d.hands| == t && |d.rest| == |deck| - 2 * t
    decreases t
  {
    if t == 0 then Drawn([], deck)
    else
      var prev := Draw(deck, picks, t - 1);
      var i, j := picks[t - 1].0, picks[t - 1].1;
      var afterFirst := PopAt(prev.rest, i);
      Drawn(prev.hands + [(prev.rest[i], afterFirst[j])], PopAt(afterFirst, j))
  }

  /** Opponent `t` draws two cards from what the earlier opponents left. */
  lemma {:induction false} DrawStep(deck: seq<Card>, picks: seq<(nat, nat)>, t: nat)
    requires ValidPicks(|deck|, picks) && t < |picks|
    ensures picks[t].0 < |Draw(deck, picks, t).rest|
    ensures picks[t].1 < |PopAt(Draw(deck, picks, t).rest, picks[t].0)|
    ensures Draw(deck, picks, t + 1)
         == Drawn(Draw(deck, picks, t).hands
                    + [(Draw(deck, picks, t).rest[picks[t].0], PopAt(Draw(deck, picks, t).rest, picks[t].0)[picks[t].1])],
                  PopAt(PopAt(Draw(deck, picks, t).rest, picks[t].0), picks[t].1))
  {
  }

  /** Drawing for fewer opponents deals the same first hands. */
  lemma {:induction false} DrawPrefix(deck: seq<Card>, picks: seq<(nat, nat)>, t: nat, m: nat)
    requires ValidPicks(|deck|, picks) && t <= m <= |picks|
    ensures Draw(deck, picks, t).hands == Draw(deck, picks, m).hands[..t]
    decreases m
  {
    if t < m {
      DrawPrefix(deck, picks, t, m - 1);
      DrawStep(deck, picks, m - 1);
    }
  }

  /** The hands' cards in the order drawn. */
  function HandCards(hands: seq<Pair>): seq<Card>
  {
    if |hands| == 0 then [] else HandCards(hands[..|hands| - 1]) + [hands[|hands| - 1].0, hands[|hands| - 1].1]
  }

  /** A newly dealt hand adds its two cards at the end of the dealt cards. */
  lemma {:induction false} HandCardsAppend(hands: seq<Pair>, h: Pair)
    ensures HandCards(hands + [h]) == HandCards(hands) + [h.0, h.1]
  {
    assert (hands + [h])[..|hands|] == hands;
  }

  /** Two single-card removals, undone by adding both cards back. */
  lemma {:induction false} Regroup(hand: multiset<Card>, rest: multiset<Card>, mid: multiset<Card>,
                                   last: multiset<Card>, x: Card, y: Card)
    requires rest == mid + multiset{x} && mid == last + multiset{y}
    ensures hand + multiset([x, y]) + last == hand + rest
  {
    assert multiset([x, y]) == multiset{x} + multiset{y};
  }

  /** Every card drawn comes out of the deck: drawn cards and the rest are the deck. */
  lemma {:induction false} DrawConserves(deck: seq<Card>, picks: seq<(nat, nat)>, t: nat)
    requires ValidPicks(|deck|, picks) && t <= |picks|
    ensures multiset(HandCards(Draw(deck, picks, t).hands)) + multiset(Draw(deck, picks, t).rest) == multiset(deck)
    decreases t
  {
    if t > 0 {
      DrawConserves(deck, picks, t - 1);
      var prev := Draw(deck, picks, t - 1);
      var i, j := picks[t - 1].0, picks[t - 1].1;
      var afterFirst := PopAt(prev.rest, i);
      var x, y := prev.rest[i], afterFirst[j];
      PopAtCounts(prev.rest, i);
      PopAtCounts(afterFirst, j);
      HandCardsAppend(prev.hands, (x, y));
      assert multiset(HandCards(prev.hands) + [x, y]) == multiset(HandCards(prev.hands)) + multiset([x, y]);
      Regroup(multiset(HandCards(prev.hands)), multiset(prev.rest), multiset(afterFirst),
              multiset(PopAt(afterFirst, j)), x, y);
    }
  }

  /** Lines 104-110: the opponents' cards are drawn from the deck after board
      and hero were removed, so no card is dealt twice and none is a board or
      hero card. */
  lemma {:induction false} DrawnFresh(full: seq<Card>, seen: seq<Card>, picks: seq<(nat, nat)>)
    requires Distinct(full) && Distinct(seen)
    requires ValidPicks(|Unseen(full, seen)|, picks)
    ensures Distinct(seen + HandCards(Draw(Unseen(full, seen), picks, |picks|).hands))
  {
    var u := Unseen(full, seen);
    var drawn := Draw(u, picks, |picks|);
    var cards := HandCards(drawn.hands);
    UnseenCounts(full, seen);
    DrawConserves(u, picks, |picks|);
    assert multiset(seen + cards) == multiset(seen) + multiset(cards);
    assert multiset(cards) <= multiset(u);
    forall x
      ensures multiset(seen + cards)[x] <= 1
    {
      assert multiset(cards)[x] <= multiset(u)[x];
      if x in seen {
        assert multiset(seen)[x] <= 1;
      } else {
        assert multiset(full)[x] <= 1;
      }
    }
  }

  /** Line 110: some opponent's two cards, as an unordered pair, are a nut set. */
  ghost predicate HoldsNut(hands: seq<Pair>, nutSets: set<set<Card>>)
  {
    exists t :: 0 <= t < |hands| && {hands[t].0, hands[t].1} in nutSets
  }

  /** A hand dealt after the others holds a nut set or the earlier ones do. */
  lemma {:induction false} HoldsNutAppend(hands: seq<Pair>, h: Pair, nutSets: set<set<Card>>)
    ensures HoldsNut(hands + [h], nutSets) <==> HoldsNut(hands, nutSets) || {h.0, h.1} in nutSets
  {
    var all := hands + [h];
    if HoldsNut(all, nutSets) && !({h.0, h.1} in nutSets) {
      var t :| 0 <= t < |all| && {all[t].0, all[t].1} in nutSets;
      assert all[t] == hands[t];
    }
    if HoldsNut(hands, nutSets) {
      var t :| 0 <= t < |hands| && {hands[t].0, hands[t].1} in nutSets;
      assert all[t] == hands[t];
    }
    if {h.0, h.1} in nutSets {
      assert all[|hands|] == h;
    }
  }

  /** A nut set among the first hands is a nut set among all of them. */
  lemma {:induction false} HoldsNutPrefix(hands: seq<Pair>, t: nat, nutSets: set<set<Card>>)
    requires t <= |hands| && HoldsNut(hands[..t], nutSets)
    ensures HoldsNut(hands, nutSets)
  {
    var s :| 0 <= s < t && {hands[..t][s].0, hands[..t][s].1} in nutSets;
    assert hands[..t][s] == hands[s];
  }

  /** Lines 107-112: the opponents draw in turn and the trial is a hit as soon
      as one of them holds a nut set; the others are not dealt. */
  method NutTrial(deck: seq<Card>, picks: seq<(nat, nat)>, nutSets: set<set<Card>>) returns (hit: bool)
    requires ValidPicks(|deck|, picks)
    ensures hit <==> HoldsNut(Draw(deck, picks, |picks|).hands, nutSets)
  {
    var d := deck;
    hit := false;
    for t := 0 to |picks|
      invariant d == Draw(deck, picks, t).rest
      invariant !HoldsNut(Draw(deck, picks, t).hands, nutSets)
    {
      ghost var hands := Draw(deck, picks, t).hands;
      DrawStep(deck, picks, t);
      var h1 := d[picks[t].0];
      d := PopAt(d, picks[t].0);
      var h2 := d[picks[t].1];
      d := PopAt(d, picks[t].1);
      HoldsNutAppend(hands, (h1, h2), nutSets);
      if {h1, h2} in nutSets {
        DrawPrefix(deck, picks, t + 1, |picks|);
        HoldsNutPrefix(Draw(deck, picks, |picks|).hands, t + 1, nutSets);
        hit := true;
        break;
      }
    }
  }

  /** Whether a trial dealt from the shuffled deck `deck` is a hit. */
  ghost predicate TrialHit(board: seq<Card>, hero: seq<Card>, nutSets: set<set<Card>>,
                           deck: seq<Card>, picks: seq<(nat, nat)>)
    requires IsShuffledDeck(deck) && ValidSeen(hero, board)
    requires ValidPicks(DeckSize - |board| - |hero|, picks)
  {
    DistinctSwap(hero, board);
    UnseenSize(deck, board + hero);
    HoldsNut(Draw(Unseen(deck, board + hero), picks, |picks|).hands, nutSets)
  }

  /** Whether each trial is a hit, trial `r` dealt from `decks[r]` with `picks[r]`. */
  ghost function Hits(board: seq<Card>, hero: seq<Card>, nutSets: set<set<Card>>,
                      decks: seq<seq<Card>>, picks: seq<seq<(nat, nat)>>): seq<bool>
    requires ValidSeen(hero, board) && |picks| == |decks|
    requires forall r :: 0 <= r < |decks| ==> IsShuffledDeck(decks[r])
    requires forall r :: 0 <= r < |decks| ==> ValidPicks(DeckSize - |board| - |hero|, picks[r])
  {
    seq(|decks|, r requires 0 <= r < |decks| => TrialHit(board, hero, nutSets, decks[r], picks[r]))
  }

  /** Lines 101-113: the number of hit trials. A trial adds at most one hit,
      so there are at most `trials`; with no nut sets there are none. */
  method EstimateNutHits(board: seq<Card>, hero: seq<Card>, players: nat, trials: nat,
                         nutSets: set<set<Card>>, decks: seq<seq<Card>>, picks: seq<seq<(nat, nat)>>)
    returns (hits: nat)
    requires ValidSeen(hero, board) && 2 <= players <= 10 && trials > 0
    requires |decks| == trials && |picks| == trials
    requires forall r :: 0 <= r < trials ==> IsShuffledDeck(decks[r])
    requires forall r :: 0 <= r < trials ==> |picks[r]| == players - 1
    requires forall r :: 0 <= r < trials ==> ValidPicks(DeckSize - |board| - |hero|, picks[r])
    ensures hits == Count(Hits(board, hero, nutSets, decks, picks), true)
    ensures hits <= trials
    ensures nutSets == {} ==> hits == 0
  {
    ghost var outs := Hits(board, hero, nutSets, decks, picks);
    DistinctSwap(hero, board);
    hits := 0;
    for r := 0 to trials
      invariant hits == Count(outs[..r], true)
    {
      var deck := RemoveSeen(decks[r], board + hero);
      var hit := NutTrial(deck, picks[r], nutSets);
      CountPrefix(outs, r, true);
      if hit {
        hits := hits + 1;
      }
    }
    assert outs[..trials] == outs;
    CountBound(outs, true);
    if nutSets == {} {
      CountAbsent(outs, true);
    }
  }

  /** Lines 70-117. `fullDeck` is line 82's shuffled deck, `decks[r]` and
      `picks[r]` are trial `r`'s shuffle and `randrange` results. The nut
      pairs are exactly the combinations of unseen cards with the least
      score, they are named by that score's class, no unordered pair is among
      them twice, and `hits` counts the trials in which an opponent holds one. */
  method NutsAndProb(board: seq<Card>, hero: seq<Card>, players: nat, trials: nat,
                     evaluate: Evaluator, rankClass: int -> int, className: int -> string,
                     fullDeck: seq<Card>, decks: seq<seq<Card>>, picks: seq<seq<(nat, nat)>>)
    returns (nutsName: string, nutPairs: set<Pair>, hits: nat)
    requires ValidSeen(hero, board) && 2 <= players <= 10 && trials > 0
    requires IsShuffledDeck(fullDeck)
    requires |decks| == trials && |picks| == trials
    requires forall r :: 0 <= r < trials ==> IsShuffledDeck(decks[r])
    requires forall r :: 0 <= r < trials ==> |picks[r]| == players - 1
    requires forall r :: 0 <= r < trials ==> ValidPicks(DeckSize - |board| - |hero|, picks[r])
    ensures nutPairs != {}
    ensures forall p :: p in nutPairs <==>
              p in Combinations(Unseen(fullDeck, board + hero)) &&
              forall q :: q in Combinations(Unseen(fullDeck, board + hero)) ==>
                PairScore(evaluate, board, p) <= PairScore(evaluate, board, q)
    ensures forall p :: p in nutPairs ==> nutsName == className(rankClass(PairScore(evaluate, board, p)))
    ensures forall p :: p in nutPairs ==> Precedes(Unseen(fullDeck, board + hero), p.0, p.1)
    ensures |NutSets(nutPairs)| == |nutPairs|
    ensures hits == Count(Hits(board, hero, NutSets(nutPairs), decks, picks), true)
    ensures hits <= trials
  {
    var unseen := Unseen(fullDeck, board + hero);
    DistinctSwap(hero, board);
    UnseenSize(fullDeck, board + hero);
    var best;
    best, nutPairs := FindNuts(evaluate, board, unseen);
    nutsName := className(rankClass(best.value));
    var nutSets := NutSets(nutPairs);
    hits := EstimateNutHits(board, hero, players, trials, nutSets, decks, picks);
    ShuffledDistinct(fullDeck);
    UnseenDistinct(fullDeck, board + hero);
    forall p, q | p in nutPairs && q in nutPairs
      ensures {p.0, p.1} == {q.0, q.1} ==> p == q
    {
      CombinationsUnordered(unseen, p, q);
    }
    forall p | p in nutPairs
      ensures Precedes(unseen, p.0, p.1)
    {
      CombinationsSound(unseen, p);
    }
    NutSetsSize(nutPairs);
  }
}
