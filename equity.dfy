/** `estimate_equity` (app/core/equity.py): per trial, remove the seen cards
    from a freshly shuffled deck, pop the opponents' hands and the rest of the
    board off its end, and classify the showdown as a win, a tie or a loss for
    the hero. The percentages are left to the caller; this model states the
    integer counts they are computed from. */
module Equity {
  import opened Cards

  datatype Outcome = Win | Tie | Loss

  /** `min(scores)`. */
  function Min(s: seq<int>): int
    requires |s| > 0
  {
    if |s| == 1 then s[0]
    else
      var rest := Min(s[1..]);
      if s[0] <= rest then s[0] else rest
  }

  /** The minimum is one of the scores and no score is below it. */
  lemma {:induction false} MinIsLeast(s: seq<int>)
    requires |s| > 0
    ensures Min(s) in s
    ensures forall i :: 0 <= i < |s| ==> Min(s) <= s[i]
  {
    if |s| > 1 {
      MinIsLeast(s[1..]);
      assert forall i :: 1 <= i < |s| ==> s[i] == s[1..][i - 1];
    }
  }

  /** Lines 56-62: the hero wins when holding the only best (lowest) score,
      ties when sharing it, and loses otherwise. */
  function Classify(heroScore: int, oppScores: seq<int>): Outcome
  {
    var scores := [heroScore] + oppScores;
    var best := Min(scores);
    if heroScore == best && Count(scores, best) == 1 then Win
    else if heroScore == best then Tie
    else Loss
  }

  /** What the min/count test means in terms of the opponents' scores:
      every trial is exactly one of the three outcomes. */
  lemma {:induction false} ClassifyMeaning(heroScore: int, oppScores: seq<int>)
    ensures Classify(heroScore, oppScores) == Win
        <==> forall i :: 0 <= i < |oppScores| ==> heroScore < oppScores[i]
    ensures Classify(heroScore, oppScores) == Tie
        <==> (forall i :: 0 <= i < |oppScores| ==> heroScore <= oppScores[i]) && heroScore in oppScores
    ensures Classify(heroScore, oppScores) == Loss
        <==> exists i :: 0 <= i < |oppScores| && oppScores[i] < heroScore
  {
    var scores := [heroScore] + oppScores;
    var best := Min(scores);
    MinIsLeast(scores);
    CountIsMultiplicity(scores, best);
    assert scores[0] == heroScore;
    assert forall i :: 0 <= i < |oppScores| ==> scores[i + 1] == oppScores[i];
    assert multiset(scores)[heroScore] == 1 + multiset(oppScores)[heroScore];
    if exists i :: 0 <= i < |oppScores| && oppScores[i] < heroScore {
      var i :| 0 <= i < |oppScores| && oppScores[i] < heroScore;
      assert best <= scores[i + 1];
    } else {
      assert best == heroScore;
    }
  }

  /** The first `n` cards `deck.pop()` takes from `u`, in the order taken. */
  function Popped(u: seq<Card>, n: nat): (p: seq<Card>)
    requires n <= |u|
    ensures |p| == n
  {
    if n == 0 then [] else Popped(u, n - 1) + [u[|u| - n]]
  }

  /** The cards popped are exactly the last `n` cards of `u`. */
  lemma {:induction false} PoppedCounts(u: seq<Card>, n: nat)
    requires n <= |u|
    ensures multiset(Popped(u, n)) == multiset(u[|u| - n..])
  {
    if n > 0 {
      PoppedCounts(u, n - 1);
      assert u[|u| - n..] == [u[|u| - n]] + u[|u| - n + 1..];
    }
  }

  /** The hands' cards in dealing order. */
  function Flatten(hands: seq<seq<Card>>): seq<Card>
  {
    if |hands| == 0 then [] else Flatten(hands[..|hands| - 1]) + hands[|hands| - 1]
  }

  /** Line 46: `[[deck.pop(), deck.pop()] for _ in range(k)]` on the deck `u`. */
  function OpponentHands(u: seq<Card>, k: nat): (hands: seq<seq<Card>>)
    requires 2 * k <= |u|
    ensures |hands| == k
    ensures forall t :: 0 <= t < k ==> |hands[t]| == 2
  {
    if k == 0 then [] else OpponentHands(u, k - 1) + [[u[|u| - 2 * k + 1], u[|u| - 2 * k]]]
  }

  /** The opponents' hands, in dealing order, are the first `2 * k` cards popped. */
  lemma {:induction false} OpponentHandsPopped(u: seq<Card>, k: nat)
    requires 2 * k <= |u|
    ensures Flatten(OpponentHands(u, k)) == Popped(u, 2 * k)
  {
    if k > 0 {
      OpponentHandsPopped(u, k - 1);
      var hands := OpponentHands(u, k);
      assert hands[..k - 1] == OpponentHands(u, k - 1);
    }
  }

  /** Lines 49-51: the board followed by cards popped from what the `k`
      opponents' hands left of `u`, until five cards are on it. */
  function Runout(u: seq<Card>, board: seq<Card>, k: nat): (runout: seq<Card>)
    requires |board| <= 5 && 2 * k + (5 - |board|) <= |u|
    ensures |runout| == 5 && runout[..|board|] == board
  {
    board + Popped(u[..|u| - 2 * k], 5 - |board|)
  }

  /** Popping `m` cards and then `n` more is popping `m + n` cards. */
  lemma {:induction false} PoppedSplit(u: seq<Card>, m: nat, n: nat)
    requires m + n <= |u|
    ensures Popped(u, m + n) == Popped(u, m) + Popped(u[..|u| - m], n)
  {
    if n > 0 {
      PoppedSplit(u, m, n - 1);
      var v := u[..|u| - m];
      assert v[|v| - n] == u[|u| - (m + n)];
    }
  }

  /** The opponents' hands and then `m` board cards are the first `2 * k + m`
      cards popped, in order. */
  lemma {:induction false} DealOrder(u: seq<Card>, k: nat, board: seq<Card>, hands: seq<seq<Card>>, runout: seq<Card>)
    requires |board| <= 5 && 2 * k + (5 - |board|) <= |u|
    requires hands == OpponentHands(u, k) && runout == Runout(u, board, k)
    ensures Flatten(hands) + runout[|board|..] == Popped(u, 2 * k + (5 - |board|))
  {
    OpponentHandsPopped(u, k);
    assert runout[|board|..] == Popped(u[..|u| - 2 * k], 5 - |board|);
    PoppedSplit(u, 2 * k, 5 - |board|);
  }

  /** Line 54. */
  function OpponentScores(evaluate: Evaluator, runout: seq<Card>, hands: seq<seq<Card>>): seq<int>
  {
    seq(|hands|, t requires 0 <= t < |hands| => evaluate(runout, hands[t]))
  }

  /** The outcome of one trial dealt from the shuffled deck `deck`. */
  function TrialOutcome(evaluate: Evaluator, hero: seq<Card>, board: seq<Card>, players: nat, deck: seq<Card>): Outcome
    requires IsShuffledDeck(deck) && ValidSeen(hero, board) && 2 <= players <= 10
  {
    UnseenSize(deck, hero + board);
    var u := Unseen(deck, hero + board);
    var runout := Runout(u, board, players - 1);
    Classify(evaluate(runout, hero), OpponentScores(evaluate, runout, OpponentHands(u, players - 1)))
  }

  /** The outcomes of all trials, trial `r` dealt from `decks[r]`. */
  function Outcomes(evaluate: Evaluator, hero: seq<Card>, board: seq<Card>, players: nat, decks: seq<seq<Card>>): (outs: seq<Outcome>)
    requires ValidSeen(hero, board) && 2 <= players <= 10
    requires forall r :: 0 <= r < |decks| ==> IsShuffledDeck(decks[r])
  {
    seq(|decks|, r requires 0 <= r < |decks| => TrialOutcome(evaluate, hero, board, players, decks[r]))
  }

  /** No card is dealt twice, and none is the hero's or the board's. */
  lemma {:induction false} PoppedFresh(deck: seq<Card>, seen: seq<Card>, n: nat)
    requires Distinct(deck) && Distinct(seen)
    requires n <= |Unseen(deck, seen)|
    ensures Distinct(seen + Popped(Unseen(deck, seen), n))
  {
    var u := Unseen(deck, seen);
    var p := Popped(u, n);
    UnseenCounts(deck, seen);
    PoppedCounts(u, n);
    assert u == u[..|u| - n] + u[|u| - n..];
    assert multiset(u) == multiset(u[..|u| - n]) + multiset(p);
    forall x
      ensures multiset(seen + p)[x] <= 1
    {
      assert multiset(p)[x] <= multiset(u)[x];
      if x in seen {
        assert multiset(seen)[x] <= 1;
      } else {
        assert multiset(deck)[x] <= 1;
      }
    }
  }

  /** Line 46: `k` hands of two cards popped off the end of `deck`. */
  method DealOpponents(deck: seq<Card>, k: nat) returns (hands: seq<seq<Card>>, rest: seq<Card>)
    requires 2 * k <= |deck|
    ensures hands == OpponentHands(deck, k)
    ensures rest == deck[..|deck| - 2 * k]
  {
    hands, rest := [], deck;
    var t := 0;
    while t < k
      invariant 0 <= t <= k
      invariant rest == deck[..|deck| - 2 * t]
      invariant hands == OpponentHands(deck, t)
    {
      var c1 := rest[|rest| - 1];
      rest := rest[..|rest| - 1];
      var c2 := rest[|rest| - 1];
      rest := rest[..|rest| - 1];
      hands := hands + [[c1, c2]];
      t := t + 1;
    }
  }

  /** Lines 49-51: `runout = board[:]`, then `runout.append(deck.pop())`
      until it holds five cards. */
  method FinishBoard(board: seq<Card>, deck: seq<Card>) returns (runout: seq<Card>, rest: seq<Card>)
    requires |board| <= 5 && 5 - |board| <= |deck|
    ensures runout == board + Popped(deck, 5 - |board|)
    ensures rest == deck[..|deck| - (5 - |board|)]
  {
    runout, rest := board, deck;
    while |runout| < 5
      invariant |board| <= |runout| <= 5
      invariant rest == deck[..|deck| - (|runout| - |board|)]
      invariant runout == board + Popped(deck, |runout| - |board|)
    {
      var c := rest[|rest| - 1];
      rest := rest[..|rest| - 1];
      runout := runout + [c];
    }
  }

  /** Lines 40-51: one trial's deal. The opponents' hands and then the
      runout are popped off the end of the deck left after removing hero and
      board. */
  method Deal(hero: seq<Card>, board: seq<Card>, players: nat, shuffled: seq<Card>)
    returns (oppHands: seq<seq<Card>>, runout: seq<Card>)
    requires IsShuffledDeck(shuffled) && ValidSeen(hero, board) && 2 <= players <= 10
    ensures |Unseen(shuffled, hero + board)| == DeckSize - |hero| - |board|
    ensures oppHands == OpponentHands(Unseen(shuffled, hero + board), players - 1)
    ensures runout == Runout(Unseen(shuffled, hero + board), board, players - 1)
    ensures |oppHands| == players - 1 && forall t :: 0 <= t < |oppHands| ==> |oppHands[t]| == 2
    ensures |runout| == 5 && runout[..|board|] == board
    ensures Flatten(oppHands) + runout[|board|..]
         == Popped(Unseen(shuffled, hero + board), 2 * (players - 1) + (5 - |board|))
    ensures Distinct(hero + board + Popped(Unseen(shuffled, hero + board), 2 * (players - 1) + (5 - |board|)))
  {
    var deck := RemoveSeen(shuffled, hero + board);
    var rest;
    oppHands, rest := DealOpponents(deck, players - 1);
    runout, rest := FinishBoard(board, rest);
    DealOrder(deck, players - 1, board, oppHands, runout);
    ShuffledDistinct(shuffled);
    PoppedFresh(shuffled, hero + board, 2 * (players - 1) + (5 - |board|));
  }

  /** Lines 40-62: one trial, from dealing to the showdown. */
  method PlayTrial(hero: seq<Card>, board: seq<Card>, players: nat, evaluate: Evaluator, shuffled: seq<Card>)
    returns (outcome: Outcome)
    requires IsShuffledDeck(shuffled) && ValidSeen(hero, board) && 2 <= players <= 10
    ensures outcome == TrialOutcome(evaluate, hero, board, players, shuffled)
  {
    var oppHands, runout := Deal(hero, board, players, shuffled);
    var heroScore := evaluate(runout, hero);
    var oppScores := OpponentScores(evaluate, runout, oppHands);
    outcome := Classify(heroScore, oppScores);
  }

  /** Every trial is counted under exactly one outcome. */
  lemma {:induction false} TallyTotal(outs: seq<Outcome>)
    ensures Count(outs, Win) + Count(outs, Tie) + Count(outs, Loss) == |outs|
  {
    if |outs| > 0 {
      TallyTotal(outs[..|outs| - 1]);
      match outs[|outs| - 1]
      case Win =>
      case Tie =>
      case Loss =>
    }
  }

  /** Lines 36-64: the win, tie and loss counts over `trials` trials, trial
      `r` dealt from the shuffled deck `decks[r]`. */
  method EstimateEquity(hero: seq<Card>, board: seq<Card>, players: nat, trials: nat,
                        evaluate: Evaluator, decks: seq<seq<Card>>)
    returns (wins: nat, ties: nat, loses: int)
    requires ValidSeen(hero, board) && 2 <= players <= 10
    requires trials > 0 && |decks| == trials
    requires forall r :: 0 <= r < trials ==> IsShuffledDeck(decks[r])
    ensures wins == Count(Outcomes(evaluate, hero, board, players, decks), Win)
    ensures ties == Count(Outcomes(evaluate, hero, board, players, decks), Tie)
    ensures loses == Count(Outcomes(evaluate, hero, board, players, decks), Loss)
    ensures wins + ties + loses == trials && loses >= 0
  {
    ghost var outs := Outcomes(evaluate, hero, board, players, decks);
    wins, ties := 0, 0;
    for r := 0 to trials
      invariant wins == Count(outs[..r], Win)
      invariant ties == Count(outs[..r], Tie)
    {
      var outcome := PlayTrial(hero, board, players, evaluate, decks[r]);
      CountPrefix(outs, r, Win);
      CountPrefix(outs, r, Tie);
      if outcome == Win {
        wins := wins + 1;
      } else if outcome == Tie {
        ties := ties + 1;
      }
    }
    assert outs[..trials] == outs;
    TallyTotal(outs);
    loses := trials - wins - ties;
  }
}
