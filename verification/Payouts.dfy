/**
 What a hand pays, told from the deck and the contributions: each seat is judged by
 its own two cards and the five of the board, each layer of the pot is shared by the
 best of the seats that reached it, and odd chips go to the lowest of those seats.
 */
module Payouts {
  import opened Chips
  import opened Hands
  import opened Betting
  import opened Ascending
  import opened Showdown
  import opened Rules

  // ----- the reference -----

  /** How good a seat's seven cards are; lower is better. */
  function Strength(h: Hand, eval: Evaluator, p: int): Score
    requires Shape(h) && Seat(p)
  {
    eval([h.hole[p].0, h.hole[p].1] + h.deck[12..17])
  }

  /** In the hand, with at least that much in, and no such seat is better. */
  ghost predicate BestAt(h: Hand, eval: Evaluator, level: int, p: int)
    requires Shape(h) && Seat(p)
  {
    && h.inHand[p] && level <= h.contributed[p]
    && forall q :: Seat(q) && h.inHand[q] && level <= h.contributed[q] ==> Strength(h, eval, p) <= Strength(h, eval, q)
  }

  ghost function BestSeats(h: Hand, eval: Evaluator, level: int): set<int>
    requires Shape(h)
  {
    set q | 0 <= q < 6 && BestAt(h, eval, level, q)
  }

  /** The largest contribution below a level. */
  function Below(c: seq<int>, level: int): (b: int)
    ensures 0 <= b && (0 < level ==> b < level)
  {
    if c == [] then 0
    else
      var b := Below(c[..|c| - 1], level);
      if b < c[|c| - 1] < level then c[|c| - 1] else b
  }

  function Largest(c: seq<int>): (x: int)
    ensures 0 <= x
  {
    if c == [] then 0 else if Largest(c[..|c| - 1]) < c[|c| - 1] then c[|c| - 1] else Largest(c[..|c| - 1])
  }

  /** The chips every seat has in between two levels. */
  function Between(c: seq<int>, low: int, high: int): int {
    Sum(Capped(c, high)) - Sum(Capped(c, low))
  }

  /** A seat's part of the chips between two levels: an equal share, odd chips to the lowest seats. */
  ghost function Share(h: Hand, eval: Evaluator, low: int, high: int, p: int): int
    requires Shape(h) && Seat(p)
  {
    var chips, best := Between(h.contributed, low, high), BestSeats(h, eval, high);
    if p !in best then 0
    else chips / |best| + if |Lower(best, p)| < chips % |best| then 1 else 0
  }

  /** What a seat wins of the chips up to a level. */
  ghost function Winnings(h: Hand, eval: Evaluator, level: int, p: int): int
    requires Shape(h) && Seat(p)
    decreases level
  {
    if level <= 0 then 0
    else
      var low := Below(h.contributed, level);
      Winnings(h, eval, low, p) + Share(h, eval, low, level, p)
  }

  // ----- members of an ascending list, counted -----

  ghost function Members(w: seq<int>): set<int> {
    set x | x in w
  }

  ghost function Lower(s: set<int>, p: int): set<int> {
    set x | x in s && x < p
  }

  lemma {:induction false} CountMembers(w: seq<int>)
    requires Increasing(w)
    ensures |Members(w)| == |w|
  {
    if w != [] {
      var front, last := w[..|w| - 1], w[|w| - 1];
      CountMembers(front);
      assert w == front + [last];
      assert Members(w) == Members(front) + {last};
      assert last !in front;
    }
  }

  lemma LowerMembers(w: seq<int>, i: nat)
    requires Increasing(w) && i < |w|
    ensures |Lower(Members(w), w[i])| == i
  {
    CountMembers(w[..i]);
    forall x
      ensures x in Lower(Members(w), w[i]) <==> x in Members(w[..i])
    {
      if x in w && x < w[i] {
        var j :| 0 <= j < |w| && w[j] == x;
        assert j < i;
        assert w[..i][j] == x;
      }
    }
    assert Lower(Members(w), w[i]) == Members(w[..i]);
  }

  /** A split gives each winner its share and the odd chips to the first of them. */
  lemma SplitGives(stack: seq<int>, w: seq<int>, amount: int, p: nat)
    requires w != [] && Increasing(w) && SeatsIn(w, |stack|) && p < |stack| && 0 <= amount
    ensures var best := Members(w);
            && |best| > 0
            && Split(stack, w, amount)[p] - stack[p] ==
               if p !in best then 0 else amount / |best| + if |Lower(best, p)| < amount % |best| then 1 else 0
  {
    CountMembers(w);
    AddToGives(stack, w, amount / |w|, |w|, p);
    AddToGives(AddTo(stack, w, amount / |w|, |w|), w, 1, amount % |w|, p);
    if p in w {
      var i :| 0 <= i < |w| && w[i] == p;
      LowerMembers(w, i);
    }
  }

  /** Chips no layer took, in states whose pot is not their contributions, go to the best hands, all of them. */
  lemma RestIsPaid(h: Hand, scores: seq<Score>, s: Payout, p: int)
    requires Shape(h) && |scores| == PLAYERS && |s.stack| == PLAYERS && 0 < s.remaining && Seat(p)
    requires exists q :: Seat(q) && h.inHand[q]
    ensures var r := PayRest(h, scores, s); var best := set q | 0 <= q < 6 && IsBest(h.inHand, scores, q);
            && r.remaining == 0 && Sum(r.stack) == Sum(s.stack) + s.remaining && |best| > 0
            && r.stack[p] - s.stack[p] ==
               if p !in best then 0
               else s.remaining / |best| + if |Lower(best, p)| < s.remaining % |best| then 1 else 0
  {
    var w := BestInHand(h, scores);
    var q :| Seat(q) && h.inHand[q];
    var b := LowestOf(h.inHand, scores, PLAYERS, q);
    assert IsBest(h.inHand, scores, b) && b in w;
    assert Members(w) == set q | 0 <= q < 6 && IsBest(h.inHand, scores, q);
    SplitConserves(s.stack, w, s.remaining);
    SplitGives(s.stack, w, s.remaining, p);
  }

  lemma {:induction false} LowestOf(flags: seq<bool>, scores: seq<Score>, n: nat, p: int) returns (b: int)
    requires |flags| == |scores| == PLAYERS && n <= PLAYERS && 0 <= p < PLAYERS && flags[p]
    requires forall q :: n <= q < PLAYERS && flags[q] ==> scores[p] <= scores[q]
    ensures 0 <= b < PLAYERS && flags[b] && forall q :: 0 <= q < PLAYERS && flags[q] ==> scores[b] <= scores[q]
    decreases n
  {
    b := p;
    if n > 0 {
      b := LowestOf(flags, scores, n - 1, if flags[n - 1] && scores[n - 1] < scores[p] then n - 1 else p);
    }
  }

  // ----- scores are strengths -----

  /** The board once completed is five cards of the deck, from the thirteenth on. */
  lemma BoardIsDealt(h: Hand)
    requires Cards(h)
    ensures CompleteBoard(h).board == h.deck[12..17]
  {
    var n := MAX_BOARD - |h.board|;
    DealTakesFromDeck(h, n);
    assert h.deck[12..h.deckPos] + h.deck[h.deckPos..17] == h.deck[12..17];
  }

  /** The scores of a showdown are the strengths of the seats still in. */
  ghost predicate Judged(h: Hand, eval: Evaluator, scores: seq<Score>)
    requires Shape(h)
  {
    |scores| == PLAYERS && forall q :: Seat(q) && h.inHand[q] ==> scores[q] == Strength(h, eval, q)
  }

  lemma ScoresAreStrengths(h: Hand, eval: Evaluator)
    requires Cards(h)
    ensures Judged(h, eval, Scores(CompleteBoard(h), eval))
  {
    BoardIsDealt(h);
  }

  lemma WinnersAreBest(h: Hand, eval: Evaluator, scores: seq<Score>, level: int)
    requires Shape(h) && Judged(h, eval, scores)
    ensures Members(Winners(h, scores, level)) == BestSeats(h, eval, level)
  {
    forall p | Seat(p)
      ensures Wins(h, scores, level, p) == BestAt(h, eval, level, p)
    {
    }
  }

  // ----- layers -----

  lemma {:induction false} BelowIs(c: seq<int>, level: int)
    requires 0 < level
    ensures Below(c, level) == 0 || Below(c, level) in c
    ensures forall i :: 0 <= i < |c| && c[i] < level ==> c[i] <= Below(c, level)
  {
    if c != [] {
      BelowIs(c[..|c| - 1], level);
      assert c == c[..|c| - 1] + [c[|c| - 1]];
    }
  }

  lemma {:induction false} LargestIs(c: seq<int>)
    ensures Largest(c) == 0 || Largest(c) in c
    ensures forall i :: 0 <= i < |c| ==> c[i] <= Largest(c)
  {
    if c != [] {
      LargestIs(c[..|c| - 1]);
      assert c == c[..|c| - 1] + [c[|c| - 1]];
    }
  }

  lemma TopIsBelow(c: seq<int>, levels: seq<int>, k: nat)
    requires IsLevels(levels, c) && 1 <= k <= |levels|
    ensures Top(levels, k - 1) == Below(c, levels[k - 1])
  {
    LevelsAreAdjacent(c, levels, k);
    BelowIs(c, levels[k - 1]);
    if k > 1 {
      assert levels[k - 2] in levels;
      var i :| 0 <= i < |c| && c[i] == levels[k - 2];
    }
  }

  lemma TopIsLargest(c: seq<int>, levels: seq<int>)
    requires IsLevels(levels, c)
    ensures Top(levels, |levels|) == Largest(c)
  {
    TopIsGreatest(c, levels);
    LargestIs(c);
    if levels != [] {
      assert levels[|levels| - 1] in levels;
      var i :| 0 <= i < |c| && c[i] == levels[|levels| - 1];
    }
  }

  lemma LayerShare(h: Hand, eval: Evaluator, scores: seq<Score>, levels: seq<int>, k: nat, s: Payout, p: int)
    requires Payable(h) && Judged(h, eval, scores) && IsLevels(levels, h.contributed) && 1 <= k <= |levels| && Seat(p)
    requires |s.stack| == PLAYERS && s.remaining == h.pot - CapSum(h.contributed, Top(levels, k - 1))
    ensures PayLayer(h, scores, Top(levels, k - 1), levels[k - 1], s).stack[p] - s.stack[p] ==
            Share(h, eval, Below(h.contributed, levels[k - 1]), levels[k - 1], p)
  {
    var level := levels[k - 1];
    TopIsBelow(h.contributed, levels, k);
    LayerPaid(h, scores, levels, k, s);
    WinnersAreBest(h, eval, scores, level);
    SplitGives(s.stack, Winners(h, scores, level), Between(h.contributed, Top(levels, k - 1), level), p);
  }

  lemma {:induction false} LayersGive(h: Hand, eval: Evaluator, scores: seq<Score>, levels: seq<int>, k: nat, p: int)
    requires Payable(h) && Judged(h, eval, scores) && IsLevels(levels, h.contributed) && k <= |levels| && Seat(p)
    ensures PayLayers(h, scores, levels, k).stack[p] - h.stack[p] == Winnings(h, eval, Top(levels, k), p)
  {
    assert |scores| == PLAYERS;
    hide Share, Judged, IsLevels, PayLayer;
    if k > 0 {
      LayersGive(h, eval, scores, levels, k - 1, p);
      LayersPaid(h, scores, levels, k - 1);
      LevelsAreAdjacent(h.contributed, levels, k);
      TopIsBelow(h.contributed, levels, k);
      LayerShare(h, eval, scores, levels, k, PayLayers(h, scores, levels, k - 1), p);
    }
  }

  // ----- whole hands -----

  lemma ShowdownWinnings(h: Hand, eval: Evaluator, p: int)
    requires Payable(h) && Cards(h) && Seat(p)
    ensures PayShowdown(h, eval).stack[p] - h.stack[p] == Winnings(h, eval, Largest(h.contributed), p)
  {
    var h1 := CompleteBoard(h);
    var scores, levels := Scores(h1, eval), Levels(h.contributed);
    ScoresAreStrengths(h, eval);
    assert forall l :: Covers(h, l) ==> Covers(h1, l);
    ShowdownPaysOut(h1, scores);
    BoardIsFree(h, h1, scores, levels, |levels|);
    LayersGive(h, eval, scores, levels, |levels|, p);
    TopIsLargest(h.contributed, levels);
  }

  lemma {:induction false} BoardIsFree(h: Hand, r: Hand, scores: seq<Score>, levels: seq<int>, k: nat)
    requires Shape(h) && Shape(r) && r == h.(board := r.board, deckPos := r.deckPos)
    requires |scores| == PLAYERS && k <= |levels|
    ensures PayLayers(r, scores, levels, k) == PayLayers(h, scores, levels, k)
  {
    if k > 0 {
      BoardIsFree(h, r, scores, levels, k - 1);
      assert Reached(r, levels[k - 1]) == Reached(h, levels[k - 1]);
    }
  }

  /** The last seat standing takes the pot. */
  lemma SurvivorTakesPot(h: Hand, p: int)
    requires Payable(h) && NobodyElse(h) && Seat(p)
    ensures TakePot(h).stack[p] - h.stack[p] == if h.inHand[p] then h.pot else 0
  {
    var l :| Covers(h, l);
    assert h.inHand[FirstInHand(h.inHand, 0)];
  }

  /**
   Every hand pays every seat exactly this: the pot to a seat left alone; else, of
   the chips up to each contribution, its part of what the best of the seats that
   reached it share.
   */
  lemma HandPays(dealer: int, deck: seq<int>, moves: seq<Move>, eval: Evaluator, p: int)
    requires |deck| == DECK_SIZE && Seat(p)
    ensures var h := Run(Init(dealer, deck), moves);
            Resolve(h, eval).stack[p] - h.stack[p] ==
            if !NobodyElse(h) then Winnings(h, eval, Largest(h.contributed), p)
            else if h.inHand[p] then h.pot
            else 0
  {
    hide Winnings, Init, Run, PayShowdown, TakePot;
    RunKeeps(dealer, deck, moves);
    var h := Run(Init(dealer, deck), moves);
    BetsArePayable(h);
    NobodyElseIs(h);
    if NobodyElse(h) {
      SurvivorTakesPot(h, p);
    } else {
      ShowdownWinnings(h, eval, p);
    }
  }

  /** Every other seat still in is weaker. */
  ghost predicate Strongest(h: Hand, eval: Evaluator, p: int)
    requires Shape(h) && Seat(p)
  {
    h.inHand[p] && forall q :: Seat(q) && q != p && h.inHand[q] ==> Strength(h, eval, p) < Strength(h, eval, q)
  }

  /** Some seat still in is stronger and has at least as much in. */
  ghost predicate Beaten(h: Hand, eval: Evaluator, p: int)
    requires Shape(h) && Seat(p)
  {
    exists q :: Seat(q) && h.inHand[q] && Strength(h, eval, q) < Strength(h, eval, p)
                && h.contributed[p] <= h.contributed[q]
  }

  /**
   Over every hand: nobody wins more than the chips played against it, the strongest
   hand wins all of those, and a folded or a beaten seat wins nothing.
   */
  lemma StrengthDecides(dealer: int, deck: seq<int>, moves: seq<Move>, eval: Evaluator, p: int)
    requires |deck| == DECK_SIZE && Seat(p)
    ensures var h := Run(Init(dealer, deck), moves); var gain := Resolve(h, eval).stack[p] - h.stack[p];
            && 0 <= gain <= Stakes(h, p)
            && (Strongest(h, eval, p) ==> gain == Stakes(h, p))
            && (!h.inHand[p] || Beaten(h, eval, p) ==> gain == 0)
  {
    hide Init, Run, Resolve, Stakes;
    RunKeeps(dealer, deck, moves);
    HandPaysExactly(dealer, deck, moves, eval, p);
    var h := Run(Init(dealer, deck), moves);
    var scores := Scores(CompleteBoard(h), eval);
    ScoresAreStrengths(h, eval);
    if Strongest(h, eval, p) {
      assert StrictlyBest(h, scores, p);
    }
    if h.inHand[p] && Beaten(h, eval, p) {
      var q :| Seat(q) && h.inHand[q] && Strength(h, eval, q) < Strength(h, eval, p)
               && h.contributed[p] <= h.contributed[q];
      assert Dominates(h, scores, q, p);
    }
  }

  lemma {:induction false} DealStays(dealer: int, deck: seq<int>, moves: seq<Move>)
    requires |deck| == DECK_SIZE
    ensures var h := Run(Init(dealer, deck), moves);
            && h.dealer == dealer % 6 && h.deck == deck
            && forall k :: 0 <= k < 6 ==> HasCards(h, h.dealer, deck, k)
  {
    hide Init, Inv, Step;
    if moves == [] {
      DealIs(dealer, deck);
    } else {
      var front, m := moves[..|moves| - 1], moves[|moves| - 1];
      DealStays(dealer, deck, front);
      RunKeeps(dealer, deck, front);
      var h, r := Run(Init(dealer, deck), front), Run(Init(dealer, deck), moves);
      DealKept(h, m);
      assert r == Step(h, m);
      forall k | 0 <= k < 6
        ensures HasCards(r, r.dealer, deck, k)
      {
        assert HasCards(h, h.dealer, deck, k);
      }
    }
  }

  lemma DealKept(h: Hand, m: Move)
    requires Inv(h)
    ensures Step(h, m).dealer == h.dealer && Step(h, m).deck == h.deck && Step(h, m).hole == h.hole
  {
    if !h.terminal {
      StepPlays(h, m);
      hide Step, Inv;
    }
  }

  /** At every point of every hand, the k-th seat from the dealer's left is judged by these seven cards of the deck. */
  lemma StrengthIsDealt(dealer: int, deck: seq<int>, moves: seq<Move>, eval: Evaluator, k: nat)
    requires |deck| == DECK_SIZE && k < 6
    ensures Strength(Run(Init(dealer, deck), moves), eval, (dealer % 6 + 1 + k) % 6) ==
            eval([deck[k], deck[6 + k]] + deck[12..17])
  {
    hide Init, Run;
    DealStays(dealer, deck, moves);
    assert HasCards(Run(Init(dealer, deck), moves), dealer % 6, deck, k);
  }
}
