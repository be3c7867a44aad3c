/**
 The end of a hand: side-pot layers, their winners and the split of each layer.
 A layer runs from one distinct contribution to the next; everyone who put in
 at least its top shares in it.
 */
module Showdown {
  import opened Chips
  import opened Hands
  import opened Betting
  import opened Ascending
  import opened Sequences

  type Score = int

  // ----- layers -----

  /** The distinct positive contributions, ascending. */
  predicate IsLevels(levels: seq<int>, c: seq<int>) {
    && Increasing(levels)
    && (forall x :: x in levels ==> 0 < x && x in c)
    && (forall x :: x in c && 0 < x ==> x in levels)
  }

  function Levels(c: seq<int>): (levels: seq<int>)
    ensures IsLevels(levels, c)
  {
    if c == [] then []
    else
      var n := |c| - 1;
      assert c == c[..n] + [c[n]];
      if c[n] <= 0 then Levels(c[..n]) else Insert(Levels(c[..n]), c[n])
  }

  /** Chips that would be in the pot if no seat had put in more than `cap`. */
  function Capped(c: seq<int>, cap: int): (r: seq<int>)
    ensures |r| == |c|
    ensures forall i :: 0 <= i < |c| ==> r[i] == Min(c[i], cap)
  {
    seq(|c|, i requires 0 <= i < |c| => Min(c[i], cap))
  }

  function CapSum(c: seq<int>, cap: int): int {
    Sum(Capped(c, cap))
  }

  function AtLeast(c: seq<int>, level: int): (flags: seq<bool>)
    ensures |flags| == |c|
    ensures forall i :: 0 <= i < |c| ==> flags[i] == (c[i] >= level)
  {
    seq(|c|, i requires 0 <= i < |c| => c[i] >= level)
  }

  /** The chips between two levels, from every seat that reached the upper one. */
  function LayerChips(c: seq<int>, prev: int, level: int): int {
    (level - prev) * CountTrue(AtLeast(c, level))
  }

  /** No contribution lies strictly between the two levels. */
  ghost predicate Adjacent(c: seq<int>, prev: int, level: int) {
    prev <= level && forall i :: 0 <= i < |c| ==> c[i] <= prev || level <= c[i]
  }

  lemma {:induction false} LayerIsCapDifference(c: seq<int>, prev: int, level: int)
    requires Adjacent(c, prev, level)
    ensures LayerChips(c, prev, level) == CapSum(c, level) - CapSum(c, prev)
  {
    if c != [] {
      var n := |c| - 1;
      assert Adjacent(c[..n], prev, level) by {
        forall i | 0 <= i < n
          ensures c[..n][i] <= prev || level <= c[..n][i]
        {
          assert c[..n][i] == c[i];
        }
      }
      LayerIsCapDifference(c[..n], prev, level);
      assert AtLeast(c, level)[..n] == AtLeast(c[..n], level);
      assert Capped(c, level)[..n] == Capped(c[..n], level);
      assert Capped(c, prev)[..n] == Capped(c[..n], prev);
      var k := CountTrue(AtLeast(c[..n], level));
      assert (level - prev) * (k + 1) == (level - prev) * k + (level - prev);
    }
  }

  lemma CapSumZero(c: seq<int>)
    requires forall i :: 0 <= i < |c| ==> 0 <= c[i]
    ensures CapSum(c, 0) == 0
  {
    SumZero(Capped(c, 0));
  }

  lemma CapSumAll(c: seq<int>, cap: int)
    requires forall i :: 0 <= i < |c| ==> c[i] <= cap
    ensures CapSum(c, cap) == Sum(c)
  {
    assert Capped(c, cap) == c;
  }

  // ----- winners and shares -----

  /** Seats entitled to a layer. */
  predicate Eligible(h: Hand, level: int, p: int)
    requires Shape(h) && Seat(p)
  {
    h.inHand[p] && h.contributed[p] >= level
  }

  /** Lower scores are better hands. */
  predicate Wins(h: Hand, scores: seq<Score>, level: int, p: int)
    requires Shape(h) && Seat(p) && |scores| == PLAYERS
  {
    Eligible(h, level, p) &&
    forall q :: 0 <= q < PLAYERS ==> Eligible(h, level, q) ==> scores[p] <= scores[q]
  }

  predicate SeatsIn(winners: seq<int>, n: int) {
    forall k :: 0 <= k < |winners| ==> 0 <= winners[k] < n
  }

  predicate IsBest(flags: seq<bool>, scores: seq<Score>, p: int)
    requires |flags| == |scores| == PLAYERS && Seat(p)
  {
    flags[p] && forall q :: 0 <= q < PLAYERS ==> flags[q] ==> scores[p] <= scores[q]
  }

  function BestUpTo(flags: seq<bool>, scores: seq<Score>, n: nat): (w: seq<int>)
    requires |flags| == |scores| == PLAYERS && n <= PLAYERS
    ensures Increasing(w) && |w| <= n && SeatsIn(w, PLAYERS)
    ensures forall p :: p in w <==> 0 <= p < n && IsBest(flags, scores, p)
  {
    if n == 0 then []
    else if IsBest(flags, scores, n - 1) then
      AppendIncreasing(BestUpTo(flags, scores, n - 1), n - 1);
      BestUpTo(flags, scores, n - 1) + [n - 1]
    else BestUpTo(flags, scores, n - 1)
  }

  /** The flagged seats with the lowest score, in seat order. */
  function Best(flags: seq<bool>, scores: seq<Score>): (w: seq<int>)
    requires |flags| == |scores| == PLAYERS
    ensures Increasing(w) && |w| <= PLAYERS && SeatsIn(w, PLAYERS)
    ensures forall p :: p in w <==> Seat(p) && IsBest(flags, scores, p)
  {
    BestUpTo(flags, scores, PLAYERS)
  }

  function Reached(h: Hand, level: int): (flags: seq<bool>)
    requires Shape(h)
    ensures |flags| == PLAYERS
    ensures forall p :: 0 <= p < PLAYERS ==> flags[p] == Eligible(h, level, p)
  {
    seq(PLAYERS, p requires 0 <= p < PLAYERS => Eligible(h, level, p))
  }

  /** The best eligible seats, in seat order. */
  function Winners(h: Hand, scores: seq<Score>, level: int): (w: seq<int>)
    requires Shape(h) && |scores| == PLAYERS
    ensures Increasing(w) && |w| <= PLAYERS && SeatsIn(w, PLAYERS)
    ensures forall p :: p in w <==> Seat(p) && Wins(h, scores, level, p)
  {
    Best(Reached(h, level), scores)
  }

  lemma {:induction false} BestExists(h: Hand, scores: seq<Score>, level: int, n: nat, p: int) returns (best: int)
    requires Shape(h) && |scores| == PLAYERS && n <= PLAYERS
    requires 0 <= p < n && Eligible(h, level, p)
    ensures 0 <= best < n && Eligible(h, level, best)
    ensures forall q :: 0 <= q < n && Eligible(h, level, q) ==> scores[best] <= scores[q]
    decreases n
  {
    if exists q :: 0 <= q < n - 1 && Eligible(h, level, q) {
      var q :| 0 <= q < n - 1 && Eligible(h, level, q);
      best := BestExists(h, scores, level, n - 1, q);
      if Eligible(h, level, n - 1) && scores[n - 1] < scores[best] {
        best := n - 1;
      }
    } else {
      best := p;
    }
  }

  lemma SomeoneWins(h: Hand, scores: seq<Score>, level: int, p: int)
    requires Shape(h) && |scores| == PLAYERS && Seat(p) && Eligible(h, level, p)
    ensures Winners(h, scores, level) != []
  {
    var best := BestExists(h, scores, level, PLAYERS, p);
    assert best in Winners(h, scores, level);
  }

  /** Adds an amount to each of the first k winners. */
  function AddTo(stack: seq<int>, winners: seq<int>, amount: int, k: nat): (r: seq<int>)
    requires k <= |winners| && SeatsIn(winners, |stack|)
    ensures |r| == |stack|
  {
    if k == 0 then stack
    else
      var s := AddTo(stack, winners, amount, k - 1);
      s[winners[k - 1] := s[winners[k - 1]] + amount]
  }

  /** Splits an amount: an equal share each, and one odd chip to the first few. */
  function Split(stack: seq<int>, winners: seq<int>, amount: int): (r: seq<int>)
    requires winners != [] && SeatsIn(winners, |stack|)
    ensures |r| == |stack|
  {
    AddTo(AddTo(stack, winners, amount / |winners|, |winners|), winners, 1, amount % |winners|)
  }

  lemma {:induction false} AddToSum(stack: seq<int>, winners: seq<int>, amount: int, k: nat)
    requires k <= |winners| && SeatsIn(winners, |stack|)
    ensures Sum(AddTo(stack, winners, amount, k)) == Sum(stack) + k * amount
  {
    if k > 0 {
      AddToSum(stack, winners, amount, k - 1);
      var s := AddTo(stack, winners, amount, k - 1);
      SumUpdate(s, winners[k - 1], s[winners[k - 1]] + amount);
      assert (k - 1) * amount + amount == k * amount;
    }
  }

  /** Nothing is lost in a split. */
  lemma {:induction false} SplitConserves(stack: seq<int>, winners: seq<int>, amount: int)
    requires winners != [] && SeatsIn(winners, |stack|)
    ensures Sum(Split(stack, winners, amount)) == Sum(stack) + amount
  {
    var n := |winners|;
    AddToSum(stack, winners, amount / n, n);
    AddToSum(AddTo(stack, winners, amount / n, n), winners, 1, amount % n);
    DivisionSplits(amount, n);
  }

  lemma DivisionSplits(amount: int, n: int)
    requires 0 < n
    ensures n * (amount / n) + amount % n * 1 == amount
  {
  }

  lemma {:induction false} AddToGives(stack: seq<int>, winners: seq<int>, amount: int, k: nat, p: nat)
    requires k <= |winners| && Increasing(winners) && SeatsIn(winners, |stack|) && p < |stack|
    ensures forall i :: 0 <= i < |winners| && winners[i] == p ==>
      AddTo(stack, winners, amount, k)[p] == stack[p] + if i < k then amount else 0
    ensures p !in winners ==> AddTo(stack, winners, amount, k)[p] == stack[p]
  {
    if k > 0 {
      AddToGives(stack, winners, amount, k - 1, p);
    }
  }

  lemma ShareBounds(amount: int, n: int, q: int, m: int)
    requires 0 < n && 0 <= amount && q == amount / n && m == amount % n
    ensures 0 <= q <= amount && 0 <= m < n
    ensures (0 < m ==> q + 1 <= amount) && (n == 1 ==> q == amount && m == 0)
  {
    MulAtLeast(q, n);
    assert amount == q * n + m;
  }

  /** q to every winner and one more to the first m. */
  lemma SharesGive(stack: seq<int>, winners: seq<int>, amount: int, q: int, m: nat, p: nat)
    requires winners != [] && Increasing(winners) && SeatsIn(winners, |stack|) && p < |stack|
    requires 0 <= q <= amount && m < |winners| && (0 < m ==> q + 1 <= amount) && (|winners| == 1 ==> q == amount)
    ensures var gain := AddTo(AddTo(stack, winners, q, |winners|), winners, 1, m)[p] - stack[p];
            && (p !in winners ==> gain == 0)
            && (p in winners ==> q <= gain <= q + 1 && 0 <= gain <= amount)
            && (winners == [p] ==> gain == amount)
  {
    AddToGives(stack, winners, q, |winners|, p);
    AddToGives(AddTo(stack, winners, q, |winners|), winners, 1, m, p);
    if p in winners {
      var i :| 0 <= i < |winners| && winners[i] == p;
    }
  }

  /** A winner's part of a split lies within one chip of every other winner's; nobody else gains. */
  lemma SplitIsFair(stack: seq<int>, winners: seq<int>, amount: int, p: nat)
    requires winners != [] && Increasing(winners) && SeatsIn(winners, |stack|) && p < |stack| && 0 <= amount
    ensures var gain := Split(stack, winners, amount)[p] - stack[p];
            && (p !in winners ==> gain == 0)
            && (p in winners ==> amount / |winners| <= gain <= amount / |winners| + 1 && 0 <= gain <= amount)
            && (winners == [p] ==> gain == amount)
  {
    ShareBounds(amount, |winners|, amount / |winners|, amount % |winners|);
    SharesGive(stack, winners, amount, amount / |winners|, amount % |winners|, p);
  }

  lemma MulAtLeast(q: int, n: int)
    requires 0 <= q && 1 <= n
    ensures q <= q * n
  {
    assert q * n == q + q * (n - 1);
  }

  // ----- paying the layers in turn -----

  datatype Payout = Payout(stack: seq<int>, remaining: int)

  function Top(levels: seq<int>, k: nat): int
    requires k <= |levels|
  {
    if k == 0 then 0 else levels[k - 1]
  }

  /** The k-th layer; a layer nobody in the hand reached would leave the pot unpaid. */
  function PayLayer(h: Hand, scores: seq<Score>, prev: int, level: int, s: Payout): (r: Payout)
    requires Shape(h) && |scores| == PLAYERS && |s.stack| == PLAYERS
    ensures |r.stack| == PLAYERS
  {
    var amount := Min(LayerChips(h.contributed, prev, level), s.remaining);
    if amount <= 0 then s
    else
      var w := Winners(h, scores, level);
      Payout(if w == [] then s.stack else Split(s.stack, w, amount), s.remaining - amount)
  }

  function PayLayers(h: Hand, scores: seq<Score>, levels: seq<int>, k: nat): (r: Payout)
    requires Shape(h) && |scores| == PLAYERS && k <= |levels|
    ensures |r.stack| == PLAYERS
  {
    if k == 0 then Payout(h.stack, h.pot)
    else PayLayer(h, scores, Top(levels, k - 1), levels[k - 1], PayLayers(h, scores, levels, k - 1))
  }

  /** Best hands still in, whatever they put in. */
  function BestInHand(h: Hand, scores: seq<Score>): (w: seq<int>)
    requires Shape(h) && |scores| == PLAYERS
    ensures SeatsIn(w, PLAYERS)
  {
    Best(h.inHand, scores)
  }

  /** Whatever the layers left over goes to the best hands. */
  function PayRest(h: Hand, scores: seq<Score>, s: Payout): (r: Payout)
    requires Shape(h) && |scores| == PLAYERS && |s.stack| == PLAYERS
    ensures |r.stack| == PLAYERS
  {
    var w := BestInHand(h, scores);
    if s.remaining <= 0 || w == [] then s
    else Payout(Split(s.stack, w, s.remaining), 0)
  }

  function CompleteBoard(h: Hand): (r: Hand)
    requires Shape(h)
    ensures Shape(r) && r == h.(board := r.board, deckPos := r.deckPos)
  {
    DealBoard(h, MAX_BOARD - |h.board|)
  }

  lemma {:induction false} DealFills(h: Hand, n: nat)
    requires Shape(h) && |h.board| + n <= MAX_BOARD
    ensures |DealBoard(h, n).board| == |h.board| + n
    decreases n
  {
    if n > 0 {
      DealFills(DealOne(h), n - 1);
    }
  }

  /** The evaluator maps seven cards to a score; which score is not modelled. */
  type Evaluator = seq<int> -> Score

  const NO_SCORE := 0xFFFF_FFFF

  function Scores(h: Hand, eval: Evaluator): (scores: seq<Score>)
    requires Shape(h)
    ensures |scores| == PLAYERS
  {
    seq(PLAYERS, p requires 0 <= p < PLAYERS =>
      if h.inHand[p] then eval([h.hole[p].0, h.hole[p].1] + h.board) else NO_SCORE)
  }

  function FirstInHand(inHand: seq<bool>, from: nat): (p: int)
    requires from <= |inHand|
    ensures p == -1 || (from <= p < |inHand| && inHand[p])
    ensures p == -1 ==> forall q :: from <= q < |inHand| ==> !inHand[q]
    decreases |inHand| - from
  {
    if from == |inHand| then -1 else if inHand[from] then from else FirstInHand(inHand, from + 1)
  }

  function TakePot(h: Hand): (r: Hand)
    requires Shape(h)
    ensures Shape(r)
  {
    var w := FirstInHand(h.inHand, 0);
    if w < 0 then h else h.(stack := h.stack[w := h.stack[w] + h.pot], pot := 0)
  }

  function PayShowdown(h: Hand, eval: Evaluator): (r: Hand)
    requires Shape(h)
    ensures Shape(r)
  {
    var h1 := CompleteBoard(h);
    var scores := Scores(h1, eval);
    var levels := Levels(h1.contributed);
    var s := PayRest(h1, scores, PayLayers(h1, scores, levels, |levels|));
    h1.(stack := s.stack, pot := Max(s.remaining, 0))
  }

  function Resolve(h: Hand, eval: Evaluator): (r: Hand)
    requires Shape(h)
    ensures Shape(r)
  {
    if h.resolved then h
    else Finish(if CountInHand(h) <= 1 then TakePot(h) else PayShowdown(h, eval)).(resolved := true)
  }

  // ----- the layers exhaust the pot -----

  /** Someone still in the hand put in as much as anybody. */
  ghost predicate Covers(h: Hand, l: int)
    requires Shape(h)
  {
    Seat(l) && h.inHand[l] && forall q :: 0 <= q < PLAYERS ==> h.contributed[q] <= h.contributed[l]
  }

  /** What the layers need: the pot is the contributions, and its top layer has an owner. */
  ghost predicate Payable(h: Hand) {
    && Shape(h)
    && h.pot == Sum(h.contributed)
    && (forall q :: 0 <= q < PLAYERS ==> 0 <= h.contributed[q])
    && exists l :: Covers(h, l)
  }

  lemma BetsArePayable(h: Hand)
    requires Bets(h)
    ensures Payable(h)
  {
    var l :| Seat(l) && Leads(h, l);
    forall q | 0 <= q < PLAYERS
      ensures 0 <= h.contributed[q] <= h.contributed[l]
    {
      assert Seat(q) && SeatOk(h, q);
      assert Earlier(h, q) <= Earlier(h, l);
    }
    assert Covers(h, l);
  }

  lemma LevelsAreAdjacent(c: seq<int>, levels: seq<int>, k: nat)
    requires IsLevels(levels, c) && 1 <= k <= |levels|
    ensures Adjacent(c, Top(levels, k - 1), levels[k - 1])
    ensures 0 <= Top(levels, k - 1) < levels[k - 1]
  {
    assert levels[k - 1] in levels;
    if k > 1 {
      assert levels[k - 2] in levels;
    }
    forall i | 0 <= i < |c|
      ensures c[i] <= Top(levels, k - 1) || levels[k - 1] <= c[i]
    {
      if c[i] > 0 {
        assert c[i] in levels;
        var m :| 0 <= m < |levels| && levels[m] == c[i];
        assert m < k - 1 || m == k - 1 || m > k - 1;
      }
    }
  }

  lemma LevelIsReached(c: seq<int>, level: int)
    requires level in c
    ensures 1 <= CountTrue(AtLeast(c, level))
  {
    var i :| 0 <= i < |c| && c[i] == level;
    CountZero(AtLeast(c, level));
    assert AtLeast(c, level)[i];
  }

  lemma ProductIsPositive(x: int, y: int)
    requires 1 <= x && 1 <= y
    ensures 0 < x * y
  {
  }

  lemma LayerIsPositive(c: seq<int>, levels: seq<int>, k: nat)
    requires IsLevels(levels, c) && 1 <= k <= |levels|
    ensures LayerChips(c, Top(levels, k - 1), levels[k - 1]) > 0
  {
    LevelsAreAdjacent(c, levels, k);
    assert levels[k - 1] in levels;
    LevelIsReached(c, levels[k - 1]);
    ProductIsPositive(levels[k - 1] - Top(levels, k - 1), CountTrue(AtLeast(c, levels[k - 1])));
  }

  lemma CapSumBelow(c: seq<int>, cap: int)
    ensures CapSum(c, cap) <= Sum(c)
  {
    SumMonotone(Capped(c, cap), c);
  }

  /** Someone still in the hand reached every level. */
  lemma LevelHasOwner(h: Hand, scores: seq<Score>, level: int)
    requires Payable(h) && |scores| == PLAYERS && level in h.contributed
    ensures Winners(h, scores, level) != []
  {
    var l :| Covers(h, l);
    SomeoneWins(h, scores, level, l);
  }

  lemma LayerFits(c: seq<int>, levels: seq<int>, k: nat)
    requires IsLevels(levels, c) && 1 <= k <= |levels|
    ensures var chips := LayerChips(c, Top(levels, k - 1), levels[k - 1]);
            && chips == CapSum(c, levels[k - 1]) - CapSum(c, Top(levels, k - 1))
            && 0 < chips <= Sum(c) - CapSum(c, Top(levels, k - 1))
  {
    LevelsAreAdjacent(c, levels, k);
    LayerIsCapDifference(c, Top(levels, k - 1), levels[k - 1]);
    LayerIsPositive(c, levels, k);
    CapSumBelow(c, levels[k - 1]);
  }

  /**
   With what lies above the previous level still in the pot, the k-th layer is
   neither clipped nor ownerless: it pays exactly its chips to its winners.
   */
  lemma LayerPaid(h: Hand, scores: seq<Score>, levels: seq<int>, k: nat, s: Payout)
    requires Payable(h) && |scores| == PLAYERS && IsLevels(levels, h.contributed) && 1 <= k <= |levels|
    requires |s.stack| == PLAYERS && s.remaining == h.pot - CapSum(h.contributed, Top(levels, k - 1))
    ensures var chips := CapSum(h.contributed, levels[k - 1]) - CapSum(h.contributed, Top(levels, k - 1));
            var w := Winners(h, scores, levels[k - 1]);
            && 0 < chips && w != []
            && PayLayer(h, scores, Top(levels, k - 1), levels[k - 1], s) ==
               Payout(Split(s.stack, w, chips), s.remaining - chips)
            && Sum(Split(s.stack, w, chips)) == Sum(s.stack) + chips
  {
    var c := h.contributed;
    LayerFits(c, levels, k);
    assert levels[k - 1] in levels;
    LevelHasOwner(h, scores, levels[k - 1]);
    SplitConserves(s.stack, Winners(h, scores, levels[k - 1]), LayerChips(c, Top(levels, k - 1), levels[k - 1]));
  }

  lemma {:induction false} LayersPaid(h: Hand, scores: seq<Score>, levels: seq<int>, k: nat)
    requires Payable(h) && |scores| == PLAYERS && IsLevels(levels, h.contributed) && k <= |levels|
    ensures var s := PayLayers(h, scores, levels, k);
            && s.remaining == h.pot - CapSum(h.contributed, Top(levels, k))
            && Sum(s.stack) + s.remaining == Sum(h.stack) + h.pot
  {
    if k == 0 {
      CapSumZero(h.contributed);
    } else {
      LayersPaid(h, scores, levels, k - 1);
      LayerPaid(h, scores, levels, k, PayLayers(h, scores, levels, k - 1));
    }
  }

  lemma TopCapsNothing(c: seq<int>, levels: seq<int>)
    requires IsLevels(levels, c)
    ensures CapSum(c, Top(levels, |levels|)) == Sum(c)
  {
    TopIsGreatest(c, levels);
    CapSumAll(c, Top(levels, |levels|));
  }

  lemma {:induction false} AllLayersPaid(h: Hand, scores: seq<Score>, levels: seq<int>)
    requires Payable(h) && |scores| == PLAYERS && IsLevels(levels, h.contributed)
    ensures PayLayers(h, scores, levels, |levels|).remaining == 0
    ensures Sum(PayLayers(h, scores, levels, |levels|).stack) == Sum(h.stack) + h.pot
  {
    TopCapsNothing(h.contributed, levels);
    LayersPaid(h, scores, levels, |levels|);
  }

  lemma TopIsGreatest(c: seq<int>, levels: seq<int>)
    requires IsLevels(levels, c)
    ensures forall i :: 0 <= i < |c| ==> c[i] <= Top(levels, |levels|)
  {
    if levels != [] {
      LastIsGreatest(levels);
      assert levels[|levels| - 1] in levels;
    }
    forall i | 0 <= i < |c|
      ensures c[i] <= Top(levels, |levels|)
    {
      if c[i] > 0 {
        assert c[i] in c;
      }
    }
  }

  // ----- what each seat is paid -----

  /** All the chips p was playing for: as much from each seat as p put in. */
  function Stakes(h: Hand, p: int): int
    requires Shape(h) && Seat(p)
  {
    CapSum(h.contributed, h.contributed[p])
  }

  ghost predicate StrictlyBest(h: Hand, scores: seq<Score>, p: int)
    requires Shape(h) && Seat(p) && |scores| == PLAYERS
  {
    h.inHand[p] && forall q :: Seat(q) && q != p && h.inHand[q] ==> scores[p] < scores[q]
  }

  /** p beats q and put in no less. */
  ghost predicate Dominates(h: Hand, scores: seq<Score>, p: int, q: int)
    requires Shape(h) && Seat(p) && Seat(q) && |scores| == PLAYERS
  {
    h.inHand[p] && scores[p] < scores[q] && h.contributed[q] <= h.contributed[p]
  }

  lemma SingleWinner(w: seq<int>, p: int)
    requires Increasing(w) && p in w && forall q :: q in w ==> q == p
    ensures w == [p]
  {
    assert w[0] in w && w[|w| - 1] in w;
    assert w[0] == w[|w| - 1] == p;
  }

  lemma SoleWinner(h: Hand, scores: seq<Score>, level: int, p: int)
    requires Shape(h) && |scores| == PLAYERS && Seat(p) && StrictlyBest(h, scores, p) && level <= h.contributed[p]
    ensures Winners(h, scores, level) == [p]
  {
    assert Eligible(h, level, p);
    assert Wins(h, scores, level, p);
    SingleWinner(Winners(h, scores, level), p);
  }

  /** One layer's payment, seat by seat. */
  lemma {:induction false} LayerGain(h: Hand, scores: seq<Score>, levels: seq<int>, k: nat, s: Payout, p: int)
    requires Payable(h) && |scores| == PLAYERS && IsLevels(levels, h.contributed) && 1 <= k <= |levels| && Seat(p)
    requires |s.stack| == PLAYERS && s.remaining == h.pot - CapSum(h.contributed, Top(levels, k - 1))
    ensures var c := h.contributed; var level := levels[k - 1]; var n := |Winners(h, scores, level)|;
            var gain := PayLayer(h, scores, Top(levels, k - 1), level, s).stack[p] - s.stack[p];
            var chips := CapSum(c, level) - CapSum(c, Top(levels, k - 1));
            && 0 <= gain <= chips && 0 < n
            && (if Wins(h, scores, level, p) then chips / n <= gain <= chips / n + 1 else gain == 0)
            && (StrictlyBest(h, scores, p) && level <= c[p] ==> gain == chips)
  {
    var c, prev, level := h.contributed, Top(levels, k - 1), levels[k - 1];
    LayerPaid(h, scores, levels, k, s);
    SplitIsFair(s.stack, Winners(h, scores, level), CapSum(c, level) - CapSum(c, prev), p);
    if StrictlyBest(h, scores, p) && level <= c[p] {
      SoleWinner(h, scores, level, p);
    }
  }

  lemma SeatBelowOrAbove(c: seq<int>, levels: seq<int>, k: nat, p: nat)
    requires IsLevels(levels, c) && 1 <= k <= |levels| && p < |c|
    ensures c[p] <= Top(levels, k - 1) < levels[k - 1] || Top(levels, k - 1) < levels[k - 1] <= c[p]
  {
    LevelsAreAdjacent(c, levels, k);
  }

  lemma {:induction false} SeatGains(h: Hand, scores: seq<Score>, levels: seq<int>, k: nat, p: int)
    requires Payable(h) && |scores| == PLAYERS && IsLevels(levels, h.contributed) && k <= |levels| && Seat(p)
    ensures var c := h.contributed; var gain := PayLayers(h, scores, levels, k).stack[p] - h.stack[p];
            var most := CapSum(c, Min(c[p], Top(levels, k)));
            && 0 <= gain <= most
            && (!h.inHand[p] ==> gain == 0)
            && (StrictlyBest(h, scores, p) ==> gain == most)
  {
    var c := h.contributed;
    if k == 0 {
      CapSumZero(c);
    } else {
      SeatGains(h, scores, levels, k - 1, p);
      LayersPaid(h, scores, levels, k - 1);
      var s := PayLayers(h, scores, levels, k - 1);
      assert PayLayers(h, scores, levels, k) == PayLayer(h, scores, Top(levels, k - 1), levels[k - 1], s);
      LayerGain(h, scores, levels, k, s, p);
      SeatBelowOrAbove(c, levels, k, p);
      assert Wins(h, scores, levels[k - 1], p) ==> h.inHand[p] && levels[k - 1] <= c[p];
    }
  }

  lemma {:induction false} DominatedGains(h: Hand, scores: seq<Score>, levels: seq<int>, k: nat, p: int, q: int)
    requires Payable(h) && |scores| == PLAYERS && IsLevels(levels, h.contributed) && k <= |levels|
    requires Seat(p) && Seat(q) && Dominates(h, scores, p, q)
    ensures PayLayers(h, scores, levels, k).stack[q] == h.stack[q]
  {
    if k > 0 {
      DominatedGains(h, scores, levels, k - 1, p, q);
      LayersPaid(h, scores, levels, k - 1);
      LayerGain(h, scores, levels, k, PayLayers(h, scores, levels, k - 1), q);
      assert Wins(h, scores, levels[k - 1], q) ==> Eligible(h, levels[k - 1], p);
    }
  }

  lemma BeatenGainNothing(h: Hand, scores: seq<Score>, levels: seq<int>, p: int)
    requires Payable(h) && |scores| == PLAYERS && IsLevels(levels, h.contributed) && Seat(p)
    ensures forall q :: Seat(q) && Dominates(h, scores, q, p) ==>
              PayLayers(h, scores, levels, |levels|).stack[p] == h.stack[p]
  {
    forall q | Seat(q) && Dominates(h, scores, q, p)
      ensures PayLayers(h, scores, levels, |levels|).stack[p] == h.stack[p]
    {
      DominatedGains(h, scores, levels, |levels|, q, p);
    }
  }

  lemma ShowdownPaysOut(h: Hand, scores: seq<Score>)
    requires Payable(h) && |scores| == PLAYERS
    ensures var levels := Levels(h.contributed); var s := PayLayers(h, scores, levels, |levels|);
            s.remaining == 0 && Sum(s.stack) == Sum(h.stack) + h.pot && PayRest(h, scores, s) == s
  {
    AllLayersPaid(h, scores, Levels(h.contributed));
  }

  lemma ShowdownSeat(h: Hand, scores: seq<Score>, p: int)
    requires Payable(h) && |scores| == PLAYERS && Seat(p)
    ensures var levels := Levels(h.contributed); var s := PayLayers(h, scores, levels, |levels|);
            && 0 <= s.stack[p] - h.stack[p] <= Stakes(h, p)
            && (!h.inHand[p] ==> s.stack[p] == h.stack[p])
            && (StrictlyBest(h, scores, p) ==> s.stack[p] == h.stack[p] + Stakes(h, p))
  {
    hide PayLayers, CapSum, StrictlyBest;
    var levels := Levels(h.contributed);
    SeatGains(h, scores, levels, |levels|, p);
    TopIsGreatest(h.contributed, levels);
  }

  /**
   Every showdown: the layers take the whole pot, nobody is paid more than the
   chips played against them, folded seats get nothing, a strictly best hand gets
   all of its stakes, and a hand beaten by one with at least as much in gets nothing.
   */
  lemma ShowdownExact(h: Hand, scores: seq<Score>, p: int)
    requires Payable(h) && |scores| == PLAYERS && Seat(p)
    ensures var levels := Levels(h.contributed); var s := PayLayers(h, scores, levels, |levels|);
            && s.remaining == 0 && Sum(s.stack) == Sum(h.stack) + h.pot
            && PayRest(h, scores, s) == s
            && 0 <= s.stack[p] - h.stack[p] <= Stakes(h, p)
            && (!h.inHand[p] ==> s.stack[p] == h.stack[p])
            && (StrictlyBest(h, scores, p) ==> s.stack[p] == h.stack[p] + Stakes(h, p))
            && (forall q :: Seat(q) && Dominates(h, scores, q, p) ==> s.stack[p] == h.stack[p])
  {
    ShowdownPaysOut(h, scores);
    ShowdownSeat(h, scores, p);
    BeatenGainNothing(h, scores, Levels(h.contributed), p);
  }

  /** Two winners of one layer are paid within a chip of each other. */
  lemma TiesWithinOneChip(h: Hand, scores: seq<Score>, levels: seq<int>, k: nat, p: int, q: int)
    requires Payable(h) && |scores| == PLAYERS && IsLevels(levels, h.contributed) && 1 <= k <= |levels|
    requires Seat(p) && Seat(q) && Wins(h, scores, levels[k - 1], p) && Wins(h, scores, levels[k - 1], q)
    ensures var before := PayLayers(h, scores, levels, k - 1).stack; var after := PayLayers(h, scores, levels, k).stack;
            -1 <= (after[p] - before[p]) - (after[q] - before[q]) <= 1
  {
    LayersPaid(h, scores, levels, k - 1);
    LayerGain(h, scores, levels, k, PayLayers(h, scores, levels, k - 1), p);
    LayerGain(h, scores, levels, k, PayLayers(h, scores, levels, k - 1), q);
  }

  // ----- whole hands -----

  lemma TakePotConserves(h: Hand)
    requires Payable(h)
    ensures TakePot(h).pot == 0 && Sum(TakePot(h).stack) == Sum(h.stack) + h.pot
  {
    var l :| Covers(h, l);
    var w := FirstInHand(h.inHand, 0);
    SumUpdate(h.stack, w, h.stack[w] + h.pot);
  }

  lemma ResolveConserves(h: Hand, eval: Evaluator)
    requires Payable(h) && !h.resolved
    ensures Resolve(h, eval).pot == 0 && Sum(Resolve(h, eval).stack) == Sum(h.stack) + h.pot
  {
    if CountInHand(h) <= 1 {
      TakePotConserves(h);
    } else {
      var h1 := CompleteBoard(h);
      assert forall l :: Covers(h, l) ==> Covers(h1, l);
      ShowdownExact(h1, Scores(h1, eval), 0);
    }
  }

  /** Before it is resolved a hand's stacks and pot hold 1200 chips; after, its stacks do. */
  lemma HandConservesChips(dealer: int, deck: seq<int>, moves: seq<Move>, eval: Evaluator)
    requires |deck| == DECK_SIZE
    ensures var h := Run(Init(dealer, deck), moves);
            && Sum(h.stack) + h.pot == TOTAL_CHIPS && h.pot == Sum(h.contributed)
            && Resolve(h, eval).pot == 0 && Sum(Resolve(h, eval).stack) == TOTAL_CHIPS
            && Resolve(Resolve(h, eval), eval) == Resolve(h, eval)
  {
    RunKeeps(dealer, deck, moves);
    BetsArePayable(Run(Init(dealer, deck), moves));
    ResolveConserves(Run(Init(dealer, deck), moves), eval);
  }

  lemma RunIsPayable(dealer: int, deck: seq<int>, moves: seq<Move>)
    requires |deck| == DECK_SIZE
    ensures Payable(Run(Init(dealer, deck), moves)) && !Run(Init(dealer, deck), moves).resolved
  {
    RunKeeps(dealer, deck, moves);
    BetsArePayable(Run(Init(dealer, deck), moves));
  }

  /** What a resolved hand pays a seat, by the scores of the completed board. */
  ghost predicate PaidRight(h: Hand, stack: seq<int>, scores: seq<Score>, p: int)
    requires Shape(h) && |stack| == |scores| == PLAYERS && Seat(p)
  {
    var gain := stack[p] - h.stack[p];
    && 0 <= gain <= Stakes(h, p)
    && (!h.inHand[p] ==> gain == 0)
    && (StrictlyBest(h, scores, p) ==> gain == Stakes(h, p))
    && (forall q :: Seat(q) && Dominates(h, scores, q, p) ==> gain == 0)
  }

  lemma OneLeft(h: Hand, l: int, q: int)
    requires Shape(h) && CountInHand(h) <= 1 && Seat(l) && Seat(q) && h.inHand[l] && h.inHand[q]
    ensures l == q
  {
    CountOne(h.inHand, l, q);
  }

  lemma SurvivorPaidRight(h: Hand, scores: seq<Score>, p: int)
    requires Payable(h) && CountInHand(h) <= 1 && |scores| == PLAYERS && Seat(p)
    ensures PaidRight(h, TakePot(h).stack, scores, p)
  {
    var l :| Covers(h, l);
    var w := FirstInHand(h.inHand, 0);
    OneLeft(h, l, w);
    CapSumAll(h.contributed, h.contributed[l]);
    if h.inHand[p] {
      OneLeft(h, l, p);
    }
    forall q | Seat(q) && Dominates(h, scores, q, p)
      ensures p != w
    {
      OneLeft(h, q, w);
    }
    CapSumNonNegative(h, p);
  }

  lemma CapSumNonNegative(h: Hand, p: int)
    requires Payable(h) && Seat(p)
    ensures 0 <= Stakes(h, p)
  {
    SumNonNegative(Capped(h.contributed, h.contributed[p]));
  }

  lemma ShowdownPaidRight(h: Hand, eval: Evaluator, p: int)
    requires Payable(h) && Seat(p)
    ensures PaidRight(h, PayShowdown(h, eval).stack, Scores(CompleteBoard(h), eval), p)
  {
    var h1, scores := CompleteBoard(h), Scores(CompleteBoard(h), eval);
    assert forall l :: Covers(h, l) ==> Covers(h1, l);
    ShowdownExact(h1, scores, p);
    assert forall q :: Seat(q) && Dominates(h, scores, q, p) ==> Dominates(h1, scores, q, p);
  }

  /**
   Every hand, every seat: paid no more than the chips played against it, nothing
   if folded, all its stakes if strictly best (or alone), and nothing if a better
   hand has at least as much in.
   */
  lemma HandPaysExactly(dealer: int, deck: seq<int>, moves: seq<Move>, eval: Evaluator, p: int)
    requires |deck| == DECK_SIZE && Seat(p)
    ensures var h := Run(Init(dealer, deck), moves);
            PaidRight(h, Resolve(h, eval).stack, Scores(CompleteBoard(h), eval), p)
  {
    RunIsPayable(dealer, deck, moves);
    var h := Run(Init(dealer, deck), moves);
    if CountInHand(h) <= 1 {
      SurvivorPaidRight(h, Scores(CompleteBoard(h), eval), p);
    } else {
      ShowdownPaidRight(h, eval, p);
    }
  }

  // ----- the cards -----

  /** All cards dealt so far: first cards, second cards, board. */
  function CardsOut(h: Hand): (cards: seq<int>)
    requires Shape(h)
    ensures |cards| == 2 * PLAYERS + |h.board|
  {
    seq(PLAYERS, p requires 0 <= p < PLAYERS => h.hole[p].0)
    + seq(PLAYERS, p requires 0 <= p < PLAYERS => h.hole[p].1) + h.board
  }

  /** Where in the deck the i-th of those cards came from. */
  function DeckPlace(i: int, dealer: int): int
  {
    if i < PLAYERS then DealOrder(i, dealer)
    else if i < 2 * PLAYERS then PLAYERS + DealOrder(i - PLAYERS, dealer)
    else i
  }

  lemma DeckPlacesDiffer(i: int, j: int, dealer: int)
    requires 0 <= i < j && Seat(dealer)
    ensures DeckPlace(i, dealer) != DeckPlace(j, dealer)
  {
  }

  lemma CardFromDeck(h: Hand, i: int)
    requires Shape(h) && h.hole == DealHoles(h.deck, h.dealer)
    requires 2 * PLAYERS + |h.board| == h.deckPos && h.board == h.deck[2 * PLAYERS..h.deckPos]
    requires 0 <= i < |CardsOut(h)|
    ensures 0 <= DeckPlace(i, h.dealer) < DECK_SIZE && CardsOut(h)[i] == h.deck[DeckPlace(i, h.dealer)]
  {
  }

  lemma DeckPrefixApart(h: Hand)
    requires Shape(h) && Distinct(h.deck) && h.hole == DealHoles(h.deck, h.dealer)
    requires 2 * PLAYERS + |h.board| == h.deckPos && h.board == h.deck[2 * PLAYERS..h.deckPos]
    ensures Distinct(CardsOut(h))
  {
    var cards := CardsOut(h);
    forall i, j | 0 <= i < j < |cards|
      ensures cards[i] != cards[j]
    {
      CardFromDeck(h, i);
      CardFromDeck(h, j);
      DeckPlacesDiffer(i, j, h.dealer);
      var a, b := DeckPlace(i, h.dealer), DeckPlace(j, h.dealer);
      assert if a < b then h.deck[a] != h.deck[b] else h.deck[b] != h.deck[a];
    }
  }

  lemma BoardRunsOut(h: Hand)
    requires Cards(h) && Distinct(h.deck)
    ensures Distinct(CardsOut(CompleteBoard(h))) && |CompleteBoard(h).board| == MAX_BOARD
  {
    var n := MAX_BOARD - |h.board|;
    DealTakesFromDeck(h, n);
    assert h.deck[2 * PLAYERS..h.deckPos] + h.deck[h.deckPos..h.deckPos + n] == h.deck[2 * PLAYERS..h.deckPos + n];
    DeckPrefixApart(CompleteBoard(h));
  }

  /** No card is dealt twice, whether to a hand, to the board, or when the board is run out. */
  lemma NoCardDealtTwice(dealer: int, deck: seq<int>, moves: seq<Move>)
    requires |deck| == DECK_SIZE && Distinct(deck)
    ensures var h := Run(Init(dealer, deck), moves);
            && |h.board| == BoardSize(h.street)
            && Distinct(CardsOut(h)) && Distinct(CardsOut(CompleteBoard(h)))
  {
    RunKeeps(dealer, deck, moves);
    RunKeepsDeck(dealer, deck, moves);
    DeckPrefixApart(Run(Init(dealer, deck), moves));
    BoardRunsOut(Run(Init(dealer, deck), moves));
  }

  lemma {:induction false} RunKeepsDeck(dealer: int, deck: seq<int>, moves: seq<Move>)
    requires |deck| == DECK_SIZE
    ensures Run(Init(dealer, deck), moves).deck == deck
  {
    if moves == [] {
      AutoAdvanceKeepsDeck(AfterBlinds(dealer, deck));
    } else {
      RunKeepsDeck(dealer, deck, moves[..|moves| - 1]);
      var h, m := Run(Init(dealer, deck), moves[..|moves| - 1]), moves[|moves| - 1];
      if !h.terminal && h.current >= 0 {
        var a := Act(h, h.current, m.action, m.target);
        AutoAdvanceKeepsDeck(a.(current := FindNextActor(a, h.current)));
      }
    }
  }

  lemma {:induction false} AutoAdvanceKeepsDeck(h: Hand)
    requires Shape(h)
    ensures AutoAdvance(h).deck == h.deck
    decreases 3 - h.street
  {
    if !h.terminal && CountInHand(h) > 1 && CountNeeding(h) == 0 && h.street < 3 {
      AutoAdvanceKeepsDeck(NextStreet(h));
    }
  }
}
