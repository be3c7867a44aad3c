/**
 The rules of play: what one move does to a hand, told in seats, chips and flags.
 What it pays, who has to answer it, who is next, when a street and the hand end.
 Every move of every hand follows the rules, and the rules leave no choice.
 */
module Rules {
  import opened Chips
  import opened Hands
  import opened Betting
  import opened HandRuns

  // ----- what a move pays -----

  predicate Folds(h: Hand, m: Move)
    requires Shape(h) && Seat(h.current)
  {
    m.action == ACT_FOLD && h.committed[h.current] < h.toCall
  }

  predicate Raises(h: Hand, m: Move)
    requires Shape(h)
  {
    m.action != ACT_FOLD && m.action != ACT_CALL_CHECK && h.toCall < m.target
  }

  /** What the seat on turn has in on this street after its move: what it wants to, or everything. */
  function Level(h: Hand, m: Move): int
    requires Shape(h) && Seat(h.current)
  {
    var p := h.current;
    var wanted := if Folds(h, m) then h.committed[p] else if Raises(h, m) then m.target else h.toCall;
    if wanted <= h.committed[p] + h.stack[p] then wanted else h.committed[p] + h.stack[p]
  }

  /** The move lifts the bet. */
  predicate Lifts(h: Hand, m: Move)
    requires Shape(h) && Seat(h.current)
  {
    h.toCall < Level(h, m)
  }

  predicate LiftsFully(h: Hand, m: Move)
    requires Shape(h) && Seat(h.current)
  {
    h.toCall + h.lastFullRaise <= Level(h, m)
  }

  ghost predicate PaysLevel(h: Hand, m: Move, r: Hand)
    requires Shape(h) && Seat(h.current)
  {
    var p, paid := h.current, Level(h, m) - h.committed[h.current];
    && r.stack == h.stack[p := h.stack[p] - paid]
    && r.contributed == h.contributed[p := h.contributed[p] + paid]
    && r.pot == h.pot + paid
    && r.inHand == h.inHand[p := h.inHand[p] && !Folds(h, m)]
  }

  // ----- who has to act -----

  /** Once the move is made and while the street lasts, the seat still has to act. */
  predicate MustAnswer(h: Hand, m: Move, q: int)
    requires Shape(h) && Seat(h.current) && Seat(q)
  {
    && q != h.current && h.inHand[q] && h.stack[q] > 0
    && (h.needs[q] || (Lifts(h, m) && h.committed[q] < Level(h, m)))
  }

  ghost predicate StreetGoesOn(h: Hand, m: Move, r: Hand)
    requires Shape(h) && Shape(r) && Seat(h.current)
  {
    var p, full := h.current, LiftsFully(h, m);
    && r.street == h.street && r.board == h.board && r.deckPos == h.deckPos
    && r.committed == h.committed[p := Level(h, m)]
    && r.toCall == (if Lifts(h, m) then Level(h, m) else h.toCall)
    && r.numRaises == h.numRaises + (if Lifts(h, m) then 1 else 0)
    && r.lastFullRaise == (if full then Level(h, m) - h.toCall else h.lastFullRaise)
    && r.fullRaiseSeq == h.fullRaiseSeq + (if full then 1 else 0)
    && r.acted == h.acted[p := true]
    && r.actedSeq == h.actedSeq[p := r.fullRaiseSeq]
    && forall q :: Seat(q) ==> r.needs[q] == MustAnswer(h, m, q)
  }

  /** A new street: its cards on the board, nothing bet, everyone with chips to act. */
  ghost predicate StreetOpens(h: Hand, r: Hand, street: int)
    requires Shape(h) && Shape(r)
  {
    && 1 <= street <= 3 && r.street == street
    && r.deckPos == 2 * PLAYERS + 2 + street && r.board == h.deck[2 * PLAYERS..r.deckPos]
    && r.toCall == 0 && r.numRaises == 0 && r.lastFullRaise == BIG_BLIND && r.fullRaiseSeq == 0
    && forall q :: Seat(q) ==>
         && r.committed[q] == 0 && !r.acted[q] && r.actedSeq[q] == -1
         && r.needs[q] == (r.inHand[q] && r.stack[q] > 0)
  }

  // ----- whose turn it is -----

  /** The seat d places to the left of a seat has to act. */
  predicate Waits(r: Hand, from: int, d: int)
    requires Shape(r)
  {
    var q := (from + d) % 6;
    r.inHand[q] && r.stack[q] > 0 && r.needs[q]
  }

  /** The turn is on the nearest seat to the left of a seat that has to act. */
  ghost predicate TurnLeftOf(r: Hand, from: int)
    requires Shape(r)
  {
    exists d :: 1 <= d <= 6 && r.current == (from + d) % 6 && Waits(r, from, d)
                && forall e :: 1 <= e < d ==> !Waits(r, from, e)
  }

  ghost predicate NobodyElse(r: Hand)
    requires Shape(r)
  {
    forall p, q :: Seat(p) && Seat(q) && r.inHand[p] && r.inHand[q] ==> p == q
  }

  ghost predicate SomeoneAnswers(h: Hand, m: Move)
    requires Shape(h) && Seat(h.current)
  {
    exists q :: Seat(q) && MustAnswer(h, m, q)
  }

  ghost predicate SomeoneHasChips(r: Hand)
    requires Shape(r)
  {
    exists q :: Seat(q) && r.inHand[q] && r.stack[q] > 0
  }

  predicate Over(r: Hand) {
    r.terminal && r.current == -1
  }

  /** How play goes on: the same street, the next one, or the end of the hand. */
  ghost predicate GoesOn(h: Hand, m: Move, r: Hand)
    requires Shape(h) && Shape(r) && Seat(h.current)
  {
    if NobodyElse(r) then StreetGoesOn(h, m, r) && Over(r)
    else if SomeoneAnswers(h, m) then StreetGoesOn(h, m, r) && !r.terminal && TurnLeftOf(r, h.current)
    else if h.street == 3 then StreetGoesOn(h, m, r) && Over(r)
    else if SomeoneHasChips(r) then StreetOpens(h, r, h.street + 1) && !r.terminal && TurnLeftOf(r, h.dealer)
    else StreetOpens(h, r, 3) && Over(r)
  }

  /** The move of the seat on turn leads from one hand to the other. */
  ghost predicate Plays(h: Hand, m: Move, r: Hand)
    requires Shape(h) && Seat(h.current)
  {
    && Shape(r) && r.dealer == h.dealer && r.deck == h.deck && r.hole == h.hole && r.resolved == h.resolved
    && PaysLevel(h, m, r) && GoesOn(h, m, r)
  }

  // ----- the rules leave no choice -----

  lemma TurnIsOne(r: Hand, s: Hand, from: int)
    requires Shape(r) && Shape(s) && r.inHand == s.inHand && r.stack == s.stack && r.needs == s.needs
    requires TurnLeftOf(r, from) && TurnLeftOf(s, from)
    ensures r.current == s.current
  {
    var d :| 1 <= d <= 6 && r.current == (from + d) % 6 && Waits(r, from, d)
             && forall e :: 1 <= e < d ==> !Waits(r, from, e);
    var c :| 1 <= c <= 6 && s.current == (from + c) % 6 && Waits(s, from, c)
             && forall e :: 1 <= e < c ==> !Waits(s, from, e);
    assert Waits(s, from, d) && Waits(r, from, c);
  }

  lemma SameIfGoesOn(h: Hand, m: Move, r: Hand, s: Hand)
    requires Shape(h) && Shape(r) && Shape(s) && Seat(h.current) && StreetGoesOn(h, m, r) && StreetGoesOn(h, m, s)
    ensures r.street == s.street && r.board == s.board && r.deckPos == s.deckPos && r.toCall == s.toCall
    ensures r.committed == s.committed && r.needs == s.needs && r.acted == s.acted && r.actedSeq == s.actedSeq
    ensures r.numRaises == s.numRaises && r.lastFullRaise == s.lastFullRaise && r.fullRaiseSeq == s.fullRaiseSeq
  {
    assert forall q :: Seat(q) ==> r.needs[q] == s.needs[q];
  }

  lemma SameIfOpens(h: Hand, r: Hand, s: Hand, street: int)
    requires Shape(h) && Shape(r) && Shape(s) && StreetOpens(h, r, street) && StreetOpens(h, s, street)
    requires r.inHand == s.inHand && r.stack == s.stack
    ensures r.street == s.street && r.board == s.board && r.deckPos == s.deckPos && r.toCall == s.toCall
    ensures r.committed == s.committed && r.needs == s.needs && r.acted == s.acted && r.actedSeq == s.actedSeq
    ensures r.numRaises == s.numRaises && r.lastFullRaise == s.lastFullRaise && r.fullRaiseSeq == s.fullRaiseSeq
  {
    assert forall q :: Seat(q) ==>
      r.needs[q] == s.needs[q] && r.committed[q] == s.committed[q] && r.acted[q] == s.acted[q]
      && r.actedSeq[q] == s.actedSeq[q];
  }

  /** Two hands the same move leads to differ at most in the history buffer. */
  lemma OnePlay(h: Hand, m: Move, r: Hand, s: Hand)
    requires Shape(h) && Seat(h.current) && Plays(h, m, r) && Plays(h, m, s)
    ensures r == s.(history := r.history)
  {
    hide StreetGoesOn, StreetOpens, TurnLeftOf, SomeoneAnswers;
    assert NobodyElse(r) == NobodyElse(s) && SomeoneHasChips(r) == SomeoneHasChips(s);
    if NobodyElse(r) || SomeoneAnswers(h, m) || h.street == 3 {
      SameIfGoesOn(h, m, r, s);
    } else {
      SameIfOpens(h, r, s, if SomeoneHasChips(r) then h.street + 1 else 3);
    }
    if !r.terminal {
      TurnIsOne(r, s, if SomeoneAnswers(h, m) then h.current else h.dealer);
    }
  }

  // ----- the seat's own move -----

  lemma {:induction false} TwoTrue(s: seq<bool>) returns (i: nat, j: nat)
    requires CountTrue(s) >= 2
    ensures i < j < |s| && s[i] && s[j]
  {
    var n := |s| - 1;
    if s[n] {
      CountZero(s[..n]);
      i :| 0 <= i < n && s[..n][i];
      j := n;
    } else {
      i, j := TwoTrue(s[..n]);
    }
  }

  lemma NobodyElseIs(h: Hand)
    requires Shape(h)
    ensures NobodyElse(h) <==> CountInHand(h) <= 1
  {
    if CountInHand(h) <= 1 {
      forall p, q | Seat(p) && Seat(q) && h.inHand[p] && h.inHand[q]
        ensures p == q
      {
        CountOne(h.inHand, p, q);
      }
    } else {
      var p, q := TwoTrue(h.inHand);
    }
  }

  /** The seat's own move, before the turn passes. */
  ghost predicate Moves(h: Hand, m: Move, a: Hand)
    requires Shape(h) && Seat(h.current)
  {
    && Shape(a) && SameDeal(h, a) && PaysLevel(h, m, a) && StreetGoesOn(h, m, a)
  }

  lemma FoldMoves(h: Hand, m: Move)
    requires Inv(h) && !h.terminal && Folds(h, m)
    ensures Moves(h, m, Fold(h, h.current))
  {
    var a, p := Fold(h, h.current), h.current;
    assert SeatOk(h, p);
    assert h.stack[p := h.stack[p] - 0] == h.stack && h.contributed[p := h.contributed[p] + 0] == h.contributed;
    assert h.committed[p := h.committed[p]] == h.committed;
    forall q | Seat(q)
      ensures a.needs[q] == MustAnswer(h, m, q)
    {
      assert SeatOk(h, q);
    }
  }

  lemma CallMoves(h: Hand, m: Move)
    requires Inv(h) && !h.terminal && !Folds(h, m) && (m.action == ACT_FOLD || m.action == ACT_CALL_CHECK)
    ensures Moves(h, m, Call(h, h.current))
  {
    var a, p := Call(h, h.current), h.current;
    assert SeatOk(h, p);
    forall q | Seat(q)
      ensures a.needs[q] == MustAnswer(h, m, q)
    {
      assert SeatOk(h, q);
    }
  }

  lemma RaiseAnswers(h: Hand, m: Move, a: Hand)
    requires Inv(h) && !h.terminal && Shape(a) && Lifts(h, m) && Raised(h, a, h.current) && a.toCall == Level(h, m)
    ensures forall q :: Seat(q) ==> a.needs[q] == MustAnswer(h, m, q)
  {
    forall q | Seat(q)
      ensures a.needs[q] == MustAnswer(h, m, q)
    {
      assert SeatOk(h, q);
    }
  }

  lemma LiftPays(h: Hand, m: Move)
    requires Inv(h) && !h.terminal && m.action != ACT_FOLD && m.action != ACT_CALL_CHECK && Lifts(h, m)
    ensures var a := Raise(h, h.current, m.action, m.target);
            && PaysLevel(h, m, a) && a.toCall == Level(h, m) && a.committed == h.committed[h.current := Level(h, m)]
            && a.numRaises == h.numRaises + 1
  {
    var p := h.current;
    assert h.inHand == h.inHand[p := h.inHand[p] && !Folds(h, m)];
    assert ClampTarget(h, p, m.target) == Level(h, m);
    hide Reopened, AppendHistory, AmountBucket, Bets, Cards, Level, Folds, Raises;
  }

  lemma LiftAnswers(h: Hand, m: Move)
    requires Inv(h) && !h.terminal && m.action != ACT_FOLD && m.action != ACT_CALL_CHECK && Lifts(h, m)
    ensures var a := Raise(h, h.current, m.action, m.target); forall q :: Seat(q) ==> a.needs[q] == MustAnswer(h, m, q)
  {
    var h0 := h.(history := AppendHistory(h.history, RaiseCode(m.action)));
    RaiseIsRaised(h0, h.current, m.target);
    RaiseAnswers(h, m, ApplyRaiseTo(h0, h.current, m.target).0);
  }

  lemma LiftMoves(h: Hand, m: Move)
    requires Inv(h) && !h.terminal && m.action != ACT_FOLD && m.action != ACT_CALL_CHECK && Lifts(h, m)
    ensures Moves(h, m, Raise(h, h.current, m.action, m.target))
  {
    hide Raise, MustAnswer, PaysLevel;
    LiftPays(h, m);
    LiftAnswers(h, m);
    RaiseRecords(h, h.current, m.action, m.target);
  }

  lemma ShortMoves(h: Hand, m: Move)
    requires Inv(h) && !h.terminal && m.action != ACT_FOLD && m.action != ACT_CALL_CHECK && !Lifts(h, m)
    ensures Moves(h, m, Raise(h, h.current, m.action, m.target))
  {
    var a, p := Raise(h, h.current, m.action, m.target), h.current;
    assert SeatOk(h, p);
    RaiseRecords(h, p, m.action, m.target);
    forall q | Seat(q)
      ensures a.needs[q] == MustAnswer(h, m, q)
    {
      assert SeatOk(h, q);
    }
  }

  lemma RaiseMoves(h: Hand, m: Move)
    requires Inv(h) && !h.terminal && m.action != ACT_FOLD && m.action != ACT_CALL_CHECK
    ensures Moves(h, m, Raise(h, h.current, m.action, m.target))
  {
    hide Moves, Raise, Level;
    if Lifts(h, m) {
      LiftMoves(h, m);
    } else {
      ShortMoves(h, m);
    }
  }

  lemma ActMoves(h: Hand, m: Move)
    requires Inv(h) && !h.terminal
    ensures Moves(h, m, Act(h, h.current, m.action, m.target))
  {
    hide Moves, Fold, Call, Raise;
    if Folds(h, m) {
      FoldMoves(h, m);
    } else if m.action == ACT_FOLD || m.action == ACT_CALL_CHECK {
      CallMoves(h, m);
    } else {
      RaiseMoves(h, m);
    }
  }

  // ----- the turn passes -----

  lemma {:induction false} NextActorIsNearest(h: Hand, from: int, step: int)
    requires Shape(h) && 0 <= from && 1 <= step <= 7
    ensures var seat := NextActorAt(h, from, step);
            if seat == -1 then forall e :: step <= e <= 6 ==> !Waits(h, from, e)
            else exists d :: step <= d <= 6 && seat == (from + d) % 6 && Waits(h, from, d)
                             && forall e :: step <= e < d ==> !Waits(h, from, e)
    decreases 7 - step
  {
    if step <= 6 {
      if Waits(h, from, step) {
        assert NextActorAt(h, from, step) == (from + step) % 6;
      } else {
        NextActorIsNearest(h, from, step + 1);
      }
    }
  }

  lemma PassesLeftOf(h: Hand, from: int)
    requires Shape(h) && 0 <= from && CountNeeding(h) > 0
    ensures FindNextActor(h, from) >= 0 && TurnLeftOf(h.(current := FindNextActor(h, from)), from)
  {
    var p := SomebodyNeeds(h);
    FindNextActorComplete(h, from, p);
    NextActorIsNearest(h, from, 1);
    var r := h.(current := FindNextActor(h, from));
    assert forall d :: Waits(r, from, d) == Waits(h, from, d);
  }

  /** Whoever has to act, the first is nearest to the left of the big blind, or of the dealer from the flop on. */
  lemma FirstToAct(h: Hand)
    requires Shape(h) && CountNeeding(h) > 0
    ensures TurnLeftOf(h.(current := FirstActor(h)), if h.street == 0 then (h.dealer + 2) % 6 else h.dealer)
  {
    PassesLeftOf(h, if h.street == 0 then (h.dealer + 2) % 6 else h.dealer);
  }

  /** The card i places further down the deck; a deck that is used up deals card 0. */
  function CardAhead(h: Hand, i: nat): int
    requires Shape(h)
  {
    if h.deckPos + i < 52 then h.deck[h.deckPos + i] else 0
  }

  lemma OneCard(h: Hand)
    requires Shape(h) && |h.board| < 5
    ensures DealOne(h).board == h.board + [CardAhead(h, 0)]
    ensures forall i: nat :: CardAhead(DealOne(h), i) == CardAhead(h, i + 1)
  {
  }

  /** New board cards come off the deck in order. */
  lemma {:induction false} BoardFromDeck(h: Hand, n: nat)
    requires Shape(h) && |h.board| + n <= 5
    ensures |DealBoard(h, n).board| == |h.board| + n && h.board <= DealBoard(h, n).board
    ensures forall i :: 0 <= i < n ==> DealBoard(h, n).board[|h.board| + i] == CardAhead(h, i)
    decreases n
  {
    hide DealOne, CardAhead;
    if n > 0 {
      var r, one := DealBoard(h, n), DealOne(h);
      OneCard(h);
      BoardFromDeck(one, n - 1);
      forall i | 0 <= i < n
        ensures r.board[|h.board| + i] == CardAhead(h, i)
      {
        if i > 0 {
          assert CardAhead(one, i - 1) == CardAhead(h, i - 1 + 1);
          assert r.board[|one.board| + (i - 1)] == CardAhead(one, i - 1);
        }
      }
    }
  }

  lemma AnswersAreNeeds(h: Hand, m: Move, a: Hand)
    requires Shape(h) && Seat(h.current) && Moves(h, m, a)
    ensures SomeoneAnswers(h, m) <==> CountNeeding(a) > 0
  {
    CountZero(NeedingFlags(a));
    if SomeoneAnswers(h, m) {
      var q :| Seat(q) && MustAnswer(h, m, q);
      assert NeedingFlags(a)[q];
    }
    if CountNeeding(a) > 0 {
      var q := SomebodyNeeds(a);
      assert MustAnswer(h, m, q);
    }
  }

  /** The board after the next street's cards is the deck from the thirteenth card on. */
  lemma NextStreetOpens(h: Hand)
    requires Bets(h) && Cards(h) && h.street < 3
    ensures var r := NextStreet(h);
            && StreetOpens(h, r, h.street + 1) && r.inHand == h.inHand && r.pot == h.pot
            && r.contributed == h.contributed && r.dealer == h.dealer && r.deck == h.deck
            && r.hole == h.hole && r.resolved == h.resolved
  {
    NextStreetKeepsCards(h);
  }

  lemma ChipsAreNeeds(h: Hand, r: Hand, street: int)
    requires Shape(h) && Shape(r) && StreetOpens(h, r, street)
    ensures SomeoneHasChips(r) <==> CountNeeding(r) > 0
  {
    CountZero(NeedingFlags(r));
    if SomeoneHasChips(r) {
      var q :| Seat(q) && r.inHand[q] && r.stack[q] > 0;
      assert NeedingFlags(r)[q];
    }
    if CountNeeding(r) > 0 {
      var q := SomebodyNeeds(r);
    }
  }

  /** What passing the turn never touches. */
  ghost predicate SameMoney(a: Hand, r: Hand) {
    && r.stack == a.stack && r.contributed == a.contributed && r.pot == a.pot && r.inHand == a.inHand
    && r.dealer == a.dealer && r.deck == a.deck && r.hole == a.hole && r.resolved == a.resolved
  }

  /** With nobody able to bet, the streets run out to the river and the hand is over. */
  lemma {:induction false} RunsOut(h: Hand)
    requires Bets(h) && Cards(h) && !h.terminal && h.street < 3 && CountInHand(h) > 1 && CountNeeding(h) == 0
    requires !SomeoneHasChips(h)
    ensures var r := AutoAdvance(h); Shape(r) && SameMoney(h, r) && StreetOpens(h, r, 3) && Over(r)
    decreases 3 - h.street
  {
    var n := NextStreet(h);
    NextStreetOpens(h);
    NextStreetKeepsBets(h);
    NextStreetKeepsCards(h);
    ChipsAreNeeds(h, n, n.street);
    if n.street < 3 {
      RunsOut(n);
    }
  }

  lemma TurnOpens(h: Hand)
    requires Shape(h) && h.street < 3
    ensures var n := NextStreet(h);
            CountNeeding(n) > 0 ==> TurnLeftOf(n, h.dealer) && Seat(n.current) && Actable(n, n.current)
  {
    var o := OpenStreet(h);
    var b := o.(needs := AllNeed(o));
    assert NextStreet(h) == b.(current := FindNextActor(b, h.dealer));
    assert NeedingFlags(b) == NeedingFlags(NextStreet(h));
    if CountNeeding(b) > 0 {
      PassesLeftOf(b, h.dealer);
    }
  }

  lemma StreetOpened(h: Hand)
    requires Bets(h) && Cards(h) && !h.terminal && h.street < 3 && CountInHand(h) > 1 && CountNeeding(h) == 0
    requires SomeoneHasChips(h)
    ensures AutoAdvance(h) == NextStreet(h) && TurnLeftOf(NextStreet(h), h.dealer)
  {
    var n := NextStreet(h);
    NextStreetOpens(h);
    assert SomeoneHasChips(n);
    ChipsAreNeeds(h, n, n.street);
    TurnOpens(h);
    assert AutoAdvance(n) == n by {
      hide NextStreet;
    }
  }

  /** The street is done: the next one opens on the seat left of the dealer, or the cards run out. */
  lemma StreetEnds(h: Hand)
    requires Bets(h) && Cards(h) && !h.terminal && h.street < 3 && CountInHand(h) > 1 && CountNeeding(h) == 0
    ensures var r := AutoAdvance(h);
            && Shape(r) && SameMoney(h, r)
            && if SomeoneHasChips(h) then StreetOpens(h, r, h.street + 1) && !r.terminal && TurnLeftOf(r, h.dealer)
               else StreetOpens(h, r, 3) && Over(r)
  {
    assert Shape(h);
    hide AutoAdvance, Bets, Cards, StreetOpens, TurnLeftOf;
    if SomeoneHasChips(h) {
      NextStreetOpens(h);
      StreetOpened(h);
    } else {
      RunsOut(h);
    }
  }

  // ----- every move follows the rules -----

  lemma OverAfter(h: Hand, m: Move, a: Hand)
    requires Shape(h) && Seat(h.current) && Moves(h, m, a)
    requires NobodyElse(a) || (h.street == 3 && !SomeoneAnswers(h, m))
    ensures Plays(h, m, Finish(a))
  {
    hide StreetGoesOn;
    assert StreetGoesOn(h, m, Finish(a)) by {
      StaysTheSame(h, m, a, Finish(a));
    }
    assert NobodyElse(Finish(a)) == NobodyElse(a);
  }

  lemma StaysTheSame(h: Hand, m: Move, a: Hand, r: Hand)
    requires Shape(h) && Seat(h.current) && Moves(h, m, a)
    requires Shape(r) && r == a.(terminal := r.terminal, current := r.current)
    ensures StreetGoesOn(h, m, r) && PaysLevel(h, m, r)
  {
  }

  lemma TurnPasses(h: Hand, m: Move, a: Hand)
    requires Shape(h) && Seat(h.current) && !h.terminal && Moves(h, m, a) && !NobodyElse(a) && SomeoneAnswers(h, m)
    ensures var b := a.(current := FindNextActor(a, h.current)); AutoAdvance(b) == b && Plays(h, m, b)
  {
    var b := a.(current := FindNextActor(a, h.current));
    AnswersAreNeeds(h, m, a);
    PassesLeftOf(a, h.current);
    NobodyElseIs(a);
    assert NeedingFlags(b) == NeedingFlags(a);
    StaysTheSame(h, m, a, b);
    assert NobodyElse(b) == NobodyElse(a);
  }

  /** What a finished street leaves to the rules of the next. */
  lemma StreetDone(h: Hand, m: Move, a: Hand)
    requires Inv(h) && !h.terminal && Moves(h, m, a) && Bets(a) && Cards(a)
    requires !NobodyElse(a) && !SomeoneAnswers(h, m)
    ensures var b := a.(current := FindNextActor(a, h.current));
            Bets(b) && Cards(b) && CountInHand(b) > 1 && CountNeeding(b) == 0
  {
    var b := a.(current := FindNextActor(a, h.current));
    AnswersAreNeeds(h, m, a);
    NobodyElseIs(a);
    SameBets(a, b);
    assert NeedingFlags(b) == NeedingFlags(a);
  }

  lemma PaidBefore(h: Hand, m: Move, a: Hand, r: Hand)
    requires Shape(h) && Seat(h.current) && Moves(h, m, a) && Shape(r)
    requires a.street == h.street && SameMoney(a, r)
    ensures PaysLevel(h, m, r)
    ensures r.dealer == h.dealer && r.deck == h.deck && r.hole == h.hole && r.resolved == h.resolved
    ensures NobodyElse(r) == NobodyElse(a) && SomeoneHasChips(r) == SomeoneHasChips(a)
  {
  }

  lemma NextStreetPlays(h: Hand, m: Move, a: Hand)
    requires Inv(h) && !h.terminal && Moves(h, m, a) && Bets(a) && Cards(a)
    requires !NobodyElse(a) && !SomeoneAnswers(h, m) && h.street < 3
    ensures var b := a.(current := FindNextActor(a, h.current)); Plays(h, m, AutoAdvance(b))
  {
    var b := a.(current := FindNextActor(a, h.current));
    StreetDone(h, m, a);
    StreetEnds(b);
    var r := AutoAdvance(b);
    PaidBefore(h, m, a, r);
    OpensAlike(h, b, r);
    hide AutoAdvance, Inv, Bets, Cards, StreetGoesOn, StreetOpens, PaysLevel, NobodyElse, SomeoneAnswers, TurnLeftOf;
    assert SomeoneHasChips(b) == SomeoneHasChips(a);
  }

  lemma OpensAlike(h: Hand, b: Hand, r: Hand)
    requires Shape(h) && Shape(b) && Shape(r) && h.deck == b.deck
    ensures forall street :: StreetOpens(b, r, street) ==> StreetOpens(h, r, street)
  {
  }

  lemma RiverEnds(h: Hand, m: Move, a: Hand)
    requires Inv(h) && !h.terminal && Moves(h, m, a) && !NobodyElse(a) && !SomeoneAnswers(h, m) && h.street == 3
    ensures var b := a.(current := FindNextActor(a, h.current)); AutoAdvance(b) == Finish(a)
  {
    var b := a.(current := FindNextActor(a, h.current));
    AnswersAreNeeds(h, m, a);
    NobodyElseIs(a);
    assert NeedingFlags(b) == NeedingFlags(a);
  }

  /** Every move from a state that can be reached follows the rules. */
  lemma StepPlays(h: Hand, m: Move)
    requires Inv(h) && !h.terminal
    ensures Plays(h, m, Step(h, m))
  {
    var a := Act(h, h.current, m.action, m.target);
    ActMoves(h, m);
    ActKeepsBets(h, h.current, m.action, m.target);
    NobodyElseIs(a);
    assert Step(h, m) == PassTurn(a, h.current);
    hide Act, AutoAdvance, Plays, Moves, Bets, Cards, SomeoneAnswers, NobodyElse;
    if NobodyElse(a) {
      OverAfter(h, m, a);
    } else if SomeoneAnswers(h, m) {
      TurnPasses(h, m, a);
    } else if h.street == 3 {
      RiverEnds(h, m, a);
      OverAfter(h, m, a);
    } else {
      NextStreetPlays(h, m, a);
    }
  }

  lemma HistoryIsFree(h: Hand, m: Move, r: Hand, s: Hand)
    requires Shape(h) && Seat(h.current) && Plays(h, m, s) && |r.history| <= MAX_HISTORY
    requires r == s.(history := r.history)
    ensures Plays(h, m, r)
  {
    assert NobodyElse(r) == NobodyElse(s) && SomeoneHasChips(r) == SomeoneHasChips(s);
    assert forall from, d :: Waits(r, from, d) == Waits(s, from, d);
  }

  /** The rules decide every move of every hand, the buffer of past actions aside. */
  lemma RulesDecide(dealer: int, deck: seq<int>, moves: seq<Move>, m: Move)
    requires |deck| == DECK_SIZE
    ensures var h, s := Run(Init(dealer, deck), moves), Run(Init(dealer, deck), moves + [m]);
            && (h.terminal ==> s == h)
            && (!h.terminal ==>
                  && Seat(h.current)
                  && forall r :: Plays(h, m, r) <==> |r.history| <= MAX_HISTORY && r == s.(history := r.history))
  {
    hide Plays, Inv, Init, Step;
    var h, s := Run(Init(dealer, deck), moves), Run(Init(dealer, deck), moves + [m]);
    assert (moves + [m])[..|moves|] == moves;
    assert s == Step(h, m);
    RunKeeps(dealer, deck, moves);
    MoveDecided(h, m);
  }

  lemma MoveDecided(h: Hand, m: Move)
    requires Inv(h)
    ensures h.terminal ==> Step(h, m) == h
    ensures !h.terminal ==>
              && Seat(h.current)
              && forall r :: Plays(h, m, r) <==> |r.history| <= MAX_HISTORY && r == Step(h, m).(history := r.history)
  {
    if !h.terminal {
      assert Seat(h.current);
      StepPlays(h, m);
      var s := Step(h, m);
      hide PaysLevel, GoesOn, Bets, Cards, Step;
      forall r
        ensures Plays(h, m, r) <==> |r.history| <= MAX_HISTORY && r == s.(history := r.history)
      {
        if Plays(h, m, r) {
          OnePlay(h, m, r, s);
        } else if |r.history| <= MAX_HISTORY && r == s.(history := r.history) {
          HistoryIsFree(h, m, r, s);
        }
      }
    }
  }

  // ----- the deal -----

  /** The k-th seat from the dealer's left has the k-th card of each of the two rounds. */
  predicate HasCards(h: Hand, dealer: int, deck: seq<int>, k: int)
    requires Shape(h) && |deck| == DECK_SIZE && 0 <= k < 6
  {
    h.hole[(dealer + 1 + k) % 6] == (deck[k], deck[6 + k])
  }

  function Blind(dealer: int, q: int): int {
    if q == (dealer + 1) % 6 then 1 else if q == (dealer + 2) % 6 then 2 else 0
  }

  /** A fresh hand: two cards each, one chip and two in for the blinds, the seat after them on turn. */
  ghost predicate Dealt(h: Hand, dealer: int, deck: seq<int>)
    requires Shape(h) && |deck| == DECK_SIZE
  {
    && h.dealer == dealer % 6 && h.deck == deck && h.deckPos == 12 && h.board == [] && h.street == 0
    && (forall k :: 0 <= k < 6 ==> HasCards(h, h.dealer, deck, k))
    && (forall q :: Seat(q) ==>
          && h.stack[q] == 200 - Blind(h.dealer, q)
          && h.committed[q] == h.contributed[q] == Blind(h.dealer, q)
          && h.inHand[q] && h.needs[q] && !h.acted[q] && h.actedSeq[q] == -1)
    && h.pot == 3 && h.toCall == 2 && h.numRaises == 0 && h.lastFullRaise == 2 && h.fullRaiseSeq == 0
    && h.current == (h.dealer + 3) % 6 && !h.terminal && !h.resolved && h.history == []
  }

  lemma HolesAreDealt(h: Hand, dealer: int, deck: seq<int>)
    requires |deck| == DECK_SIZE && Seat(dealer) && Shape(h) && h.hole == DealHoles(deck, dealer)
    ensures forall k :: 0 <= k < 6 ==> HasCards(h, dealer, deck, k)
  {
  }

  /** The blinds on an untouched table. */
  lemma BlindsArePaid(h: Hand)
    requires Shape(h) && h.pot == 0
    requires forall q :: Seat(q) ==> h.stack[q] == START_STACK && h.committed[q] == h.contributed[q] == 0
    ensures var r := BlindBet(h);
            && r.pot == 3 && r.toCall == 2
            && forall q :: Seat(q) ==>
                 r.stack[q] == 200 - Blind(h.dealer, q) && r.committed[q] == r.contributed[q] == Blind(h.dealer, q)
  {
  }

  lemma ThirdSeatOpens(h: Hand)
    requires Shape(h) && forall q :: Seat(q) ==> h.inHand[q] && h.stack[q] > 0
    ensures EveryoneToAct(h, (h.dealer + 2) % 6).current == (h.dealer + 3) % 6
  {
    var b := h.(needs := AllNeed(h));
    assert Actable(b, SeatAfter((h.dealer + 2) % 6, 1));
  }

  lemma BlindsAreDealt(dealer: int, deck: seq<int>)
    requires |deck| == DECK_SIZE
    ensures Dealt(AfterBlinds(dealer, deck), dealer, deck) && Actable(AfterBlinds(dealer, deck), (dealer % 6 + 3) % 6)
  {
    var h, r := AfterBlinds(dealer, deck), BlindBet(BeforeBlinds(dealer, deck));
    HolesAreDealt(h, dealer % 6, deck);
    BlindsArePaid(BeforeBlinds(dealer, deck));
    ThirdSeatOpens(r);
    hide FindNextActor, DealHoles, HasCards;
    assert h == EveryoneToAct(r, (r.dealer + 2) % 6);
  }

  lemma DealIs(dealer: int, deck: seq<int>)
    requires |deck| == DECK_SIZE
    ensures Dealt(Init(dealer, deck), dealer, deck)
  {
    var h := AfterBlinds(dealer, deck);
    BlindsAreDealt(dealer, deck);
    NeedingBound(h);
    NobodyElseIs(h);
    hide AfterBlinds;
    assert h.inHand[0] && h.inHand[1];
    assert AutoAdvance(h) == h;
  }
}