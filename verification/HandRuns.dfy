/** Whole hands: they end, and only a full raise lets a player raise again. */
module HandRuns {
  import opened Chips
  import opened Hands
  import opened Betting

  // ----- every hand ends -----

  /** Lexicographic in (streets left, chips behind, seats still to act); 0 when over. */
  function Rank(h: Hand): int
    requires Shape(h)
  {
    if h.terminal then 0
    else 1 + CountNeeding(h) + (PLAYERS + 1) * (Sum(h.stack) + (TOTAL_CHIPS + 1) * (3 - h.street))
  }

  const MAX_MOVES := 1 + PLAYERS + (PLAYERS + 1) * (TOTAL_CHIPS + (TOTAL_CHIPS + 1) * 3)

  lemma StackBounds(h: Hand)
    requires Bets(h)
    ensures 0 <= Sum(h.stack) <= TOTAL_CHIPS
  {
    forall p | 0 <= p < PLAYERS
      ensures 0 <= h.stack[p] && 0 <= h.contributed[p]
    {
      assert Seat(p) && SeatOk(h, p);
    }
    SumNonNegative(h.stack);
    SumNonNegative(h.contributed);
  }

  lemma NeedingBound(h: Hand)
    requires Shape(h)
    ensures CountNeeding(h) <= PLAYERS
    ensures forall p :: Seat(p) && Actable(h, p) ==> CountNeeding(h) >= 1
  {
    CountZero(NeedingFlags(h));
    forall p | Seat(p) && Actable(h, p)
      ensures CountNeeding(h) >= 1
    {
      assert NeedingFlags(h)[p];
    }
  }

  lemma RankPositive(h: Hand)
    requires Bets(h)
    ensures 0 <= Rank(h) <= MAX_MOVES
    ensures Rank(h) == 0 <==> h.terminal
  {
    StackBounds(h);
    NeedingBound(h);
  }

  /** The three components, in their order of weight. */
  lemma RankOrder(h: Hand, r: Hand)
    requires Bets(h) && Bets(r) && !h.terminal && !r.terminal
    requires
      || (h.street < r.street)
      || (h.street == r.street && Sum(r.stack) < Sum(h.stack))
      || (h.street == r.street && Sum(r.stack) == Sum(h.stack) && CountNeeding(r) < CountNeeding(h))
    ensures Rank(r) < Rank(h)
  {
    StackBounds(h);
    StackBounds(r);
    NeedingBound(r);
  }

  lemma NextStreetRank(h: Hand)
    requires Bets(h) && !h.terminal && h.street < 3 && CountNeeding(h) == 0
    ensures Rank(NextStreet(h)) < Rank(h)
  {
    NextStreetKeepsBets(h);
    RankOrder(h, NextStreet(h));
  }

  lemma TurnSettles(h: Hand)
    requires Shape(h) && !h.terminal && CountInHand(h) > 1 && CountNeeding(h) > 0
    ensures AutoAdvance(h) == h.(current := AutoAdvance(h).current)
  {
  }

  lemma SameRank(h: Hand, r: Hand)
    requires Shape(h) && Shape(r) && r == h.(current := r.current)
    ensures Rank(r) == Rank(h)
  {
    assert NeedingFlags(r) == NeedingFlags(h);
    hide CountTrue, Sum;
  }

  lemma SettledRank(h: Hand)
    requires Bets(h) && !h.terminal && CountInHand(h) > 1 && CountNeeding(h) > 0
    ensures Rank(AutoAdvance(h)) == Rank(h)
  {
    hide AutoAdvance, Rank;
    TurnSettles(h);
    SameRank(h, AutoAdvance(h));
  }

  lemma FinishedRank(h: Hand)
    requires Bets(h)
    ensures Rank(Finish(h)) == 0 <= Rank(h)
  {
    RankPositive(h);
  }

  lemma {:induction false} AutoAdvanceRank(h: Hand)
    requires Bets(h)
    ensures Rank(AutoAdvance(h)) <= Rank(h)
    decreases 3 - h.street
  {
    hide Rank, SeatOk, Leads, Money, Finish;
    FinishedRank(h);
    if !h.terminal && CountInHand(h) > 1 {
      if CountNeeding(h) > 0 {
        SettledRank(h);
      } else if h.street < 3 {
        NextStreetRank(h);
        NextStreetKeepsBets(h);
        AutoAdvanceRank(NextStreet(h));
      }
    }
  }

  lemma PaidBounds(h: Hand, p: int, action: int, target: int)
    requires Bets(h) && Seat(p)
    ensures 0 <= Paid(h, p, action, target) <= h.stack[p]
  {
    assert SeatOk(h, p);
  }

  lemma {:induction false} FreeMoveStops(h: Hand, p: int, action: int, target: int)
    requires Bets(h) && Seat(p) && Actable(h, p) && Paid(h, p, action, target) == 0
    ensures NeedingFlags(Act(h, p, action, target)) == NeedingFlags(h)[p := false]
  {
    hide Leads;
    assert SeatOk(h, p);
    var r := Act(h, p, action, target);
    assert r.needs == h.needs[p := false] && r.inHand == h.inHand[p := r.inHand[p]];
  }

  /** Either chips go in, or one seat fewer must act. */
  lemma ActDescends(h: Hand, p: int, action: int, target: int)
    requires Bets(h) && Seat(p) && Actable(h, p) && !h.terminal
    ensures Rank(Act(h, p, action, target)) < Rank(h)
  {
    var a := Act(h, p, action, target);
    ActKeepsBets(h, p, action, target);
    ChipsOrNeeds(h, p, action, target);
    assert a.street == h.street && a.terminal == h.terminal;
    hide Act, Bets, Rank, CountNeeding, Sum;
    RankOrder(h, a);
  }

  lemma ChipsOrNeeds(h: Hand, p: int, action: int, target: int)
    requires Bets(h) && Seat(p) && Actable(h, p)
    ensures var a := Act(h, p, action, target);
            Sum(a.stack) < Sum(h.stack) || (Sum(a.stack) == Sum(h.stack) && CountNeeding(a) < CountNeeding(h))
  {
    hide Act, Sum, CountTrue;
    PaidBounds(h, p, action, target);
    SumUpdate(h.stack, p, h.stack[p] - Paid(h, p, action, target));
    if Paid(h, p, action, target) == 0 {
      FreeMoveStops(h, p, action, target);
      CountUpdate(NeedingFlags(h), p, false);
    }
  }

  lemma StepDescends(h: Hand, m: Move)
    requires Inv(h) && !h.terminal
    ensures Rank(Step(h, m)) < Rank(h)
  {
    hide Act, SeatOk, Leads;
    var p := h.current;
    var a := Act(h, p, m.action, m.target);
    ActDescends(h, p, m.action, m.target);
    ActKeepsBets(h, p, m.action, m.target);
    RankPositive(a);
    assert Step(h, m) == PassTurn(a, p);
    if CountInHand(a) > 1 {
      var b := a.(current := FindNextActor(a, p));
      assert PassTurn(a, p) == AutoAdvance(b);
      assert NeedingFlags(b) == NeedingFlags(a);
      SameBets(a, b);
      AutoAdvanceRank(b);
    }
  }

  lemma {:induction false} RunDescends(dealer: int, deck: seq<int>, moves: seq<Move>)
    requires |deck| == DECK_SIZE
    ensures var h := Run(Init(dealer, deck), moves);
            h.terminal || Rank(h) + |moves| <= MAX_MOVES
  {
    RunKeeps(dealer, deck, moves);
    if moves == [] {
      RankPositive(Init(dealer, deck));
    } else {
      RunDescends(dealer, deck, moves[..|moves| - 1]);
      var h := Run(Init(dealer, deck), moves[..|moves| - 1]);
      RunKeeps(dealer, deck, moves[..|moves| - 1]);
      if !h.terminal {
        StepDescends(h, moves[|moves| - 1]);
      }
    }
  }

  /** However the players move, the hand is over after MAX_MOVES moves. */
  lemma HandEnds(dealer: int, deck: seq<int>, moves: seq<Move>)
    requires |deck| == DECK_SIZE && |moves| >= MAX_MOVES
    ensures Run(Init(dealer, deck), moves).terminal
  {
    RunKeeps(dealer, deck, moves);
    RunDescends(dealer, deck, moves);
    RankPositive(Run(Init(dealer, deck), moves));
  }

  // ----- only a full raise reopens the betting -----

  predicate IsRaise(m: Move) {
    m.action != ACT_FOLD && m.action != ACT_CALL_CHECK
  }

  /** How far the move lifts the current bet. */
  function RaiseSize(h: Hand, m: Move): int
    requires Shape(h) && Seat(h.current)
  {
    if IsRaise(m) then Max(ClampTarget(h, h.current, m.target) - h.toCall, 0) else 0
  }

  /** The move lifts the bet by at least the last full raise. */
  predicate FullRaise(h: Hand, m: Move)
    requires Shape(h)
  {
    !h.terminal && Seat(h.current) && RaiseSize(h, m) >= h.lastFullRaise
  }

  ghost predicate SeqsOk(h: Hand)
    requires Shape(h)
  {
    forall p :: Seat(p) ==> if h.acted[p] then h.actedSeq[p] <= h.fullRaiseSeq else h.actedSeq[p] == -1
  }

  ghost predicate FreshRecords(h: Hand)
    requires Shape(h)
  {
    h.fullRaiseSeq == 0 && forall p :: Seat(p) ==> !h.acted[p] && h.actedSeq[p] == -1
  }

  ghost predicate SameRecords(h: Hand, r: Hand) {
    && r.street == h.street && r.acted == h.acted && r.actedSeq == h.actedSeq
    && r.fullRaiseSeq == h.fullRaiseSeq && r.lastFullRaise == h.lastFullRaise && r.toCall == h.toCall
  }

  lemma {:induction false} AutoAdvanceRecords(h: Hand)
    requires Shape(h)
    ensures var r := AutoAdvance(h);
            SameRecords(h, r) || (r.street > h.street && FreshRecords(r))
    decreases 3 - h.street
  {
    if !h.terminal && CountInHand(h) > 1 && CountNeeding(h) == 0 && h.street < 3 {
      assert FreshRecords(NextStreet(h));
      AutoAdvanceRecords(NextStreet(h));
    }
  }

  /** What the seat's own move leaves on record: a full raise by a new sequence number. */
  ghost predicate Recorded(h: Hand, r: Hand, p: int, size: int)
    requires Shape(h) && Shape(r) && Seat(p)
  {
    var full := size >= h.lastFullRaise;
    && r.street == h.street
    && r.toCall == h.toCall + size
    && r.lastFullRaise == (if full then size else h.lastFullRaise)
    && r.fullRaiseSeq == h.fullRaiseSeq + (if full then 1 else 0)
    && r.acted == h.acted[p := true]
    && r.actedSeq == h.actedSeq[p := r.fullRaiseSeq]
  }

  lemma PassiveRecords(h: Hand, p: int)
    requires Bets(h) && Seat(p) && !h.terminal
    ensures Recorded(h, Fold(h, p), p, 0) && Recorded(h, Call(h, p), p, 0)
  {
  }

  lemma RaiseRecords(h: Hand, p: int, action: int, target: int)
    requires Bets(h) && Seat(p) && !h.terminal
    ensures Recorded(h, Raise(h, p, action, target), p, Max(ClampTarget(h, p, target) - h.toCall, 0))
  {
  }

  /** What a move records while the street goes on; a short all-in lifts the bet and nothing else. */
  lemma ActRecords(h: Hand, m: Move)
    requires Bets(h) && Seat(h.current) && !h.terminal
    ensures Recorded(h, Act(h, h.current, m.action, m.target), h.current, RaiseSize(h, m))
  {
    PassiveRecords(h, h.current);
    RaiseRecords(h, h.current, m.action, m.target);
  }

  lemma StepRecords(h: Hand, m: Move)
    requires Inv(h) && !h.terminal
    ensures var r := Step(h, m); var a := Act(h, h.current, m.action, m.target);
            SameRecords(a, r) || (r.street > h.street && FreshRecords(r))
  {
    var p := h.current;
    var a := Act(h, p, m.action, m.target);
    if CountInHand(a) > 1 {
      AutoAdvanceRecords(a.(current := FindNextActor(a, p)));
    }
  }

  /** The hand after the first k moves. */
  function At(h0: Hand, moves: seq<Move>, k: nat): (h: Hand)
    requires Shape(h0) && k <= |moves|
    ensures Shape(h)
  {
    Run(h0, moves[..k])
  }

  /** Index of p's last move, or -1. */
  function LastMoveOf(h0: Hand, moves: seq<Move>, p: int): (k: int)
    requires Shape(h0)
    ensures -1 <= k < |moves|
  {
    if moves == [] then -1
    else
      var n := |moves| - 1;
      var h := Run(h0, moves[..n]);
      if !h.terminal && h.current == p then n else LastMoveOf(h0, moves[..n], p)
  }

  predicate FullRaiseAt(h0: Hand, moves: seq<Move>, j: nat)
    requires Shape(h0) && j < |moves|
  {
    FullRaise(At(h0, moves, j), moves[j])
  }

  ghost predicate FullRaiseSince(h0: Hand, moves: seq<Move>, k: int)
    requires Shape(h0) && -1 <= k
  {
    exists j :: k < j < |moves| && FullRaiseAt(h0, moves, j)
  }

  ghost predicate RecordsTrue(h0: Hand, moves: seq<Move>, p: int)
    requires Shape(h0) && Seat(p)
  {
    var h := Run(h0, moves);
    var k := LastMoveOf(h0, moves, p);
    && SeqsOk(h)
    && (k >= 0 ==> At(h0, moves, k).street <= h.street)
    && (h.acted[p] <==> k >= 0 && At(h0, moves, k).street == h.street)
    && (h.acted[p] ==> (h.actedSeq[p] < h.fullRaiseSeq <==> FullRaiseSince(h0, moves, k)))
  }

  lemma PrefixAt(h0: Hand, moves: seq<Move>, n: nat, j: nat)
    requires Shape(h0) && j <= n <= |moves|
    ensures At(h0, moves[..n], j) == At(h0, moves, j)
    ensures j < n ==> FullRaiseAt(h0, moves[..n], j) == FullRaiseAt(h0, moves, j)
  {
    assert moves[..n][..j] == moves[..j];
  }

  lemma {:induction false} SinceExtends(h0: Hand, moves: seq<Move>, k: int)
    requires Shape(h0) && -1 <= k && moves != [] && k < |moves| - 1
    ensures var n := |moves| - 1;
            FullRaiseSince(h0, moves, k) <==> FullRaiseSince(h0, moves[..n], k) || FullRaiseAt(h0, moves, n)
  {
    hide FullRaiseAt, At;
    var n := |moves| - 1;
    if FullRaiseSince(h0, moves[..n], k) {
      var j :| k < j < n && FullRaiseAt(h0, moves[..n], j);
      PrefixAt(h0, moves, n, j);
    } else if FullRaiseSince(h0, moves, k) {
      var j :| k < j < |moves| && FullRaiseAt(h0, moves, j);
      if j < n {
        PrefixAt(h0, moves, n, j);
      }
    }
  }

  lemma SeqsStay(h: Hand, m: Move)
    requires Inv(h) && SeqsOk(h)
    ensures SeqsOk(Step(h, m))
  {
    if !h.terminal {
      ActRecords(h, m);
      StepRecords(h, m);
    }
  }

  lemma RecordsStay(h0: Hand, moves: seq<Move>, p: int)
    requires Inv(h0) && Seat(p) && moves != []
    requires var n := |moves| - 1; RecordsTrue(h0, moves[..n], p) && Inv(Run(h0, moves[..n]))
    ensures RecordsTrue(h0, moves, p)
  {
    var n := |moves| - 1;
    var h := Run(h0, moves[..n]);
    var k := LastMoveOf(h0, moves[..n], p);
    SeqsStay(h, moves[n]);
    if !h.terminal {
      ActRecords(h, moves[n]);
      StepRecords(h, moves[n]);
    }
    if k >= 0 {
      PrefixAt(h0, moves, n, k);
    }
    if h.terminal || h.current != p {
      SinceExtends(h0, moves, k);
    }
  }

  /**
   Over every hand: a seat counts as having acted exactly when its last move was
   on this street, and then the stored counters differ exactly when some full
   raise was made after that move.
   */
  lemma {:induction false} RecordsHold(dealer: int, deck: seq<int>, moves: seq<Move>, p: int)
    requires |deck| == DECK_SIZE && Seat(p)
    ensures RecordsTrue(Init(dealer, deck), moves, p)
  {
    InitKeeps(dealer, deck);
    if moves == [] {
      AutoAdvanceRecords(AfterBlinds(dealer, deck));
    } else {
      var n := |moves| - 1;
      RecordsHold(dealer, deck, moves[..n], p);
      RunKeeps(dealer, deck, moves[..n]);
      RecordsStay(Init(dealer, deck), moves, p);
    }
  }

  /** The guard that offers raises. */
  predicate CanRaise(h: Hand, p: int)
    requires Shape(h) && Seat(p)
  {
    h.stack[p] > CallAmount(h, p) && (!h.acted[p] || h.actedSeq[p] < h.fullRaiseSeq)
  }

  /**
   A raise is offered exactly when the stack exceeds the call and the seat has not
   yet moved on this street or somebody made a full raise since it did.
   */
  lemma OnlyFullRaiseReopens(dealer: int, deck: seq<int>, moves: seq<Move>, p: int)
    requires |deck| == DECK_SIZE && Seat(p)
    ensures var h0 := Init(dealer, deck); var h := Run(h0, moves); var k := LastMoveOf(h0, moves, p);
            CanRaise(h, p) <==>
            && h.stack[p] > CallAmount(h, p)
            && (k < 0 || At(h0, moves, k).street < h.street || FullRaiseSince(h0, moves, k))
  {
    RecordsHold(dealer, deck, moves, p);
  }
}
