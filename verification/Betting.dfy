/**
 The betting invariant: what every move keeps, and why the pot can always be
 paid out. Some player still in the hand has put in as much as anyone.
 */
module Betting {
  import opened Chips
  import opened Hands

  function Earlier(h: Hand, p: int): int
    requires Shape(h) && Seat(p)
  {
    h.contributed[p] - h.committed[p]
  }

  ghost predicate TopEarlier(h: Hand, p: int)
    requires Shape(h) && Seat(p)
  {
    forall q :: Seat(q) ==> Earlier(h, q) <= Earlier(h, p)
  }

  /** In the hand, matched the current bet, and matched every earlier street. */
  ghost predicate Leads(h: Hand, p: int)
    requires Shape(h) && Seat(p)
  {
    h.inHand[p] && h.committed[p] == h.toCall && TopEarlier(h, p)
  }

  ghost predicate SeatOk(h: Hand, p: int)
    requires Shape(h) && Seat(p)
  {
    && 0 <= h.stack[p]
    && 0 <= h.committed[p] <= h.toCall
    && 0 <= Earlier(h, p)
    && (h.needs[p] ==> h.inHand[p] && h.stack[p] > 0)
    && (h.inHand[p] && h.stack[p] + h.committed[p] > 0 ==> TopEarlier(h, p))
    && (h.inHand[p] && h.stack[p] > 0 && !h.needs[p] ==> h.committed[p] == h.toCall)
  }

  ghost predicate Money(h: Hand)
    requires Shape(h)
  {
    && h.pot == Sum(h.contributed)
    && Sum(h.stack) + h.pot == TOTAL_CHIPS
  }

  ghost predicate Bets(h: Hand) {
    && Shape(h)
    && (forall p :: Seat(p) ==> SeatOk(h, p))
    && (exists p :: Seat(p) && Leads(h, p))
    && h.lastFullRaise >= BIG_BLIND
    && h.fullRaiseSeq >= 0
    && Money(h)
  }

  function BoardSize(street: int): int {
    if street == 0 then 0 else street + 2
  }

  /** The dealt cards are a prefix of the deck: twelve hole cards, then the board. */
  ghost predicate Cards(h: Hand) {
    && Shape(h)
    && |h.board| == BoardSize(h.street)
    && h.deckPos == 2 * PLAYERS + |h.board|
    && h.board == h.deck[2 * PLAYERS..h.deckPos]
    && h.hole == DealHoles(h.deck, h.dealer)
  }

  /** Whose turn it is, or why nobody's. */
  ghost predicate Turn(h: Hand)
    requires Shape(h)
  {
    if h.terminal then
      h.current == -1 && (CountInHand(h) <= 1 || (h.street == 3 && CountNeeding(h) == 0))
    else
      CountInHand(h) >= 2 && Seat(h.current) && Actable(h, h.current)
  }

  ghost predicate Inv(h: Hand) {
    Bets(h) && Cards(h) && Turn(h) && !h.resolved
  }

  // ----- single moves keep the bets -----

  lemma PayKeepsMoney(h: Hand, p: int, amount: int)
    requires Shape(h) && Seat(p) && Money(h)
    ensures Money(Pay(h, p, amount))
  {
    SumUpdate(h.stack, p, h.stack[p] - amount);
    SumUpdate(h.contributed, p, h.contributed[p] + amount);
  }

  lemma SameMoney(h: Hand, r: Hand)
    requires Shape(h) && Shape(r) && Money(h)
    requires r.stack == h.stack && r.contributed == h.contributed && r.pot == h.pot
    ensures Money(r)
  {
  }

  lemma CallKeepsBets(h: Hand, p: int)
    requires Bets(h) && Seat(p) && Actable(h, p)
    ensures Bets(ApplyCall(h, p))
  {
    var r := ApplyCall(h, p);
    PayKeepsMoney(h, p, Min(CallAmount(h, p), h.stack[p]));
    assert forall q :: Seat(q) ==> Earlier(r, q) == Earlier(h, q);
    var l :| Seat(l) && Leads(h, l);
    assert Leads(r, l);
    forall q | Seat(q)
      ensures SeatOk(r, q)
    {
      assert SeatOk(h, q);
    }
  }

  /** What a bet above the current one changes, whoever is asked to respond. */
  ghost predicate Raised(h: Hand, r: Hand, p: int)
    requires Shape(h) && Shape(r) && Seat(p)
  {
    && r.inHand == h.inHand && h.toCall < r.toCall
    && 0 <= r.stack[p] && r.stack == h.stack[p := r.stack[p]]
    && r.committed == h.committed[p := r.toCall]
    && (forall q :: Seat(q) ==> Earlier(r, q) == Earlier(h, q))
    && !r.needs[p]
    && (forall q :: Seat(q) && q != p ==>
          (r.needs[q] <==> h.needs[q] || (h.inHand[q] && h.stack[q] > 0 && h.committed[q] < r.toCall)))
    && BIG_BLIND <= r.lastFullRaise && 0 <= r.fullRaiseSeq
  }

  lemma RaisedKeepsBets(h: Hand, r: Hand, p: int)
    requires Bets(h) && Shape(r) && Seat(p) && Actable(h, p) && Raised(h, r, p) && Money(r)
    ensures Bets(r)
  {
    assert SeatOk(h, p);
    assert Leads(r, p);
    forall q | Seat(q)
      ensures SeatOk(r, q)
    {
      assert SeatOk(h, q);
    }
  }

  lemma RaiseIsRaised(h: Hand, p: int, target: int)
    requires Shape(h) && Seat(p) && BIG_BLIND <= h.lastFullRaise && 0 <= h.fullRaiseSeq
    requires h.toCall < ClampTarget(h, p, target)
    ensures Raised(h, ApplyRaiseTo(h, p, target).0, p)
  {
    var r := ApplyRaiseTo(h, p, target).0;
    assert r.stack == h.stack[p := r.stack[p]];
    assert forall q :: Seat(q) ==> Earlier(r, q) == Earlier(h, q);
  }

  lemma RaiseKeepsMoney(h: Hand, p: int, target: int)
    requires Shape(h) && Seat(p) && Money(h) && h.toCall < ClampTarget(h, p, target)
    ensures Money(ApplyRaiseTo(h, p, target).0)
  {
    var t := ClampTarget(h, p, target);
    PayKeepsMoney(h, p, t - h.committed[p]);
    SameMoney(Pay(h, p, t - h.committed[p]), ApplyRaiseTo(h, p, target).0);
  }

  lemma RaiseKeepsBets(h: Hand, p: int, target: int)
    requires Bets(h) && Seat(p) && Actable(h, p)
    ensures Bets(ApplyRaiseTo(h, p, target).0)
  {
    if ClampTarget(h, p, target) <= h.toCall {
      CallKeepsBets(h, p);
    } else {
      RaiseIsRaised(h, p, target);
      RaiseKeepsMoney(h, p, target);
      RaisedKeepsBets(h, ApplyRaiseTo(h, p, target).0, p);
    }
  }

  lemma FoldKeepsBets(h: Hand, p: int)
    requires Bets(h) && Seat(p) && CallAmount(h, p) > 0
    ensures Bets(Fold(h, p))
  {
    var r := Fold(h, p);
    assert forall q :: Seat(q) ==> Earlier(r, q) == Earlier(h, q);
    var l :| Seat(l) && Leads(h, l);
    assert Leads(r, l);
    forall q | Seat(q)
      ensures SeatOk(r, q)
    {
      assert SeatOk(h, q);
    }
  }

  /** Only the record of who acted, the history or the turn differs. */
  lemma SameBets(h: Hand, r: Hand)
    requires Bets(h) && Shape(r)
    requires r.stack == h.stack && r.contributed == h.contributed && r.pot == h.pot
    requires r.committed == h.committed && r.inHand == h.inHand && r.needs == h.needs
    requires r.toCall == h.toCall && r.lastFullRaise == h.lastFullRaise
    requires h.fullRaiseSeq <= r.fullRaiseSeq
    ensures Bets(r)
  {
    assert forall q :: Seat(q) ==> Earlier(r, q) == Earlier(h, q);
    var l :| Seat(l) && Leads(h, l);
    assert Leads(r, l);
    forall q | Seat(q)
      ensures SeatOk(r, q)
    {
      assert SeatOk(h, q);
    }
  }

  lemma CallMoveKeepsBets(h: Hand, p: int)
    requires Bets(h) && Seat(p) && Actable(h, p)
    ensures Bets(Call(h, p))
  {
    var h0 := h.(history := AppendHistory(h.history, ACT_CALL_CHECK));
    SameBets(h, h0);
    CallKeepsBets(h0, p);
    SameBets(ApplyCall(h0, p), Call(h, p));
  }

  lemma RaiseMoveKeepsBets(h: Hand, p: int, action: int, target: int)
    requires Bets(h) && Seat(p) && Actable(h, p)
    ensures Bets(Raise(h, p, action, target))
  {
    var h0 := h.(history := AppendHistory(h.history, RaiseCode(action)));
    SameBets(h, h0);
    RaiseKeepsBets(h0, p, target);
    SameBets(ApplyRaiseTo(h0, p, target).0, Raise(h, p, action, target));
  }

  lemma ActKeepsBets(h: Hand, p: int, action: int, target: int)
    requires Bets(h) && Seat(p) && Actable(h, p)
    ensures Bets(Act(h, p, action, target))
  {
    hide Fold, Call, Raise;
    var a := Effective(h, p, action);
    if a == ACT_FOLD {
      FoldKeepsBets(h, p);
    } else if a == ACT_CALL_CHECK {
      CallMoveKeepsBets(h, p);
    } else {
      RaiseMoveKeepsBets(h, p, action, target);
    }
  }

  lemma NobodyNeeds(h: Hand, p: int)
    requires Shape(h) && Seat(p) && CountNeeding(h) == 0
    ensures !Actable(h, p)
  {
    CountZero(NeedingFlags(h));
    assert !NeedingFlags(h)[p];
  }

  /** A street that ends leaves every live stack level with the leader. */
  lemma NextStreetKeepsBets(h: Hand)
    requires Bets(h) && h.street < 3 && CountNeeding(h) == 0
    ensures Bets(NextStreet(h))
  {
    var r := NextStreet(h);
    var l :| Seat(l) && Leads(h, l);
    assert forall q :: Seat(q) ==> Earlier(r, q) == h.contributed[q];
    assert TopEarlier(r, l) by {
      forall q | Seat(q)
        ensures Earlier(r, q) <= Earlier(r, l)
      {
        assert SeatOk(h, q);
      }
    }
    assert Leads(r, l);
    forall q | Seat(q)
      ensures SeatOk(r, q)
    {
      assert SeatOk(h, q) && SeatOk(h, l);
      NobodyNeeds(h, q);
    }
  }

  lemma NextStreetKeepsCards(h: Hand)
    requires Cards(h) && h.street < 3
    ensures Cards(NextStreet(h))
  {
    var h1 := h.(street := h.street + 1, history := AppendHistory(h.history, STREET_MARK + h.street + 1));
    var n := CardsForStreet(h1.street);
    DealTakesFromDeck(h1, n);
    SliceJoins(h.deck, 2 * PLAYERS, h.deckPos, h.deckPos + n);
  }

  lemma SliceJoins(s: seq<int>, i: nat, j: nat, k: nat)
    requires i <= j <= k <= |s|
    ensures s[i..j] + s[j..k] == s[i..k]
  {
  }

  lemma {:induction false} DealTakesFromDeck(h: Hand, n: nat)
    requires Shape(h) && h.deckPos + n <= DECK_SIZE && |h.board| + n <= MAX_BOARD
    ensures var r := DealBoard(h, n);
            && r.board == h.board + h.deck[h.deckPos..h.deckPos + n]
            && r.deckPos == h.deckPos + n
    decreases n
  {
    if n > 0 {
      DealTakesFromDeck(DealOne(h), n - 1);
      assert [h.deck[h.deckPos]] + h.deck[h.deckPos + 1..h.deckPos + n] == h.deck[h.deckPos..h.deckPos + n];
    }
  }

  // ----- the turn -----

  lemma {:induction false} NextActorFinds(h: Hand, from: int, step: int, d: int)
    requires Shape(h) && 0 <= from && 1 <= step <= d <= PLAYERS
    requires Actable(h, SeatAfter(from, d))
    ensures NextActorAt(h, from, step) >= 0
    ensures exists e :: step <= e <= d && NextActorAt(h, from, step) == SeatAfter(from, e)
    decreases d - step
  {
    if Actable(h, SeatAfter(from, step)) {
      assert NextActorAt(h, from, step) == SeatAfter(from, step);
    } else {
      NextActorFinds(h, from, step + 1, d);
    }
  }

  /** The scan of six seats misses nobody. */
  lemma FindNextActorComplete(h: Hand, from: int, p: int)
    requires Shape(h) && 0 <= from && Seat(p) && Actable(h, p)
    ensures FindNextActor(h, from) >= 0
  {
    var d := (p - from - 1) % PLAYERS + 1;
    assert SeatAfter(from, d) == p;
    NextActorFinds(h, from, 1, d);
  }

  lemma SomebodyNeeds(h: Hand) returns (p: int)
    requires Shape(h) && CountNeeding(h) > 0
    ensures Seat(p) && Actable(h, p)
  {
    CountZero(NeedingFlags(h));
    p :| 0 <= p < PLAYERS && NeedingFlags(h)[p];
  }

  lemma FinishKeeps(h: Hand)
    requires Bets(h) && Cards(h) && !h.resolved
    requires CountInHand(h) <= 1 || (h.street == 3 && CountNeeding(h) == 0)
    ensures Inv(Finish(h))
  {
    SameBets(h, Finish(h));
    assert NeedingFlags(Finish(h)) == NeedingFlags(h);
  }

  lemma PassTurnToSeat(h: Hand, p: int)
    requires Bets(h) && Cards(h) && !h.resolved && !h.terminal && CountInHand(h) > 1
    requires Seat(p) && Actable(h, p)
    ensures Inv(h.(current := p))
  {
    SameBets(h, h.(current := p));
  }

  /** Someone must act: the turn stays with a seat that can, or goes to the first that can. */
  lemma {:induction false} SettleTurnKeeps(h: Hand)
    requires Bets(h) && Cards(h) && !h.resolved && !h.terminal
    requires CountInHand(h) > 1 && CountNeeding(h) > 0
    ensures Inv(AutoAdvance(h))
  {
    var p := SomebodyNeeds(h);
    FindNextActorComplete(h, if h.street == 0 then (h.dealer + 2) % PLAYERS else h.dealer, p);
    PassTurnToSeat(h, AutoAdvance(h).current);
  }

  lemma {:induction false} AutoAdvanceKeeps(h: Hand)
    requires Bets(h) && Cards(h) && !h.resolved && !h.terminal
    ensures Inv(AutoAdvance(h))
    decreases 3 - h.street
  {
    hide Finish, SeatOk, Leads, Money;
    if CountInHand(h) <= 1 {
      FinishKeeps(h);
    } else if CountNeeding(h) > 0 {
      SettleTurnKeeps(h);
    } else if h.street >= 3 {
      FinishKeeps(h);
    } else {
      NextStreetKeepsBets(h);
      NextStreetKeepsCards(h);
      AutoAdvanceKeeps(NextStreet(h));
    }
  }

  lemma PassTurnKeeps(h: Hand, p: int)
    requires Bets(h) && Cards(h) && !h.resolved && !h.terminal && Seat(p)
    ensures Inv(PassTurn(h, p))
  {
    if CountInHand(h) <= 1 {
      FinishKeeps(h);
    } else {
      var b := h.(current := FindNextActor(h, p));
      SameBets(h, b);
      AutoAdvanceKeeps(b);
    }
  }

  lemma StepKeeps(h: Hand, m: Move)
    requires Inv(h)
    ensures Inv(Step(h, m))
  {
    if !h.terminal {
      ActKeepsBets(h, h.current, m.action, m.target);
      PassTurnKeeps(Act(h, h.current, m.action, m.target), h.current);
    }
  }

  // ----- the start -----

  lemma {:induction false} SumConstant(s: seq<int>, v: int)
    requires forall i :: 0 <= i < |s| ==> s[i] == v
    ensures Sum(s) == |s| * v
  {
    if s != [] {
      SumConstant(s[..|s| - 1], v);
    }
  }

  lemma DealtMoney(dealer: int, deck: seq<int>)
    requires |deck| == DECK_SIZE
    ensures Money(BeforeBlinds(dealer, deck))
  {
    var h := BeforeBlinds(dealer, deck);
    SumConstant(h.stack, START_STACK);
    SumZero(h.contributed);
  }

  /** The two blinds, posted by the seats left of the dealer. */
  lemma BlindsKeepMoney(dealer: int, deck: seq<int>)
    requires |deck| == DECK_SIZE
    ensures Money(AfterBlinds(dealer, deck))
  {
    var h := BeforeBlinds(dealer, deck);
    DealtMoney(dealer, deck);
    hide BeforeBlinds, Sum;
    PayKeepsMoney(h, (h.dealer + 1) % PLAYERS, SMALL_BLIND);
    PayKeepsMoney(PostChips(h, (h.dealer + 1) % PLAYERS, SMALL_BLIND), (h.dealer + 2) % PLAYERS, BIG_BLIND);
    SameMoney(BlindChips(h), AfterBlinds(dealer, deck));
  }

  lemma BlindsKeepBets(dealer: int, deck: seq<int>)
    requires |deck| == DECK_SIZE
    ensures Bets(AfterBlinds(dealer, deck)) && Cards(AfterBlinds(dealer, deck))
  {
    var h := AfterBlinds(dealer, deck);
    BlindsKeepMoney(dealer, deck);
    assert forall q :: Seat(q) ==> Earlier(h, q) == 0;
    assert Leads(h, (dealer % PLAYERS + 2) % PLAYERS);
    assert forall q :: Seat(q) ==> SeatOk(h, q);
  }

  lemma InitKeeps(dealer: int, deck: seq<int>)
    requires |deck| == DECK_SIZE
    ensures Inv(Init(dealer, deck))
  {
    BlindsKeepBets(dealer, deck);
    AutoAdvanceKeeps(AfterBlinds(dealer, deck));
  }

  /**
   Over every hand: whatever moves are made, sensible or not, no chip appears or
   disappears, and the invariant that pays out the pot survives.
   */
  lemma {:induction false} RunKeeps(dealer: int, deck: seq<int>, moves: seq<Move>)
    requires |deck| == DECK_SIZE
    ensures Inv(Run(Init(dealer, deck), moves))
  {
    if moves == [] {
      InitKeeps(dealer, deck);
    } else {
      RunKeeps(dealer, deck, moves[..|moves| - 1]);
      StepKeeps(Run(Init(dealer, deck), moves[..|moves| - 1]), moves[|moves| - 1]);
    }
  }
}
