/** The betting engine as the source keeps it: one struct whose arrays are updated in place. */
module Engine {
  import opened Chips
  import opened Hands
  import opened Ascending
  import opened Sequences
  import opened Showdown
  import opened HandRuns
  import opened LegalActions

  /** C's remainder: the sign follows the dividend. */
  function TruncRem(a: int, n: int): int
    requires n > 0
  {
    if a >= 0 then a % n else -(-a % n)
  }

  /** All 52 cards, once each. */
  ghost predicate IsDeck(deck: seq<int>) {
    |deck| == DECK_SIZE && Distinct(deck) && forall c :: c in deck <==> 0 <= c < DECK_SIZE
  }

  /** A random draw below i + 1 for each position i, as the generator supplies them. */
  predicate Picks(picks: seq<nat>) {
    |picks| == DECK_SIZE && forall i :: 0 <= i < DECK_SIZE ==> picks[i] <= i
  }

  lemma DealOrderInverse(dealer: int, i: int)
    requires Seat(dealer) && 0 <= i < PLAYERS
    ensures Seat(SeatAfter(dealer, 1 + i)) && DealOrder(SeatAfter(dealer, 1 + i), dealer) == i
    ensures forall p :: Seat(p) && DealOrder(p, dealer) == i ==> p == SeatAfter(dealer, 1 + i)
  {
  }

  class HandState {
    var dealer: int
    var street: int
    var pot: int
    var toCall: int
    var current: int
    const board: array<int>
    var boardCount: nat
    const hole: array<Hole>
    const stack: array<int>
    const inHand: array<bool>
    const committed: array<int>
    const contributed: array<int>
    const needs: array<bool>
    const acted: array<bool>
    const actedSeq: array<int>
    var numRaises: int
    var lastFullRaise: int
    var fullRaiseSeq: int
    var terminal: bool
    var resolved: bool
    const deck: array<int>
    var deckPos: nat
    const history: array<int>
    var historyLen: nat

    ghost const Repr: set<object>

    ghost predicate Layout() {
      && Repr == {this, board, hole, stack, inHand, committed, contributed, needs, acted, actedSeq, deck, history}
      && board.Length == MAX_BOARD && deck.Length == DECK_SIZE && history.Length == MAX_HISTORY
      && hole.Length == stack.Length == inHand.Length == committed.Length == PLAYERS
      && contributed.Length == needs.Length == acted.Length == actedSeq.Length == PLAYERS
      && board != stack && board != committed && board != contributed && board != actedSeq
      && stack != committed && stack != contributed && stack != actedSeq
      && committed != contributed && committed != actedSeq && contributed != actedSeq
      && inHand != needs && inHand != acted && needs != acted
    }

    ghost predicate Valid()
      reads Repr
    {
      && Layout()
      && boardCount <= MAX_BOARD && deckPos <= DECK_SIZE && historyLen <= MAX_HISTORY
      && 0 <= dealer < PLAYERS && -1 <= current < PLAYERS && 0 <= street <= 3
    }

    /** The hand this state stands for. */
    ghost function View(): (h: Hand)
      requires Valid()
      reads Repr
      ensures Shape(h)
    {
      Hand(dealer, street, pot, toCall, current, board[..boardCount], hole[..], stack[..], inHand[..],
           committed[..], contributed[..], needs[..], acted[..], actedSeq[..],
           numRaises, lastFullRaise, fullRaiseSeq, terminal, resolved, deck[..], deckPos, history[..historyLen])
    }

    constructor ()
      ensures Valid() && fresh(Repr)
    {
      board := new int[MAX_BOARD];
      hole := new Hole[PLAYERS];
      stack := new int[PLAYERS];
      inHand := new bool[PLAYERS];
      committed := new int[PLAYERS];
      contributed := new int[PLAYERS];
      needs := new bool[PLAYERS];
      acted := new bool[PLAYERS];
      actedSeq := new int[PLAYERS];
      deck := new int[DECK_SIZE];
      history := new int[MAX_HISTORY];
      dealer, street, pot, toCall, current, boardCount, numRaises := 0, 0, 0, 0, 0, 0, 0;
      lastFullRaise, fullRaiseSeq, terminal, resolved, deckPos, historyLen := 0, 0, false, false, 0, 0;
      Repr := {this, board, hole, stack, inHand, committed, contributed, needs, acted, actedSeq, deck, history};
    }

    method AddHistory(code: int)
      requires Valid()
      modifies this`historyLen, history
      ensures Valid()
      ensures View() == old(View()).(history := AppendHistory(old(View().history), code))
    {
      if historyLen < MAX_HISTORY {
        history[historyLen] := code;
        historyLen := historyLen + 1;
        assert history[..historyLen] == old(history[..historyLen]) + [code];
      }
    }

    method PlayersInHand() returns (n: int)
      requires Valid()
      ensures n == CountInHand(View())
    {
      n := 0;
      for i := 0 to PLAYERS
        invariant n == CountTrue(inHand[..i])
      {
        assert inHand[..i + 1][..i] == inHand[..i];
        if inHand[i] {
          n := n + 1;
        }
      }
      assert inHand[..PLAYERS] == inHand[..];
    }

    method PlayersNeedingAction() returns (n: int)
      requires Valid()
      ensures n == CountNeeding(View())
    {
      n := 0;
      ghost var flags := NeedingFlags(View());
      for i := 0 to PLAYERS
        invariant n == CountTrue(flags[..i])
      {
        assert flags[..i + 1][..i] == flags[..i];
        if inHand[i] && stack[i] > 0 && needs[i] {
          n := n + 1;
        }
      }
      assert flags[..PLAYERS] == flags;
    }

    method NextActor(from: int) returns (seat: int)
      requires Valid() && 0 <= from
      ensures seat == FindNextActor(View(), from)
    {
      var step := 1;
      while step <= PLAYERS
        invariant 1 <= step <= PLAYERS + 1
        invariant FindNextActor(View(), from) == NextActorAt(View(), from, step)
      {
        seat := (from + step) % PLAYERS;
        if inHand[seat] && stack[seat] > 0 && needs[seat] {
          return;
        }
        step := step + 1;
      }
      seat := -1;
    }

    method FirstActorForStreet() returns (seat: int)
      requires Valid()
      ensures seat == FirstActor(View())
    {
      var start: int;
      if street == 0 {
        start := (dealer + 2) % PLAYERS;
      } else {
        start := dealer;
      }
      seat := NextActor(start);
    }

    method PayChips(p: int, amount: int)
      requires Valid() && Seat(p)
      modifies this`pot, stack, committed, contributed
      ensures Valid() && View() == Pay(old(View()), p, amount)
    {
      stack[p] := stack[p] - amount;
      committed[p] := committed[p] + amount;
      contributed[p] := contributed[p] + amount;
      pot := pot + amount;
    }

    method DrawCard() returns (card: int)
      requires Valid()
      modifies this`deckPos
      ensures Valid()
      ensures old(deckPos) >= DECK_SIZE ==> card == 0 && deckPos == old(deckPos)
      ensures old(deckPos) < DECK_SIZE ==> card == deck[old(deckPos)] && deckPos == old(deckPos) + 1
    {
      if deckPos >= DECK_SIZE {
        return 0;
      }
      card := deck[deckPos];
      deckPos := deckPos + 1;
    }

    method DealCard()
      requires Valid() && boardCount < MAX_BOARD
      modifies this`boardCount, this`deckPos, board
      ensures Valid() && View() == DealOne(old(View()))
    {
      ghost var was := board[..boardCount];
      var card := DrawCard();
      board[boardCount] := card;
      boardCount := boardCount + 1;
      assert board[..boardCount] == was + [card];
    }

    /** Draws board cards until n are drawn or the board is full. */
    method DealCards(n: nat)
      requires Valid()
      modifies this`boardCount, this`deckPos, board
      ensures Valid() && View() == DealBoard(old(View()), n)
    {
      var i := 0;
      while i < n && boardCount < MAX_BOARD
        invariant 0 <= i <= n && Valid()
        invariant DealBoard(View(), n - i) == DealBoard(old(View()), n)
      {
        DealCard();
        i := i + 1;
      }
    }

    method ResetStreet()
      requires Valid()
      modifies this`toCall, this`numRaises, this`lastFullRaise, this`fullRaiseSeq, committed, acted, actedSeq
      ensures Valid() && View() == ResetForNewStreet(old(View()))
    {
      for i := 0 to PLAYERS
        invariant Valid()
        invariant forall k :: 0 <= k < i ==> committed[k] == 0 && !acted[k] && actedSeq[k] == -1
      {
        committed[i] := 0;
        acted[i] := false;
        actedSeq[i] := -1;
      }
      toCall := 0;
      numRaises := 0;
      lastFullRaise := BIG_BLIND;
      fullRaiseSeq := 0;
    }

    method FlagLiveSeats()
      requires Valid()
      modifies needs
      ensures Valid() && View() == old(View()).(needs := AllNeed(old(View())))
    {
      for i := 0 to PLAYERS
        invariant forall k :: 0 <= k < i ==> needs[k] == (inHand[k] && stack[k] > 0)
      {
        needs[i] := inHand[i] && stack[i] > 0;
      }
    }

    method FinishHand()
      requires Valid()
      modifies this`terminal, this`current
      ensures Valid() && View() == Finish(old(View()))
    {
      hide Layout;
      terminal := true;
      current := -1;
    }

    method TurnTo(p: int)
      requires Valid() && -1 <= p < PLAYERS
      modifies this`current
      ensures Valid() && View() == old(View()).(current := p)
    {
      hide Layout;
      current := p;
    }

    method NextStreetMark()
      requires Valid() && street < 3
      modifies this`street, this`historyLen, history
      ensures Valid()
      ensures var h := old(View());
              View() == h.(street := h.street + 1, history := AppendHistory(h.history, STREET_MARK + h.street + 1))
    {
      street := street + 1;
      AddHistory(STREET_MARK + street);
    }

    method DealStreet()
      requires Valid() && street < 3
      modifies Repr - {deck}
      ensures Valid() && View() == OpenStreet(old(View()))
    {
      NextStreetMark();
      DealCards(CardsForStreet(street));
      ResetStreet();
    }

    method StartStreet()
      requires Valid() && street < 3
      modifies Repr - {deck}
      ensures Valid() && View() == NextStreet(old(View()))
    {
      DealStreet();
      FlagLiveSeats();
      var first := FirstActorForStreet();
      TurnTo(first);
    }

    /** Moves on through finished streets until someone must act or the hand is over. */
    method AutoAdvanceRounds()
      requires Valid()
      modifies Repr - {deck}
      ensures Valid() && View() == AutoAdvance(old(View()))
    {
      while !terminal
        invariant Valid() && AutoAdvance(View()) == AutoAdvance(old(View()))
        decreases 3 - street
      {
        var n := PlayersInHand();
        if n <= 1 {
          FinishHand();
          return;
        }
        var needing := PlayersNeedingAction();
        if needing > 0 {
          if current < 0 || !inHand[current] || stack[current] <= 0 || !needs[current] {
            var first := FirstActorForStreet();
            TurnTo(first);
          }
          return;
        }
        if street >= 3 {
          FinishHand();
          return;
        }
        StartStreet();
      }
    }

    method Call(p: int)
      requires Valid() && Seat(p)
      modifies this`pot, stack, committed, contributed, needs
      ensures Valid() && View() == ApplyCall(old(View()), p)
    {
      var diff := toCall - committed[p];
      if diff < 0 {
        diff := 0;
      }
      PayChips(p, Min(diff, stack[p]));
      needs[p] := false;
    }

    method AskOthers(p: int)
      requires Valid() && Seat(p)
      modifies needs
      ensures Valid() && View() == old(View()).(needs := Reopened(old(View()), p))
    {
      needs[p] := false;
      for i := 0 to PLAYERS
        invariant forall k :: 0 <= k < i ==> needs[k] == Reopened(old(View()), p)[k]
        invariant forall k :: i <= k < PLAYERS ==> needs[k] == (k != p && old(needs[k]))
      {
        if i != p && inHand[i] && stack[i] > 0 && committed[i] < toCall {
          needs[i] := true;
        }
      }
    }

    method LiftBet(p: int, to: int) returns (full: bool)
      requires Valid() && Seat(p)
      modifies this`pot, this`toCall, this`numRaises, this`lastFullRaise, stack, committed, contributed
      ensures Valid() && View() == Bet(old(View()), p, to)
      ensures full == (to - old(toCall) >= old(lastFullRaise))
    {
      PayChips(p, to - committed[p]);
      full := SetBet(to);
    }

    /** The bet after a raise; only a full one resets the size of a full raise. */
    method SetBet(to: int) returns (full: bool)
      requires Valid()
      modifies this`toCall, this`numRaises, this`lastFullRaise
      ensures Valid()
      ensures var h := old(View()); var size := to - h.toCall;
              && full == (size >= h.lastFullRaise)
              && View() == h.(toCall := to, numRaises := h.numRaises + 1,
                              lastFullRaise := if full then size else h.lastFullRaise)
    {
      var size := to - toCall;
      toCall := to;
      full := size >= lastFullRaise;
      if full {
        lastFullRaise := size;
      }
      numRaises := numRaises + 1;
    }

    method RaiseTo(p: int, target: int) returns (full: bool)
      requires Valid() && Seat(p)
      modifies Repr - {deck}
      ensures Valid() && (View(), full) == ApplyRaiseTo(old(View()), p, target)
    {
      var to := target;
      if to < committed[p] {
        to := committed[p];
      }
      if to > committed[p] + stack[p] {
        to := committed[p] + stack[p];
      }
      if to <= toCall {
        Call(p);
        return false;
      }
      full := LiftBet(p, to);
      AskOthers(p);
    }

    method Mark(p: int)
      requires Valid() && Seat(p)
      modifies acted, actedSeq
      ensures Valid() && View() == MarkActed(old(View()), p)
    {
      acted[p] := true;
      actedSeq[p] := fullRaiseSeq;
    }

    method TakeAction(p: int, action: int, target: int)
      requires Valid() && Seat(p)
      modifies Repr - {deck}
      ensures Valid() && View() == ApplyAction(old(View()), p, action, target)
    {
      if terminal {
        return;
      }
      MakeMove(p, action, target);
      var n := PlayersInHand();
      if n <= 1 {
        FinishHand();
        return;
      }
      var next := NextActor(p);
      TurnTo(next);
      AutoAdvanceRounds();
    }

    method FoldMove(p: int)
      requires Valid() && Seat(p)
      modifies Repr - {deck}
      ensures Valid() && View() == Fold(old(View()), p)
    {
      AddHistory(ACT_FOLD);
      inHand[p] := false;
      needs[p] := false;
      Mark(p);
    }

    method CallMove(p: int)
      requires Valid() && Seat(p)
      modifies Repr - {deck}
      ensures Valid() && View() == Hands.Call(old(View()), p)
    {
      AddHistory(ACT_CALL_CHECK);
      Call(p);
      Mark(p);
    }

    method AddRaiseHistory(size: int)
      requires Valid()
      modifies this`historyLen, history
      ensures Valid() && View() == NoteRaise(old(View()), size)
    {
      AddHistory(RAISE_MARK);
      AddHistory(AmountBucket(size));
    }

    method CountRaise(p: int, action: int, target: int)
      requires Valid() && Seat(p)
      modifies Repr - {deck}
      ensures Valid() && View() == CountedRaise(old(View()), p, action, target)
    {
      AddHistory(RaiseCode(action));
      var full := RaiseTo(p, target);
      if full {
        fullRaiseSeq := fullRaiseSeq + 1;
      }
    }

    method RaiseMove(p: int, action: int, target: int)
      requires Valid() && Seat(p)
      modifies Repr - {deck}
      ensures Valid() && View() == Raise(old(View()), p, action, target)
    {
      var oldToCall := toCall;
      CountRaise(p, action, target);
      Mark(p);
      AddRaiseHistory(toCall - oldToCall);
    }

    method MakeMove(p: int, action: int, target: int)
      requires Valid() && Seat(p)
      modifies Repr - {deck}
      ensures Valid() && View() == Act(old(View()), p, action, target)
    {
      var diff := toCall - committed[p];
      if action == ACT_FOLD && diff > 0 {
        FoldMove(p);
      } else if action == ACT_FOLD || action == ACT_CALL_CHECK {
        CallMove(p);
      } else {
        RaiseMove(p, action, target);
      }
    }

    /** Exchanges each position with a random earlier one, from the top down. */
    method ShuffleDeck(picks: seq<nat>)
      requires Valid() && Picks(picks)
      modifies deck
      ensures Valid() && IsDeck(deck[..])
    {
      for i := 0 to DECK_SIZE
        invariant forall k :: 0 <= k < i ==> deck[k] == k
      {
        deck[i] := i;
      }
      forall c | 0 <= c < DECK_SIZE
        ensures deck[..][c] == c && c in deck[..]
      {
        assert deck[..][c] == deck[c];
      }
      var i := DECK_SIZE - 1;
      while i > 0
        invariant 0 <= i < DECK_SIZE && IsDeck(deck[..])
      {
        SwapKeeps(deck[..], i, picks[i]);
        Swap(deck, i, picks[i]);
        i := i - 1;
      }
    }

    method DealFirstCards()
      requires Valid() && deckPos == 0
      modifies this`deckPos, hole
      ensures Valid() && deckPos == PLAYERS
      ensures forall p :: Seat(p) ==> hole[p].0 == deck[DealOrder(p, dealer)]
    {
      for i := 0 to PLAYERS
        invariant Valid() && deckPos == i
        invariant forall p :: Seat(p) && DealOrder(p, dealer) < i ==> hole[p].0 == deck[DealOrder(p, dealer)]
      {
        DealOrderInverse(dealer, i);
        var card := DrawCard();
        var seat := SeatAfter(dealer, 1 + i);
        hole[seat] := (card, hole[seat].1);
      }
    }

    method DealSecondCards()
      requires Valid() && deckPos == PLAYERS
      modifies this`deckPos, hole
      ensures Valid() && deckPos == 2 * PLAYERS
      ensures forall p :: Seat(p) ==> hole[p] == (old(hole[p].0), deck[PLAYERS + DealOrder(p, dealer)])
    {
      for i := 0 to PLAYERS
        invariant Valid() && deckPos == PLAYERS + i
        invariant forall p :: Seat(p) ==> hole[p].0 == old(hole[p].0)
        invariant forall p :: Seat(p) && DealOrder(p, dealer) < i ==> hole[p].1 == deck[PLAYERS + DealOrder(p, dealer)]
      {
        DealOrderInverse(dealer, i);
        var card := DrawCard();
        var seat := SeatAfter(dealer, 1 + i);
        hole[seat] := (hole[seat].0, card);
      }
    }

    method DealHoleCards()
      requires Valid() && deckPos == 0
      modifies this`deckPos, hole
      ensures Valid() && View() == old(View()).(hole := DealHoles(deck[..], dealer), deckPos := 2 * PLAYERS)
    {
      DealFirstCards();
      DealSecondCards();
      assert forall p :: 0 <= p < PLAYERS ==> Seat(p);
      assert hole[..] == DealHoles(deck[..], dealer);
    }

    method ClearSeats()
      requires Valid()
      modifies stack, inHand, committed, contributed, needs, acted, actedSeq
      ensures Valid() && View() == SeatsCleared(old(View()))
    {
      for i := 0 to PLAYERS
        invariant forall k :: 0 <= k < i ==> stack[k] == START_STACK && inHand[k] && committed[k] == 0
        invariant forall k :: 0 <= k < i ==> contributed[k] == 0 && !needs[k] && !acted[k] && actedSeq[k] == -1
      {
        stack[i] := START_STACK;
        inHand[i] := true;
        committed[i] := 0;
        contributed[i] := 0;
        needs[i] := false;
        acted[i] := false;
        actedSeq[i] := -1;
      }
    }

    static method DealerSeat(d: int) returns (seat: int)
      ensures seat == d % PLAYERS
    {
      seat := TruncRem(TruncRem(d, PLAYERS) + PLAYERS, PLAYERS);
    }

    method ClearBets()
      requires Valid()
      modifies this
      ensures Valid() && View() == BetsCleared(old(View()))
    {
      hide Layout;
      pot, toCall, current := 0, 0, -1;
      numRaises, lastFullRaise, fullRaiseSeq := 0, BIG_BLIND, 0;
    }

    method ClearCounters(d: int)
      requires Valid()
      modifies this
      ensures Valid() && View() == CountersCleared(old(View()), d)
    {
      hide Layout;
      ClearBets();
      dealer := DealerSeat(d);
      street, boardCount, deckPos, historyLen := 0, 0, 0, 0;
      terminal, resolved := false, false;
    }

    method ClearTable(d: int)
      requires Valid()
      modifies Repr - {deck}
      ensures Valid() && View() == SeatsCleared(CountersCleared(old(View()), d))
    {
      ClearCounters(d);
      ClearSeats();
    }

    method PostBlind(p: int, amount: int)
      requires Valid() && Seat(p)
      modifies this`pot, stack, committed, contributed
      ensures Valid() && View() == PostChips(old(View()), p, amount)
    {
      PayChips(p, Min(stack[p], amount));
    }

    method PostBothBlinds()
      requires Valid()
      modifies this`pot, stack, committed, contributed
      ensures Valid() && View() == BlindChips(old(View()))
    {
      PostBlind((dealer + 1) % PLAYERS, SMALL_BLIND);
      PostBlind((dealer + 2) % PLAYERS, BIG_BLIND);
    }

    method OpenWithBlinds()
      requires Valid()
      modifies this`pot, this`toCall, this`lastFullRaise, stack, committed, contributed
      ensures Valid() && View() == BlindBet(old(View()))
    {
      PostBothBlinds();
      toCall := committed[(dealer + 2) % PLAYERS];
      lastFullRaise := BIG_BLIND;
    }

    method AskEveryone(from: int)
      requires Valid() && 0 <= from
      modifies this`current, needs
      ensures Valid() && View() == EveryoneToAct(old(View()), from)
    {
      ghost var h := View();
      FlagLiveSeats();
      assert View() == h.(needs := AllNeed(h));
      var first := NextActor(from);
      TurnTo(first);
    }

    method StartBetting()
      requires Valid()
      modifies Repr - {deck}
      ensures Valid() && View() == BlindsPosted(old(View()))
    {
      ghost var h := View();
      OpenWithBlinds();
      assert BlindsPosted(h) == EveryoneToAct(View(), (dealer + 2) % PLAYERS);
      AskEveryone((dealer + 2) % PLAYERS);
    }

    method SetTable(d: int)
      requires Valid()
      modifies Repr - {deck}
      ensures Valid() && View() == BeforeBlinds(d, old(deck[..]))
    {
      ClearTable(d);
      DealHoleCards();
    }

    /** A new hand with a freshly shuffled deck. */
    method InitHand(d: int, picks: seq<nat>)
      requires Valid() && Picks(picks)
      modifies Repr
      ensures Valid() && IsDeck(deck[..]) && View() == Init(d, deck[..])
    {
      ShuffleDeck(picks);
      SetTable(d);
      StartBetting();
      AutoAdvanceRounds();
    }

    /** The flagged seats with the lowest score, collected in one pass. */
    static method BestSeats(flags: seq<bool>, scores: seq<Score>, winners: array<int>) returns (n: nat)
      requires |flags| == |scores| == PLAYERS == winners.Length
      modifies winners
      ensures n <= PLAYERS && winners[..n] == Best(flags, scores)
    {
      var best := NO_SCORE;
      n := 0;
      for p := 0 to PLAYERS
        invariant n <= p
        invariant SeatsIn(winners[..n], p) && Increasing(winners[..n])
        invariant n == 0 <==> forall q :: 0 <= q < p ==> !flags[q]
        invariant n > 0 ==> forall q :: 0 <= q < p && flags[q] ==> best <= scores[q]
        invariant n > 0 ==> forall q :: 0 <= q < p ==> (q in winners[..n] <==> flags[q] && scores[q] == best)
      {
        if flags[p] {
          if n == 0 || scores[p] < best {
            best := scores[p];
            winners[0] := p;
            n := 1;
          } else if scores[p] == best {
            ghost var w := winners[..n];
            winners[n] := p;
            n := n + 1;
            assert winners[..n] == w + [p];
          }
        }
      }
      if n > 0 {
        assert winners[..n][0] in winners[..n];
      }
      assert forall q :: Seat(q) ==> (q in winners[..n] <==> IsBest(flags, scores, q));
      IncreasingUnique(winners[..n], Best(flags, scores));
    }

    method AddToWinners(winners: array<int>, n: nat, amount: int, k: nat)
      requires Valid() && winners !in Repr && k <= n <= winners.Length && SeatsIn(winners[..n], PLAYERS)
      modifies stack
      ensures Valid() && stack[..] == AddTo(old(stack[..]), winners[..n], amount, k)
    {
      for i := 0 to k
        invariant stack[..] == AddTo(old(stack[..]), winners[..n], amount, i)
      {
        stack[winners[i]] := stack[winners[i]] + amount;
      }
    }

    method SplitAmong(winners: array<int>, n: nat, amount: int)
      requires Valid() && winners !in Repr && 0 < n <= winners.Length && SeatsIn(winners[..n], PLAYERS)
      modifies stack
      ensures Valid() && stack[..] == Split(old(stack[..]), winners[..n], amount)
    {
      assert |winners[..n]| == n;
      AddToWinners(winners, n, amount / n, n);
      AddToWinners(winners, n, 1, amount % n);
    }

    method CountReaching(level: int) returns (n: nat)
      requires Valid()
      ensures n == CountTrue(AtLeast(contributed[..], level))
    {
      n := 0;
      ghost var flags := AtLeast(contributed[..], level);
      for p := 0 to PLAYERS
        invariant n == CountTrue(flags[..p])
      {
        assert flags[..p + 1][..p] == flags[..p];
        if contributed[p] >= level {
          n := n + 1;
        }
      }
      assert flags[..PLAYERS] == flags;
    }

    /** One side-pot layer: its chips, its winners, their shares. */
    method PayOneLayer(scores: seq<Score>, prev: int, level: int, remaining: int) returns (left: int)
      requires Valid() && |scores| == PLAYERS
      modifies stack
      ensures Valid() && Payout(stack[..], left) ==
              PayLayer(old(View()), scores, prev, level, Payout(old(stack[..]), remaining))
    {
      var n := CountReaching(level);
      var amount := Min((level - prev) * n, remaining);
      if amount <= 0 {
        return remaining;
      }
      var flags := seq(PLAYERS, p requires 0 <= p < PLAYERS && Valid() reads Repr =>
        inHand[p] && contributed[p] >= level);
      assert flags == Reached(View(), level);
      var winners := new int[PLAYERS];
      var count := BestSeats(flags, scores, winners);
      if count > 0 {
        SplitAmong(winners, count, amount);
      }
      left := remaining - amount;
    }

    /** The distinct positive contributions, collected and sorted in place. */
    method CollectLevels(levels: array<int>) returns (n: nat)
      requires Valid() && levels !in Repr && levels.Length == PLAYERS
      modifies levels
      ensures n <= PLAYERS && levels[..n] == Levels(contributed[..])
    {
      n := 0;
      for i := 0 to PLAYERS
        invariant n <= i && Distinct(levels[..n])
        invariant forall x :: x in levels[..n] <==> x in contributed[..i] && 0 < x
      {
        var amount := contributed[i];
        if amount > 0 {
          var seen := false;
          for j := 0 to n
            invariant seen <==> amount in levels[..j]
          {
            if levels[j] == amount {
              seen := true;
            }
          }
          if !seen {
            ghost var was := levels[..n];
            levels[n] := amount;
            n := n + 1;
            assert levels[..n] == was + [amount];
          }
        }
        assert contributed[..i + 1] == contributed[..i] + [amount];
      }
      assert contributed[..PLAYERS] == contributed[..];
      ExchangeSort(levels, n);
      IncreasingUnique(levels[..n], Levels(contributed[..]));
    }

    method FillBoard()
      requires Valid()
      modifies this`boardCount, this`deckPos, board
      ensures Valid() && View() == CompleteBoard(old(View()))
    {
      DealCards(MAX_BOARD - boardCount);
    }

    method PayAllLayers(scores: seq<Score>) returns (left: int)
      requires Valid() && |scores| == PLAYERS
      modifies stack
      ensures Valid()
      ensures var levels := Levels(contributed[..]);
              Payout(stack[..], left) == PayLayers(old(View()), scores, levels, |levels|)
    {
      var levels := new int[PLAYERS];
      var n := CollectLevels(levels);
      ghost var all := Levels(contributed[..]);
      var prev := 0;
      left := pot;
      for k := 0 to n
        invariant Valid() && levels[..n] == all && prev == Top(all, k)
        invariant Payout(stack[..], left) == PayLayers(old(View()), scores, all, k)
      {
        ghost var now := View();
        assert levels[k] == all[k];
        left := PayOneLayer(scores, prev, levels[k], left);
        SamePayLayer(now, old(View()), scores, prev, levels[k], PayLayers(old(View()), scores, all, k));
        prev := levels[k];
      }
    }

    method PayLeftOver(scores: seq<Score>, left: int) returns (rest: int)
      requires Valid() && |scores| == PLAYERS
      modifies stack
      ensures Valid() && Payout(stack[..], rest) == PayRest(old(View()), scores, Payout(old(stack[..]), left))
    {
      rest := left;
      if left > 0 {
        var winners := new int[PLAYERS];
        var n := BestSeats(inHand[..], scores, winners);
        if n > 0 {
          SplitAmong(winners, n, left);
          rest := 0;
        }
      }
    }

    method TakeWholePot()
      requires Valid()
      modifies this`pot, stack
      ensures Valid() && View() == TakePot(old(View()))
    {
      var winner := -1;
      var i := 0;
      while i < PLAYERS && winner < 0
        invariant 0 <= i <= PLAYERS
        invariant if winner < 0 then FirstInHand(inHand[..], 0) == FirstInHand(inHand[..], i)
                  else Seat(winner) && winner == FirstInHand(inHand[..], 0)
      {
        if inHand[i] {
          winner := i;
        }
        i := i + 1;
      }
      if winner >= 0 {
        stack[winner] := stack[winner] + pot;
        pot := 0;
      }
    }

    method ShowHands(eval: Evaluator)
      requires Valid()
      modifies this`pot, this`boardCount, this`deckPos, board, stack
      ensures Valid() && View() == PayShowdown(old(View()), eval)
    {
      FillBoard();
      ghost var h1 := View();
      var scores := seq(PLAYERS, p requires 0 <= p < PLAYERS && Valid() reads Repr =>
        if inHand[p] then eval([hole[p].0, hole[p].1] + board[..boardCount]) else NO_SCORE);
      assert scores == Scores(h1, eval);
      var left := PayAllLayers(scores);
      assert View() == h1.(stack := stack[..]);
      var rest := PayLeftOver(scores, left);
      pot := Max(rest, 0);
    }

    method MarkResolved()
      requires Valid()
      modifies this`resolved
      ensures Valid() && View() == old(View()).(resolved := true)
    {
      hide Layout;
      resolved := true;
    }

    /** Pays out a finished hand, once. */
    method ResolveTerminal(eval: Evaluator)
      requires Valid()
      modifies Repr - {deck}
      ensures Valid() && View() == Resolve(old(View()), eval)
    {
      if resolved {
        return;
      }
      var n := PlayersInHand();
      if n <= 1 {
        TakeWholePot();
      } else {
        ShowHands(eval);
      }
      FinishHand();
      MarkResolved();
    }

    /** Appends a target unless it is already listed. */
    static method AddTarget(list: array<int>, n: nat, target: int) returns (m: nat)
      requires n < list.Length
      modifies list
      ensures n <= m <= n + 1 && list[..m] == AddUnique(old(list[..n]), target)
    {
      for i := 0 to n
        invariant target !in list[..i]
      {
        if list[i] == target {
          assert list[..n][i] == target;
          return n;
        }
      }
      ghost var was := list[..n];
      list[n] := target;
      m := n + 1;
      assert list[..m] == was + [target];
    }

    /** Lists the smallest raise and the pot fractions that are on offer. */
    static method AddFractions(ghost h: Hand, p: int, base: int, toCall: int, min: int, max: int, pot: int,
                               fracs: seq<real>, list: array<int>) returns (n: nat)
      requires Shape(h) && Seat(p) && fracs == RaiseFracs(h, p) && list.Length == 32
      requires base == Max(h.toCall, h.committed[p]) && toCall == h.toCall && pot == h.pot
      requires min == MinTarget(h, p) && max == MaxTarget(h, p)
      modifies list
      ensures n <= |fracs| + 1 && list[..n] == FracCandidates(h, p, |fracs|)
    {
      list[0] := min;
      n := 1;
      for i := 0 to |fracs|
        invariant 1 <= n <= i + 1 && list[..n] == FracCandidates(h, p, i)
      {
        var target := Min(base + FracSize(pot, fracs[i]), max);
        assert target == FracTarget(h, p, RaiseFracs(h, p)[i]);
        if target < min && target != max {
        } else if target > toCall {
          n := AddTarget(list, n, target);
        }
      }
    }

    method CollectTargets(p: int, list: array<int>) returns (n: nat)
      requires Valid() && Seat(p) && list !in Repr && list.Length == 32
      modifies list
      ensures n <= MAX_ACTIONS && list[..n] == Candidates(View(), p)
    {
      var max := committed[p] + stack[p];
      var base := Max(toCall, committed[p]);
      var min := Min(base + Max(lastFullRaise, BIG_BLIND), max);
      if min <= toCall {
        min := toCall + 1;
      }
      var fracs := StreetFracs(street, numRaises);
      var count := FracCount(pot, stack[p], toCall, lastFullRaise, |fracs|);
      n := AddFractions(View(), p, base, toCall, min, max, pot, fracs[..count], list);
      n := AddTarget(list, n, max);
    }

    /** Copies sorted raise targets into the menu while it has room. */
    static method AppendRaises(ghost h: Hand, p: int, toCall: int, max: int, list: array<int>, count: nat,
                               actions: array<int>, targets: array<int>, n0: nat, ghost first: seq<Choice>)
      returns (n: nat)
      requires Shape(h) && Seat(p) && toCall == h.toCall && max == MaxTarget(h, p)
      requires list != actions && list != targets && actions != targets && count <= list.Length
      requires actions.Length == targets.Length == MAX_ACTIONS
      requires n0 == |first| && Holds(actions, targets, first)
      modifies actions, targets
      ensures var menu := AddRaises(h, p, first, list[..count]); n == |menu| && Holds(actions, targets, menu)
    {
      ghost var sorted := list[..count];
      ghost var menu := first;
      n := n0;
      var i := 0;
      while i < count && n < MAX_ACTIONS
        invariant 0 <= i <= count && n == |menu| <= MAX_ACTIONS && list[..count] == sorted
        invariant Holds(actions, targets, menu)
        invariant AddRaises(h, p, menu, sorted[i..]) == AddRaises(h, p, first, sorted)
      {
        var target := list[i];
        assert target == sorted[i] && sorted[i..][0] == target && sorted[i..][1..] == sorted[i + 1..];
        if target > toCall {
          actions[n] := if target == max then ACT_ALL_IN else ACT_RAISE_TO;
          targets[n] := target;
          n := n + 1;
          menu := menu + [RaiseChoice(h, p, target)];
        }
        i := i + 1;
      }
    }

    method OfferRaises(p: int, actions: array<int>, targets: array<int>, n0: nat) returns (n: nat)
      requires Valid() && Seat(p) && RaisesOpen(View(), p) && n0 == |FirstChoices(View(), p)|
      requires actions !in Repr && targets !in Repr && actions != targets
      requires actions.Length == targets.Length == MAX_ACTIONS
      requires Holds(actions, targets, FirstChoices(View(), p))
      modifies actions, targets
      ensures n == |Menu(View(), p)| && Holds(actions, targets, Menu(View(), p))
    {
      ghost var h := View();
      var list := new int[32];
      var count := CollectTargets(p, list);
      ExchangeSort(list, count);
      n := AppendRaises(h, p, toCall, committed[p] + stack[p], list, count, actions, targets, n0, FirstChoices(h, p));
    }

    method OfferActions(p: int, actions: array<int>, targets: array<int>) returns (n: nat)
      requires Valid() && Seat(p)
      requires actions !in Repr && targets !in Repr && actions != targets
      requires actions.Length == targets.Length == MAX_ACTIONS
      modifies actions, targets
      ensures n == |Menu(View(), p)| && Holds(actions, targets, Menu(View(), p))
    {
      n := 0;
      var diff := Max(toCall - committed[p], 0);
      if diff > 0 {
        actions[n], targets[n] := ACT_FOLD, 0;
        n := n + 1;
      }
      actions[n], targets[n] := ACT_CALL_CHECK, toCall;
      n := n + 1;
      if stack[p] > diff && (!acted[p] || actedSeq[p] < fullRaiseSeq) && committed[p] + stack[p] > toCall {
        n := OfferRaises(p, actions, targets, n);
      }
    }
  }

  /** A layer depends on the contributions and on who is still in, not on the stacks. */
  lemma SamePayLayer(h: Hand, g: Hand, scores: seq<Score>, prev: int, level: int, s: Payout)
    requires Shape(h) && Shape(g) && |scores| == PLAYERS && |s.stack| == PLAYERS
    requires h.contributed == g.contributed && h.inHand == g.inHand
    ensures PayLayer(h, scores, prev, level, s) == PayLayer(g, scores, prev, level, s)
  {
    assert Reached(h, level) == Reached(g, level);
  }
}
