/**
 What the action history says about the moves made: which move each entry stands
 for, how large its raise was, and which street each separator opens.
 */
module ActionRecords {
  import opened Chips
  import opened Hands
  import opened Betting
  import opened HandRuns
  import opened Rules
  import opened History

  // ----- size classes -----

  function Power(n: nat): nat {
    if n == 0 then 1 else 2 * Power(n - 1)
  }

  /** Class 0 is no raise, class 1 one or two chips, class b up to 2^b chips, class 8 more than 128. */
  predicate SizeClass(size: int, b: int) {
    && 0 <= b <= 8
    && (b == 0 <==> size <= 0)
    && (b == 1 <==> 1 <= size <= 2)
    && (2 <= b <= 7 ==> Power(b - 1) < size <= Power(b))
    && (b == 8 <==> 128 < size)
  }

  lemma Powers()
    ensures Power(1) == 2 && Power(2) == 4 && Power(3) == 8 && Power(4) == 16
    ensures Power(5) == 32 && Power(6) == 64 && Power(7) == 128
  {
    assert Power(0) == 1 && Power(1) == 2 && Power(2) == 4 && Power(3) == 8 && Power(4) == 16;
  }

  /** The class written for a raise is the class of its size. */
  lemma BucketIsClass(size: int, b: int)
    ensures SizeClass(size, b) <==> b == AmountBucket(size)
  {
    Powers();
  }

  /** A larger raise never gets a smaller class. */
  lemma ClassesAscend(size: int, more: int, b: int, c: int)
    requires size <= more && SizeClass(size, b) && SizeClass(more, c)
    ensures b <= c
  {
    Powers();
  }

  // ----- entries stand for moves -----

  /** How far the move lifts the bet. */
  function Lift(h: Hand, m: Move): int
    requires Shape(h) && Seat(h.current)
  {
    if Lifts(h, m) then Level(h, m) - h.toCall else 0
  }

  /** The entry is that of the move: its kind, and for a raise the class of its size. */
  predicate Tells(h: Hand, m: Move, e: Event)
    requires Shape(h) && Seat(h.current)
  {
    && (e.code == 0 <==> Folds(h, m))
    && (e.code == 1 <==> !Folds(h, m) && (m.action == 0 || m.action == 1))
    && (e.code == 4 <==> m.action == 4)
    && (e.code == 5 <==> m.action != 0 && m.action != 1 && m.action != 4)
    && if e.code == 4 || e.code == 5 then SizeClass(Lift(h, m), e.bucket) else e.bucket == -1
  }

  lemma EventTells(h: Hand, m: Move)
    requires Inv(h) && !h.terminal
    ensures Tells(h, m, MoveEvent(h, m))
  {
    BucketIsClass(RaiseSize(h, m), AmountBucket(RaiseSize(h, m)));
    assert SeatOk(h, h.current);
  }

  predicate StaysOn(h: Hand, r: Hand, street: int) {
    !h.terminal && h.street == street && r.street == street
  }

  /** Move k was made on the street the run ends on, and did not end it. */
  predicate OnStreet(h0: Hand, moves: seq<Move>, k: nat)
    requires Shape(h0) && k < |moves|
  {
    StaysOn(At(h0, moves, k), At(h0, moves, k + 1), Run(h0, moves).street)
  }

  predicate TellsFrom(h: Hand, m: Move, e: Event)
    requires Shape(h)
  {
    Seat(h.current) && Tells(h, m, e)
  }

  predicate TellsMove(h0: Hand, moves: seq<Move>, k: nat, e: Event)
    requires Shape(h0) && k < |moves|
  {
    TellsFrom(At(h0, moves, k), moves[k], e)
  }

  /** The entries tell the moves of the street, all of them, in order, from move `start` on. */
  ghost predicate TellsStreet(h0: Hand, moves: seq<Move>, events: seq<Event>, start: nat)
    requires Shape(h0)
  {
    && start + |events| <= |moves|
    && (!Run(h0, moves).terminal ==> start + |events| == |moves|)
    && (forall i :: 0 <= i < |events| ==> TellsMove(h0, moves, start + i, events[i]))
    && forall k :: 0 <= k < |moves| ==> (OnStreet(h0, moves, k) <==> start <= k < start + |events|)
  }

  lemma AtPrefix(h0: Hand, moves: seq<Move>, k: nat)
    requires Shape(h0) && moves != [] && k < |moves|
    ensures At(h0, moves[..|moves| - 1], k) == At(h0, moves, k)
  {
    assert moves[..|moves| - 1][..k] == moves[..k];
  }

  lemma StreetAscends(h: Hand, m: Move)
    requires Inv(h)
    ensures h.street <= Step(h, m).street
  {
    if !h.terminal {
      StepPlays(h, m);
      hide Step, Inv;
    }
  }

  lemma {:induction false} StreetsAscend(dealer: int, deck: seq<int>, moves: seq<Move>, k: nat)
    requires |deck| == DECK_SIZE && k <= |moves|
    ensures At(Init(dealer, deck), moves, k).street <= Run(Init(dealer, deck), moves).street
  {
    hide Init, Step, Plays, Inv;
    if k < |moves| {
      var front := moves[..|moves| - 1];
      AtPrefix(Init(dealer, deck), moves, k);
      StreetsAscend(dealer, deck, front, k);
      RunKeeps(dealer, deck, front);
      StreetAscends(Run(Init(dealer, deck), front), moves[|moves| - 1]);
    } else {
      assert moves[..k] == moves;
    }
  }

  lemma {:induction false} OnStreetNext(h0: Hand, moves: seq<Move>, k: nat)
    requires Shape(h0) && moves != [] && k < |moves| - 1
    requires Run(h0, moves).street == Run(h0, moves[..|moves| - 1]).street
    ensures OnStreet(h0, moves, k) == OnStreet(h0, moves[..|moves| - 1], k)
    ensures forall e :: TellsMove(h0, moves, k, e) == TellsMove(h0, moves[..|moves| - 1], k, e)
  {
    hide Run, StaysOn, TellsFrom, At;
    AtPrefix(h0, moves, k);
    AtPrefix(h0, moves, k + 1);
  }

  /** The entries told before a move are still told after it. */
  lemma {:induction false} StillTold(h0: Hand, moves: seq<Move>, events: seq<Event>, start: nat)
    requires Shape(h0) && moves != [] && Run(h0, moves).street == Run(h0, moves[..|moves| - 1]).street
    requires TellsStreet(h0, moves[..|moves| - 1], events, start)
    ensures forall i :: 0 <= i < |events| ==> TellsMove(h0, moves, start + i, events[i])
    ensures forall k :: 0 <= k < |moves| - 1 ==> (OnStreet(h0, moves, k) <==> start <= k < start + |events|)
  {
    hide Run, OnStreet, TellsMove;
    var front := moves[..|moves| - 1];
    forall i | 0 <= i < |events|
      ensures TellsMove(h0, moves, start + i, events[i])
    {
      assert TellsMove(h0, front, start + i, events[i]);
      OnStreetNext(h0, moves, start + i);
    }
    forall k | 0 <= k < |moves| - 1
      ensures OnStreet(h0, moves, k) <==> start <= k < start + |events|
    {
      assert OnStreet(h0, front, k) <==> start <= k < start + |events|;
      OnStreetNext(h0, moves, k);
    }
  }

  lemma {:induction false} OffStreet(h0: Hand, moves: seq<Move>)
    requires Shape(h0) && moves != [] && Run(h0, moves[..|moves| - 1]).terminal
    ensures !OnStreet(h0, moves, |moves| - 1) && Run(h0, moves) == Run(h0, moves[..|moves| - 1])
  {
  }

  lemma {:induction false} TellsAfter(h0: Hand, moves: seq<Move>, events: seq<Event>, start: nat)
    requires Shape(h0) && moves != [] && Run(h0, moves[..|moves| - 1]).terminal
    requires TellsStreet(h0, moves[..|moves| - 1], events, start)
    ensures TellsStreet(h0, moves, events, start)
  {
    hide Run, OnStreet, TellsMove;
    OffStreet(h0, moves);
    StillTold(h0, moves, events, start);
  }

  lemma {:induction false} LastOnStreet(h0: Hand, moves: seq<Move>, e: Event)
    requires Shape(h0) && moves != []
    requires var h := Run(h0, moves[..|moves| - 1]);
             !h.terminal && h.street == Run(h0, moves).street && TellsFrom(h, moves[|moves| - 1], e)
    ensures OnStreet(h0, moves, |moves| - 1) && TellsMove(h0, moves, |moves| - 1, e)
  {
    hide Run, TellsFrom;
    assert moves[..|moves|] == moves;
  }

  lemma {:induction false} TellsNext(h0: Hand, moves: seq<Move>, events: seq<Event>, e: Event, start: nat)
    requires Shape(h0) && moves != []
    requires var h := Run(h0, moves[..|moves| - 1]);
             !h.terminal && h.street == Run(h0, moves).street && TellsFrom(h, moves[|moves| - 1], e)
    requires TellsStreet(h0, moves[..|moves| - 1], events, start)
    ensures TellsStreet(h0, moves, events + [e], start)
  {
    hide Run, OnStreet, TellsMove, TellsFrom;
    LastOnStreet(h0, moves, e);
    StillTold(h0, moves, events, start);
  }

  lemma NewStreetTells(dealer: int, deck: seq<int>, moves: seq<Move>)
    requires |deck| == DECK_SIZE && moves != []
    requires Run(Init(dealer, deck), moves[..|moves| - 1]).street < Run(Init(dealer, deck), moves).street
    ensures TellsStreet(Init(dealer, deck), moves, [], |moves|)
  {
    var h0, n := Init(dealer, deck), |moves| - 1;
    forall k | 0 <= k < |moves|
      ensures !OnStreet(h0, moves, k)
    {
      AtPrefix(h0, moves, k);
      StreetsAscend(dealer, deck, moves[..n], k);
    }
  }

  /** Over every run: the entries of the street tell exactly the moves made on it, in order. */
  lemma {:induction false} EventsTell(dealer: int, deck: seq<int>, moves: seq<Move>) returns (start: nat)
    requires |deck| == DECK_SIZE
    ensures TellsStreet(Init(dealer, deck), moves, TraceOf(Init(dealer, deck), moves).events, start)
  {
    hide TellsStreet, Init, Inv, Step;
    var h0 := Init(dealer, deck);
    if moves == [] {
      start := 0;
      NothingTold(h0);
    } else {
      var n := |moves| - 1;
      var t, m := TraceOf(h0, moves[..n]), moves[n];
      start := EventsTell(dealer, deck, moves[..n]);
      RunKeeps(dealer, deck, moves[..n]);
      if t.hand.terminal {
        TellsAfter(h0, moves, t.events, start);
      } else {
        StreetsAscend(dealer, deck, moves, n);
        OnTurn(t.hand);
        if t.hand.street < Step(t.hand, m).street {
          NewStreetTells(dealer, deck, moves);
          start := |moves|;
        } else {
          EventTells(t.hand, m);
          TellsNext(h0, moves, t.events, MoveEvent(t.hand, m), start);
        }
      }
    }
  }

  lemma OnTurn(h: Hand)
    requires Inv(h)
    ensures !h.terminal ==> Seat(h.current)
  {
  }

  lemma NothingTold(h0: Hand)
    requires Shape(h0)
    ensures TellsStreet(h0, [], [], 0)
  {
  }

  // ----- separators name their streets -----

  /** The i-th separator is the code of street i. */
  ghost predicate Numbered(codes: seq<int>) {
    forall i :: 0 <= i < |codes| && IsSeparator(codes[i]) ==> NamesStreet(codes, i)
  }

  predicate NamesStreet(codes: seq<int>, i: nat)
    requires i < |codes|
  {
    codes[i] == 240 + SeparatorCount(codes[..i]) + 1
  }

  lemma NumberedAppend(codes: seq<int>, code: int)
    requires Numbered(codes) && (IsSeparator(code) ==> code == 240 + SeparatorCount(codes) + 1)
    ensures Numbered(codes + [code])
  {
    var all := codes + [code];
    forall i | 0 <= i < |all| && IsSeparator(all[i])
      ensures NamesStreet(all, i)
    {
      assert all[..i] == codes[..i];
      assert i < |codes| ==> NamesStreet(codes, i);
    }
  }

  lemma {:induction false} NumberedPlain(codes: seq<int>, more: seq<int>)
    requires Numbered(codes) && forall i :: 0 <= i < |more| ==> !IsSeparator(more[i])
    ensures Numbered(codes + more)
  {
    if more == [] {
      assert codes + more == codes;
    } else {
      var n := |more| - 1;
      NumberedPlain(codes, more[..n]);
      NumberedAppend(codes + more[..n], more[n]);
      assert codes + more == codes + more[..n] + [more[n]];
    }
  }

  lemma {:induction false} NumberedMarks(codes: seq<int>, lo: int, hi: int)
    requires Numbered(codes) && SeparatorCount(codes) == lo && 0 <= lo <= hi <= 3
    ensures Numbered(codes + StreetMarks(lo, hi))
    decreases hi - lo
  {
    hide Numbered, SeparatorCount;
    if lo == hi {
      assert codes + StreetMarks(lo, hi) == codes;
    } else {
      NumberedMarks(codes, lo, hi - 1);
      StreetMarksCount(lo, hi - 1);
      SeparatorsAppend(codes, StreetMarks(lo, hi - 1));
      NumberedAppend(codes + StreetMarks(lo, hi - 1), STREET_MARK + hi);
      assert codes + StreetMarks(lo, hi) == codes + StreetMarks(lo, hi - 1) + [STREET_MARK + hi];
    }
  }

  lemma ExtendNumbers(t: Trace, m: Move)
    requires Inv(t.hand) && Framed(t) && Numbered(t.codes)
    ensures Numbered(Extend(t, m).codes)
  {
    hide Step, Bets, Encode;
    if !t.hand.terminal {
      var e, r := MoveEvent(t.hand, m), Step(t.hand, m);
      StepHistory(t.hand, m, t.codes);
      SeparatorsAppend(t.earlier, EncodeAll(t.events));
      EncodeHasNoSeparators(t.events);
      NoSeparators(EncodeAll(t.events));
      PlainEvent(e);
      NoSeparators(Encode(e));
      SeparatorsAppend(t.codes, Encode(e));
      NumberedPlain(t.codes, Encode(e));
      NumberedMarks(t.codes + Encode(e), t.hand.street, r.street);
    }
  }

  lemma PlainEvent(e: Event)
    requires WellCoded(e)
    ensures forall i :: 0 <= i < |Encode(e)| ==> !IsSeparator(Encode(e)[i])
  {
  }

  /** Over every run the separators written are those of the streets opened, in order. */
  lemma {:induction false} RunsNumberStreets(dealer: int, deck: seq<int>, moves: seq<Move>)
    requires |deck| == DECK_SIZE
    ensures var t := TraceOf(Init(dealer, deck), moves);
            Numbered(t.codes) && SeparatorCount(t.codes) == t.hand.street
  {
    hide Init, Framed;
    RunsAreFramed(dealer, deck, moves);
    FramedCounts(TraceOf(Init(dealer, deck), moves));
    if moves == [] {
      InitOnFirstStreet(dealer, deck);
    } else {
      var front := moves[..|moves| - 1];
      RunsNumberStreets(dealer, deck, front);
      RunsAreFramed(dealer, deck, front);
      RunKeeps(dealer, deck, front);
      ExtendNumbers(TraceOf(Init(dealer, deck), front), moves[|moves| - 1]);
    }
  }

  lemma FramedCounts(t: Trace)
    requires Shape(t.hand) && Framed(t)
    ensures SeparatorCount(t.codes) == t.hand.street
  {
    SeparatorsAppend(t.earlier, EncodeAll(t.events));
    EncodeHasNoSeparators(t.events);
    NoSeparators(EncodeAll(t.events));
  }

  /** The buffer of a run that fits tells the street's moves: those read back, sizes of all-ins aside. */
  lemma BufferTells(dealer: int, deck: seq<int>, moves: seq<Move>) returns (start: nat, events: seq<Event>)
    requires |deck| == DECK_SIZE && |TraceOf(Init(dealer, deck), moves).codes| <= 128
    ensures TellsStreet(Init(dealer, deck), moves, events, start)
    ensures var h := Run(Init(dealer, deck), moves);
            && (exists begin, end :: Segment(h.history, h.street, begin, end))
            && forall begin, end :: Segment(h.history, h.street, begin, end) ==>
                 Decode(h.history[begin..end]) == RecoverAll(events)
  {
    hide TellsStreet, Segment, Init, Framed, Decode, TraceOf, Run;
    HistoryRoundTrip(dealer, deck, moves);
    start := EventsTell(dealer, deck, moves);
    events := TraceOf(Init(dealer, deck), moves).events;
    var t := TraceOf(Init(dealer, deck), moves);
    assert t.hand == Run(Init(dealer, deck), moves);
    assert Segment(t.hand.history, t.hand.street, |t.earlier|, |t.codes|);
  }
}
