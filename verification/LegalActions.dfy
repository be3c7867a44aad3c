/** The menu of actions offered to a player, and what the offered raises mean. */
module LegalActions {
  import opened Chips
  import opened Hands
  import opened Ascending
  import opened Sequences
  import opened HandRuns
  import opened Rules

  const MAX_ACTIONS := 16

  datatype Choice = Choice(action: int, target: int)

  const PREFLOP_FRACS: seq<real> := [0.25, 0.33, 0.50, 0.67, 0.75, 1.00, 1.25, 1.50, 2.00, 2.50, 3.00, 4.00, 6.00, 8.00]
  const FLOP_FRACS: seq<real> := [0.25, 0.33, 0.50, 0.67, 0.75, 1.00, 1.25, 1.50, 2.00, 3.00]
  const FIRST_BET_FRACS: seq<real> := [0.50, 1.00]
  const RAISE_FRACS: seq<real> := [1.00]

  function StreetFracs(street: int, numRaises: int): (f: seq<real>)
    ensures 1 <= |f| <= 14
    ensures forall i :: 0 <= i < |f| ==> 0.0 <= f[i]
  {
    if street <= 0 then PREFLOP_FRACS
    else if street == 1 then FLOP_FRACS
    else if numRaises <= 0 then FIRST_BET_FRACS
    else RAISE_FRACS
  }

  /** Small pots and short stacks get fewer sizes. */
  function FracCount(pot: int, stack: int, toCall: int, lastFullRaise: int, n: int): (k: int)
    requires 1 <= n <= 14
    ensures 1 <= k <= n
  {
    var n1 := if pot <= 16 && n > 6 then 6 else n;
    var n2 := if pot <= 8 && n1 > 4 then 4 else n1;
    var n3 := if pot <= 4 && n2 > 2 then 2 else n2;
    if stack <= toCall + lastFullRaise then Min(n3, 1)
    else if stack <= toCall + 2 * lastFullRaise then Min(n3, 2)
    else n3
  }

  function RaiseFracs(h: Hand, p: int): (f: seq<real>)
    requires Shape(h) && Seat(p)
    ensures 1 <= |f| <= 14
    ensures forall i :: 0 <= i < |f| ==> 0.0 <= f[i]
  {
    var f := StreetFracs(h.street, h.numRaises);
    f[..FracCount(h.pot, h.stack[p], h.toCall, h.lastFullRaise, |f|)]
  }

  function MaxTarget(h: Hand, p: int): int
    requires Shape(h) && Seat(p)
  {
    h.committed[p] + h.stack[p]
  }

  /** The smallest full raise. */
  function FullRaiseTarget(h: Hand, p: int): int
    requires Shape(h) && Seat(p)
  {
    Max(h.toCall, h.committed[p]) + Max(h.lastFullRaise, BIG_BLIND)
  }

  /** The smallest raise on offer: a full raise, or everything. */
  function MinTarget(h: Hand, p: int): int
    requires Shape(h) && Seat(p)
  {
    var t := Min(FullRaiseTarget(h, p), MaxTarget(h, p));
    if t <= h.toCall then h.toCall + 1 else t
  }

  /** C's conversion of a double to int drops the fraction. */
  function Truncate(x: real): int {
    if x < 0.0 then -((-x).Floor) else x.Floor
  }

  /** A pot fraction rounded to chips, at least the big blind. */
  function FracSize(pot: int, frac: real): int {
    Max(Truncate(pot as real * frac + 0.5), BIG_BLIND)
  }

  /** The raise a fraction asks for, at most everything. */
  function FracTarget(h: Hand, p: int, frac: real): int
    requires Shape(h) && Seat(p)
  {
    Min(Max(h.toCall, h.committed[p]) + FracSize(h.pot, frac), MaxTarget(h, p))
  }

  function AddUnique(targets: seq<int>, t: int): (r: seq<int>)
    ensures Distinct(targets) ==> Distinct(r)
    ensures forall x :: x in r <==> x == t || x in targets
    ensures |targets| <= |r| <= |targets| + 1
  {
    if t in targets then targets else targets + [t]
  }

  predicate Offered(h: Hand, p: int, t: int)
    requires Shape(h) && Seat(p)
  {
    (t >= MinTarget(h, p) || t == MaxTarget(h, p)) && t > h.toCall
  }

  function FracCandidates(h: Hand, p: int, k: nat): (c: seq<int>)
    requires Shape(h) && Seat(p) && k <= |RaiseFracs(h, p)|
    ensures Distinct(c) && 1 <= |c| <= k + 1
  {
    if k == 0 then [MinTarget(h, p)]
    else
      var c := FracCandidates(h, p, k - 1);
      var t := FracTarget(h, p, RaiseFracs(h, p)[k - 1]);
      if Offered(h, p, t) then AddUnique(c, t) else c
  }

  /** The candidate raise targets before sorting. */
  function Candidates(h: Hand, p: int): (c: seq<int>)
    requires Shape(h) && Seat(p)
    ensures Distinct(c) && 1 <= |c| <= MAX_ACTIONS
  {
    AddUnique(FracCandidates(h, p, |RaiseFracs(h, p)|), MaxTarget(h, p))
  }

  predicate RaisesOpen(h: Hand, p: int)
    requires Shape(h) && Seat(p)
  {
    CanRaise(h, p) && MaxTarget(h, p) > h.toCall
  }

  function RaiseTargets(h: Hand, p: int): (t: seq<int>)
    requires Shape(h) && Seat(p)
    ensures Increasing(t)
  {
    if RaisesOpen(h, p) then Sorted(Candidates(h, p)) else []
  }

  function FirstChoices(h: Hand, p: int): (c: seq<Choice>)
    requires Shape(h) && Seat(p)
    ensures 1 <= |c| <= 2
  {
    (if CallAmount(h, p) > 0 then [Choice(ACT_FOLD, 0)] else []) + [Choice(ACT_CALL_CHECK, h.toCall)]
  }

  function RaiseChoice(h: Hand, p: int, t: int): Choice
    requires Shape(h) && Seat(p)
  {
    Choice(if t == MaxTarget(h, p) then ACT_ALL_IN else ACT_RAISE_TO, t)
  }

  /** Appends raises in order while the menu has room, passing over any that do not raise. */
  function AddRaises(h: Hand, p: int, menu: seq<Choice>, targets: seq<int>): (r: seq<Choice>)
    requires Shape(h) && Seat(p)
    decreases |targets|
  {
    if targets == [] || |menu| >= MAX_ACTIONS then menu
    else if targets[0] <= h.toCall then AddRaises(h, p, menu, targets[1..])
    else AddRaises(h, p, menu + [RaiseChoice(h, p, targets[0])], targets[1..])
  }

  function Menu(h: Hand, p: int): seq<Choice>
    requires Shape(h) && Seat(p)
  {
    AddRaises(h, p, FirstChoices(h, p), RaiseTargets(h, p))
  }

  /** The first entries of the two output arrays hold the menu. */
  ghost predicate Holds(actions: array<int>, targets: array<int>, menu: seq<Choice>)
    reads actions, targets
  {
    && |menu| <= actions.Length == targets.Length
    && forall i :: 0 <= i < |menu| ==> actions[i] == menu[i].action && targets[i] == menu[i].target
  }

  // ----- what the menu means -----

  function RaisesOf(h: Hand, p: int, targets: seq<int>): (r: seq<Choice>)
    requires Shape(h) && Seat(p)
    ensures |r| == |targets|
    ensures forall i :: 0 <= i < |r| ==> r[i] == RaiseChoice(h, p, targets[i])
  {
    seq(|targets|, i requires 0 <= i < |targets| => RaiseChoice(h, p, targets[i]))
  }

  lemma {:induction false} AddRaisesAll(h: Hand, p: int, menu: seq<Choice>, targets: seq<int>)
    requires Shape(h) && Seat(p) && |menu| <= MAX_ACTIONS
    requires forall i :: 0 <= i < |targets| ==> targets[i] > h.toCall
    ensures AddRaises(h, p, menu, targets) ==
            menu + RaisesOf(h, p, targets[..Min(|targets|, MAX_ACTIONS - |menu|)])
    decreases |targets|
  {
    if targets != [] && |menu| < MAX_ACTIONS {
      AddRaisesAll(h, p, menu + [RaiseChoice(h, p, targets[0])], targets[1..]);
      var k := Min(|targets|, MAX_ACTIONS - |menu|);
      assert targets[..k] == [targets[0]] + targets[1..][..k - 1];
    }
  }

  ghost predicate InRange(h: Hand, p: int, t: int)
    requires Shape(h) && Seat(p)
  {
    h.toCall < t <= MaxTarget(h, p) && (t == MaxTarget(h, p) || t >= FullRaiseTarget(h, p))
  }

  lemma {:induction false} FracCandidatesInRange(h: Hand, p: int, k: nat)
    requires Shape(h) && Seat(p) && k <= |RaiseFracs(h, p)|
    requires MaxTarget(h, p) > h.toCall >= h.committed[p]
    ensures forall i :: 0 <= i < |FracCandidates(h, p, k)| ==> InRange(h, p, FracCandidates(h, p, k)[i])
  {
    if k > 0 {
      FracCandidatesInRange(h, p, k - 1);
    }
  }

  lemma TargetsInRange(h: Hand, p: int)
    requires Shape(h) && Seat(p) && h.committed[p] <= h.toCall
    ensures forall i :: 0 <= i < |RaiseTargets(h, p)| ==> InRange(h, p, RaiseTargets(h, p)[i])
    ensures RaisesOpen(h, p) ==> MaxTarget(h, p) in RaiseTargets(h, p)
  {
    if RaisesOpen(h, p) {
      FracCandidatesInRange(h, p, |RaiseFracs(h, p)|);
      var t := RaiseTargets(h, p);
      forall i | 0 <= i < |t|
        ensures InRange(h, p, t[i])
      {
        assert t[i] in Candidates(h, p);
      }
    }
  }

  /**
   The whole menu: fold when there is something to call, call or check always,
   then the raises in order, cut off at sixteen entries.
   */
  lemma MenuIs(h: Hand, p: int)
    requires Shape(h) && Seat(p) && h.committed[p] <= h.toCall
    ensures var first := FirstChoices(h, p); var t := RaiseTargets(h, p);
            Menu(h, p) == first + RaisesOf(h, p, t[..Min(|t|, MAX_ACTIONS - |first|)])
  {
    TargetsInRange(h, p);
    AddRaisesAll(h, p, FirstChoices(h, p), RaiseTargets(h, p));
  }

  predicate IsRaiseChoice(c: Choice) {
    c.action == ACT_RAISE_TO || c.action == ACT_ALL_IN
  }

  /** Sorted lists keep their greatest member last. */
  lemma GreatestLast(t: seq<int>, m: int)
    requires Increasing(t) && m in t && forall x :: x in t ==> x <= m
    ensures t[|t| - 1] == m
  {
    LastIsGreatest(t);
    assert t[|t| - 1] in t;
  }

  /**
   Offered raises ascend, lie above the bet and within the stack, and each is a
   full raise or the all-in. Raises are offered exactly when the guard allows
   one, and the all-in is the last entry exactly when the menu was not cut.
   */
  lemma MenuRaises(h: Hand, p: int)
    requires Shape(h) && Seat(p) && h.committed[p] <= h.toCall
    ensures var m := Menu(h, p); var f := |FirstChoices(h, p)|;
            && f <= |m| <= MAX_ACTIONS
            && (forall i :: f <= i < |m| ==>
                  && IsRaiseChoice(m[i]) && InRange(h, p, m[i].target)
                  && (m[i].action == ACT_ALL_IN <==> m[i].target == MaxTarget(h, p)))
            && (forall i, j :: f <= i < j < |m| ==> m[i].target < m[j].target)
            && (|m| > f <==> CanRaise(h, p))
            && (CanRaise(h, p) ==>
                  (m[|m| - 1].action == ACT_ALL_IN <==> f + |RaiseTargets(h, p)| <= MAX_ACTIONS))
  {
    MenuIs(h, p);
    TargetsInRange(h, p);
    var t, f := RaiseTargets(h, p), |FirstChoices(h, p)|;
    if CanRaise(h, p) {
      assert RaisesOpen(h, p);
      forall x | x in t
        ensures x <= MaxTarget(h, p)
      {
        var i :| 0 <= i < |t| && t[i] == x;
        assert InRange(h, p, t[i]);
      }
      GreatestLast(t, MaxTarget(h, p));
    }
  }

  /** A small blind facing a raise to 4 with 19 in the pot: seat p has not acted. */
  predicate CrowdedPot(h: Hand, p: int)
    requires Shape(h) && Seat(p)
  {
    && h.street == 0 && h.pot == 19 && h.toCall == 4 && h.lastFullRaise == 2
    && h.committed[p] == 1 && h.stack[p] == 199 && !h.acted[p]
  }

  /** The raise the k-th fraction asks for. */
  function Asked(h: Hand, p: int, k: nat): int
    requires Shape(h) && Seat(p) && k < |RaiseFracs(h, p)|
  {
    FracTarget(h, p, RaiseFracs(h, p)[k])
  }

  /** Fractions that ask for ever larger raises all become candidates. */
  lemma {:induction false} CandidatesGrow(h: Hand, p: int, k: nat)
    requires Shape(h) && Seat(p) && k <= |RaiseFracs(h, p)| && MinTarget(h, p) > h.toCall
    requires forall i :: 0 <= i < k ==> (if i == 0 then MinTarget(h, p) else Asked(h, p, i - 1)) < Asked(h, p, i)
    ensures |FracCandidates(h, p, k)| == k + 1
    ensures forall x :: x in FracCandidates(h, p, k) ==> x <= if k == 0 then MinTarget(h, p) else Asked(h, p, k - 1)
    ensures k > 0 ==> MinTarget(h, p) < Asked(h, p, k - 1)
  {
    if k > 0 {
      CandidatesGrow(h, p, k - 1);
      assert Asked(h, p, k - 1) !in FracCandidates(h, p, k - 1);
    }
  }

  lemma CrowdedSizes(h: Hand, p: int)
    requires Shape(h) && Seat(p) && CrowdedPot(h, p)
    ensures |RaiseFracs(h, p)| == 14 && MinTarget(h, p) == 6
    ensures seq(14, i requires 0 <= i < 14 => Asked(h, p, i)) ==
            [9, 10, 14, 17, 18, 23, 28, 33, 42, 52, 61, 80, 118, 156]
  {
    var f := RaiseFracs(h, p);
    assert f == PREFLOP_FRACS;
    assert FracTarget(h, p, f[0]) == 9 && FracTarget(h, p, f[1]) == 10 && FracTarget(h, p, f[2]) == 14;
    assert FracTarget(h, p, f[3]) == 17 && FracTarget(h, p, f[4]) == 18 && FracTarget(h, p, f[5]) == 23;
    assert FracTarget(h, p, f[6]) == 28 && FracTarget(h, p, f[7]) == 33 && FracTarget(h, p, f[8]) == 42;
    assert FracTarget(h, p, f[9]) == 52 && FracTarget(h, p, f[10]) == 61 && FracTarget(h, p, f[11]) == 80;
    assert FracTarget(h, p, f[12]) == 118 && FracTarget(h, p, f[13]) == 156;
  }

  lemma CrowdedCandidates(h: Hand, p: int)
    requires Shape(h) && Seat(p) && CrowdedPot(h, p)
    ensures |RaiseTargets(h, p)| == MAX_ACTIONS
  {
    CrowdedSizes(h, p);
    var asked := seq(14, i requires 0 <= i < 14 => Asked(h, p, i));
    assert forall i :: 0 <= i < 14 ==> Asked(h, p, i) == asked[i];
    CandidatesGrow(h, p, 14);
    SortedLength(Candidates(h, p));
  }

  lemma {:induction false} SortedLength(s: seq<int>)
    requires Distinct(s)
    ensures |Sorted(s)| == |s|
  {
    if s != [] {
      var n := |s| - 1;
      SortedLength(s[..n]);
      assert s[n] !in s[..n];
      InsertLength(Sorted(s[..n]), s[n]);
    }
  }

  lemma {:induction false} InsertLength(levels: seq<int>, x: int)
    requires x !in levels
    ensures |Insert(levels, x)| == |levels| + 1
  {
    if levels != [] && x < levels[|levels| - 1] {
      InsertLength(levels[..|levels| - 1], x);
    }
  }

  /** The cut is real: here eighteen entries compete for sixteen places and the all-in is not offered. */
  lemma AllInCanBeCut(h: Hand, p: int)
    requires Shape(h) && Seat(p) && CrowdedPot(h, p)
    ensures forall i :: 0 <= i < |Menu(h, p)| ==> Menu(h, p)[i].action != ACT_ALL_IN
  {
    CrowdedCandidates(h, p);
    MenuRaises(h, p);
    MenuIs(h, p);
    hide RaiseTargets, Menu, RaisesOf, InRange;
    var m, f := Menu(h, p), |FirstChoices(h, p)|;
    assert f == 2 && |m| == MAX_ACTIONS;
    hide FirstChoices;
    forall i | 0 <= i < |m|
      ensures m[i].action != ACT_ALL_IN
    {
      if f <= i {
        assert m[i].action == ACT_ALL_IN <==> m[i].target == MaxTarget(h, p);
        LastInRange(h, p, m[|m| - 1].target);
      }
    }
  }

  lemma LastInRange(h: Hand, p: int, t: int)
    requires Shape(h) && Seat(p) && InRange(h, p, t)
    ensures t <= MaxTarget(h, p)
  {
  }

  // ----- a hand that gets there -----

  /** A pot before the flop, everybody still in and seat 1 not having acted. */
  ghost predicate Preflop(h: Hand, current: int, toCall: int, committed: seq<int>, needs: seq<bool>) {
    && Shape(h) && !h.terminal && h.street == 0 && h.current == current && h.toCall == toCall
    && |committed| == |needs| == PLAYERS && h.committed == committed && h.needs == needs
    && h.lastFullRaise == 2 && h.pot == Sum(committed) && !h.acted[1]
    && forall p :: Seat(p) ==> h.inHand[p] && h.stack[p] == START_STACK - committed[p]
  }

  /** With two seats in and the turn on one that must act, the street goes on. */
  lemma StaysOn(h: Hand)
    requires Shape(h) && !h.terminal && h.inHand[0] && h.inHand[1]
    requires Seat(h.current) && Actable(h, h.current)
    ensures CountInHand(h) > 1 && AutoAdvance(h) == h
  {
    if CountInHand(h) <= 1 {
      CountOne(h.inHand, 0, 1);
    }
    NeedingBound(h);
  }

  lemma PassesLeft(h: Hand, p: int)
    requires Shape(h) && Seat(p) && Actable(h, SeatAfter(p, 1))
    ensures FindNextActor(h, p) == SeatAfter(p, 1)
  {
  }

  /** A call passes the turn to the left. */
  lemma CallMoves(h: Hand, p: int, toCall: int, committed: seq<int>, needs: seq<bool>)
    requires Preflop(h, p, toCall, committed, needs) && Seat(p) && p != 1 && needs[SeatAfter(p, 1)]
    requires committed[p] < toCall < START_STACK && committed[SeatAfter(p, 1)] < START_STACK
    ensures Preflop(Step(h, Move(ACT_CALL_CHECK, 0)), SeatAfter(p, 1), toCall,
                    committed[p := toCall], needs[p := false])
  {
    var a := Act(h, p, ACT_CALL_CHECK, 0);
    SumUpdate(committed, p, toCall);
    PassesLeft(a, p);
    StaysOn(a.(current := SeatAfter(p, 1)));
  }

  lemma DealtPreflop(deck: seq<int>)
    requires |deck| == DECK_SIZE
    ensures Preflop(Init(0, deck), 3, 2, [0, 1, 2, 0, 0, 0], [true, true, true, true, true, true])
  {
    hide Init, Dealt, Preflop;
    DealIs(0, deck);
    DealIsPreflop(Init(0, deck), deck);
  }

  lemma DealIsPreflop(h: Hand, deck: seq<int>)
    requires Shape(h) && |deck| == DECK_SIZE && Dealt(h, 0, deck)
    ensures Preflop(h, 3, 2, [0, 1, 2, 0, 0, 0], [true, true, true, true, true, true])
  {
    hide Sum, HasCards;
    assert h.committed == [0, 1, 2, 0, 0, 0];
    assert h.needs == [true, true, true, true, true, true];
    SumOfSix(0, 1, 2, 0, 0, 0);
  }

  lemma SumOfSix(a: int, b: int, c: int, d: int, e: int, f: int)
    ensures Sum([a, b, c, d, e, f]) == a + b + c + d + e + f
  {
    var s := [a, b, c, d, e, f];
    assert s[..5][..4] == s[..4] && s[..4][..3] == s[..3] && s[..3][..2] == s[..2];
    assert s[..2][..1] == s[..1] && s[..1][..0] == [];
    assert Sum(s[..1]) == a && Sum(s[..2]) == a + b && Sum(s[..3]) == a + b + c;
    assert Sum(s[..4]) == a + b + c + d && Sum(s[..5]) == a + b + c + d + e;
  }

  lemma RaisedPreflop(h: Hand)
    requires Preflop(h, 3, 2, [0, 1, 2, 0, 0, 0], [true, true, true, true, true, true])
    ensures Preflop(Step(h, Move(ACT_RAISE_TO, 4)), 4, 4, [0, 1, 2, 4, 0, 0], [true, true, true, false, true, true])
  {
    var a := Act(h, 3, ACT_RAISE_TO, 4);
    SumOfSix(0, 1, 2, 0, 0, 0);
    SumOfSix(0, 1, 2, 4, 0, 0);
    assert a.committed == [0, 1, 2, 4, 0, 0];
    assert a.needs == [true, true, true, false, true, true];
    PassesLeft(a, 3);
    StaysOn(a.(current := 4));
  }

  /** Seat 3 raises to 4 and seats 4, 5 and 0 call: it is on the small blind. */
  function CrowdingMoves(): seq<Move> {
    [Move(ACT_RAISE_TO, 4), Move(ACT_CALL_CHECK, 0), Move(ACT_CALL_CHECK, 0), Move(ACT_CALL_CHECK, 0)]
  }

  lemma CrowdingRun(h0: Hand)
    requires Shape(h0)
    ensures var m := CrowdingMoves();
            Run(h0, m) == Step(Step(Step(Step(h0, m[0]), m[1]), m[2]), m[3])
  {
    var m := CrowdingMoves();
    assert m[..3][..2] == m[..2] && m[..2][..1] == m[..1] && m[..1][..0] == [];
    assert Run(h0, []) == h0;
    assert Run(h0, m[..1]) == Step(h0, m[0]);
    assert Run(h0, m[..2]) == Step(Run(h0, m[..1]), m[1]);
    assert Run(h0, m[..3]) == Step(Run(h0, m[..2]), m[2]);
  }

  lemma CrowdedByCalls(h: Hand)
    requires Preflop(h, 4, 4, [0, 1, 2, 4, 0, 0], [true, true, true, false, true, true])
    ensures var m := CrowdingMoves();
            Preflop(Step(Step(Step(h, m[1]), m[2]), m[3]), 1, 4,
                    [4, 1, 2, 4, 4, 4], [false, true, true, false, false, false])
  {
    hide Step;
    CallMoves4(h);
    CallMoves5(Step(h, Move(ACT_CALL_CHECK, 0)));
    CallMoves0(Step(Step(h, Move(ACT_CALL_CHECK, 0)), Move(ACT_CALL_CHECK, 0)));
  }

  lemma CallMoves4(h: Hand)
    requires Preflop(h, 4, 4, [0, 1, 2, 4, 0, 0], [true, true, true, false, true, true])
    ensures Preflop(Step(h, Move(ACT_CALL_CHECK, 0)), 5, 4, [0, 1, 2, 4, 4, 0], [true, true, true, false, false, true])
  {
    CallMoves(h, 4, 4, [0, 1, 2, 4, 0, 0], [true, true, true, false, true, true]);
    assert [0, 1, 2, 4, 0, 0][4 := 4] == [0, 1, 2, 4, 4, 0];
    assert [true, true, true, false, true, true][4 := false] == [true, true, true, false, false, true];
  }

  lemma CallMoves5(h: Hand)
    requires Preflop(h, 5, 4, [0, 1, 2, 4, 4, 0], [true, true, true, false, false, true])
    ensures Preflop(Step(h, Move(ACT_CALL_CHECK, 0)), 0, 4, [0, 1, 2, 4, 4, 4], [true, true, true, false, false, false])
  {
    CallMoves(h, 5, 4, [0, 1, 2, 4, 4, 0], [true, true, true, false, false, true]);
    assert [0, 1, 2, 4, 4, 0][5 := 4] == [0, 1, 2, 4, 4, 4];
    assert [true, true, true, false, false, true][5 := false] == [true, true, true, false, false, false];
  }

  lemma CallMoves0(h: Hand)
    requires Preflop(h, 0, 4, [0, 1, 2, 4, 4, 4], [true, true, true, false, false, false])
    ensures Preflop(Step(h, Move(ACT_CALL_CHECK, 0)), 1, 4, [4, 1, 2, 4, 4, 4],
                    [false, true, true, false, false, false])
  {
    CallMoves(h, 0, 4, [0, 1, 2, 4, 4, 4], [true, true, true, false, false, false]);
    assert [0, 1, 2, 4, 4, 4][0 := 4] == [4, 1, 2, 4, 4, 4];
    assert [true, true, true, false, false, false][0 := false] == [false, true, true, false, false, false];
  }

  lemma PreflopIsCrowded(h: Hand)
    requires Preflop(h, 1, 4, [4, 1, 2, 4, 4, 4], [false, true, true, false, false, false])
    ensures CrowdedPot(h, 1) && CanRaise(h, 1)
  {
    SumOfSix(4, 1, 2, 4, 4, 4);
  }

  /** It happens: from any deck, four moves in, the small blind is not offered its all-in. */
  lemma AllInIsCut(deck: seq<int>)
    requires |deck| == DECK_SIZE
    ensures var h := Run(Init(0, deck), CrowdingMoves());
            && h.current == 1 && CanRaise(h, 1)
            && forall i :: 0 <= i < |Menu(h, 1)| ==> Menu(h, 1)[i].action != ACT_ALL_IN
  {
    hide Init, Step, Run, Menu, CrowdedPot;
    DealtPreflop(deck);
    RaisedPreflop(Init(0, deck));
    CrowdedByCalls(Step(Init(0, deck), Move(ACT_RAISE_TO, 4)));
    CrowdingRun(Init(0, deck));
    PreflopIsCrowded(Run(Init(0, deck), CrowdingMoves()));
    AllInCanBeCut(Run(Init(0, deck), CrowdingMoves()), 1);
  }
}
