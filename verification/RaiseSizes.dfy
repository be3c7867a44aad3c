/**
 Which raises are on the menu, told in chips: the smallest full raise, the all-in,
 and the sizes usual on the street, fewer of them in a small pot or with a short stack.
 */
module RaiseSizes {
  import opened Chips
  import opened Hands
  import opened Betting
  import opened Ascending
  import opened HandRuns
  import opened LegalActions

  // ----- the reference -----

  /** The usual sizes, in hundredths of the pot. */
  function Usual(street: int, raised: bool): (s: seq<int>)
    ensures 1 <= |s| <= 14
  {
    if street == 0 then [25, 33, 50, 67, 75, 100, 125, 150, 200, 250, 300, 400, 600, 800]
    else if street == 1 then [25, 33, 50, 67, 75, 100, 125, 150, 200, 300]
    else if raised then [100]
    else [50, 100]
  }

  /** How many of them, the smallest first, are on offer. */
  function HowMany(h: Hand, p: int): int
    requires Shape(h) && Seat(p)
  {
    if h.stack[p] <= h.toCall + h.lastFullRaise then 1
    else if h.stack[p] <= h.toCall + 2 * h.lastFullRaise then 2
    else if h.pot <= 4 then 2
    else if h.pot <= 8 then 4
    else if h.pot <= 16 then 6
    else 14
  }

  function Everything(h: Hand, p: int): int
    requires Shape(h) && Seat(p)
  {
    h.committed[p] + h.stack[p]
  }

  /** Lifting the bet by so many chips, or as many as there are. */
  function LiftBy(h: Hand, p: int, chips: int): int
    requires Shape(h) && Seat(p)
  {
    if h.toCall + chips < Everything(h, p) then h.toCall + chips else Everything(h, p)
  }

  /** The smallest full raise. */
  function Least(h: Hand, p: int): int
    requires Shape(h) && Seat(p)
  {
    LiftBy(h, p, h.lastFullRaise)
  }

  /** Hundredths of the pot in whole chips, halves up, and never less than the big blind. */
  function Part(pot: int, hundredths: int): int {
    var chips := (pot * hundredths + 50) / 100;
    if chips < 2 then 2 else chips
  }

  /** The i-th usual size is on offer and asks for this target. */
  predicate UsualAsks(h: Hand, p: int, i: int, t: int)
    requires Shape(h) && Seat(p)
  {
    var usual := Usual(h.street, 0 < h.numRaises);
    0 <= i < |usual| && i < HowMany(h, p) && t == LiftBy(h, p, Part(h.pot, usual[i]))
  }

  ghost predicate Wanted(h: Hand, p: int, t: int)
    requires Shape(h) && Seat(p)
  {
    t == Least(h, p) || t == Everything(h, p) || (Least(h, p) <= t && exists i :: UsualAsks(h, p, i, t))
  }

  /** What every state of play gives a seat that may raise. */
  ghost predicate MayRaise(h: Hand, p: int) {
    && Shape(h) && Seat(p) && 0 <= h.pot && h.committed[p] <= h.toCall && BIG_BLIND <= h.lastFullRaise
    && h.stack[p] > h.toCall - h.committed[p]
    && (!h.acted[p] || h.actedSeq[p] < h.fullRaiseSeq)
  }

  /** At every point of every hand these are the states in which a raise is offered at all. */
  lemma RunsMayRaise(dealer: int, deck: seq<int>, moves: seq<Move>, p: int)
    requires |deck| == DECK_SIZE && Seat(p)
    ensures var h := Run(Init(dealer, deck), moves); MayRaise(h, p) <==> CanRaise(h, p)
  {
    hide Init, Run;
    RunKeeps(dealer, deck, moves);
    var h := Run(Init(dealer, deck), moves);
    assert SeatOk(h, p);
    forall q | 0 <= q < |h.contributed|
      ensures 0 <= h.contributed[q]
    {
      assert SeatOk(h, q);
    }
    SumNonNegative(h.contributed);
  }

  // ----- sizes -----

  lemma SameSizes(street: int, numRaises: int)
    requires 0 <= street <= 3
    ensures var f := StreetFracs(street, numRaises); var u := Usual(street, 0 < numRaises);
            |f| == |u| && forall i :: 0 <= i < |u| ==> f[i] == u[i] as real / 100.0 && 0 <= u[i]
  {
  }

  lemma SameCount(h: Hand, p: int)
    requires MayRaise(h, p)
    ensures |RaiseFracs(h, p)| == Min(|Usual(h.street, 0 < h.numRaises)|, HowMany(h, p))
  {
    SameSizes(h.street, h.numRaises);
  }

  lemma FloorOfHundredths(n: int)
    requires 0 <= n
    ensures (n as real / 100.0).Floor == n / 100
  {
    var q := n / 100;
    assert 100 * q <= n < 100 * q + 100;
  }

  lemma SamePart(pot: int, hundredths: int)
    requires 0 <= pot && 0 <= hundredths
    ensures FracSize(pot, hundredths as real / 100.0) == Part(pot, hundredths)
  {
    var n := pot * hundredths + 50;
    assert pot as real * (hundredths as real / 100.0) + 0.5 == n as real / 100.0 by {
      assert pot as real * hundredths as real == (pot * hundredths) as real;
    }
    FloorOfHundredths(n);
  }

  lemma SameAsked(h: Hand, p: int, i: nat)
    requires MayRaise(h, p) && i < |RaiseFracs(h, p)|
    ensures UsualAsks(h, p, i, FracTarget(h, p, RaiseFracs(h, p)[i]))
  {
    SameCount(h, p);
    SameSizes(h.street, h.numRaises);
    var u := Usual(h.street, 0 < h.numRaises)[i];
    assert RaiseFracs(h, p)[i] == u as real / 100.0;
    SamePart(h.pot, u);
  }

  /** Some of the first k sizes asks for the target. */
  ghost predicate AskedBy(h: Hand, p: int, k: int, t: int)
    requires Shape(h) && Seat(p)
  {
    exists i :: 0 <= i < k && UsualAsks(h, p, i, t)
  }

  lemma AskedNext(h: Hand, p: int, k: nat, t: int)
    requires MayRaise(h, p) && k < |RaiseFracs(h, p)|
    ensures AskedBy(h, p, k + 1, t) <==> AskedBy(h, p, k, t) || t == FracTarget(h, p, RaiseFracs(h, p)[k])
  {
    SameAsked(h, p, k);
    if AskedBy(h, p, k + 1, t) {
      var i :| 0 <= i < k + 1 && UsualAsks(h, p, i, t);
      assert i < k ==> AskedBy(h, p, k, t);
    }
  }

  lemma SameLeast(h: Hand, p: int)
    requires MayRaise(h, p)
    ensures MinTarget(h, p) == Least(h, p) && MaxTarget(h, p) == Everything(h, p)
    ensures h.toCall < Least(h, p) <= Everything(h, p)
  {
  }

  lemma {:induction false} CandidatesAsked(h: Hand, p: int, k: nat, t: int)
    requires MayRaise(h, p) && k <= |RaiseFracs(h, p)|
    ensures t in FracCandidates(h, p, k) <==> t == Least(h, p) || (Least(h, p) <= t && AskedBy(h, p, k, t))
  {
    SameLeast(h, p);
    hide AskedBy, UsualAsks, RaiseFracs, FracTarget, Least, Everything, MinTarget, MaxTarget;
    if k > 0 {
      CandidatesAsked(h, p, k - 1, t);
      AskedNext(h, p, k - 1, t);
    }
  }

  /** The raises considered are exactly those wanted. */
  lemma TargetsAreWanted(h: Hand, p: int, t: int)
    requires MayRaise(h, p)
    ensures t in RaiseTargets(h, p) <==> Wanted(h, p, t)
  {
    var n := |RaiseFracs(h, p)|;
    SameLeast(h, p);
    CandidatesAsked(h, p, n, t);
    SameCount(h, p);
    assert RaisesOpen(h, p);
    assert AskedBy(h, p, n, t) <==> exists i :: UsualAsks(h, p, i, t);
  }

  // ----- the menu -----

  ghost predicate OnMenu(h: Hand, p: int, t: int)
    requires Shape(h) && Seat(p)
  {
    exists i :: 0 <= i < |Menu(h, p)| && IsRaiseChoice(Menu(h, p)[i]) && Menu(h, p)[i].target == t
  }

  /** A fold if there is something to call, then the call. */
  lemma MenuStarts(h: Hand, p: int)
    requires MayRaise(h, p)
    ensures var m := Menu(h, p);
            if h.committed[p] < h.toCall
            then |m| > 2 && m[0] == Choice(0, 0) && m[1] == Choice(1, h.toCall)
            else |m| > 1 && m[0] == Choice(1, h.toCall)
  {
    hide Menu, RaiseTargets, RaisesOf, MaxTarget, FullRaiseTarget;
    MenuIs(h, p);
    MenuRaises(h, p);
  }

  /** How many raises fit. */
  function Room(h: Hand, p: int): int
    requires Shape(h) && Seat(p)
  {
    Min(|RaiseTargets(h, p)|, MAX_ACTIONS - |FirstChoices(h, p)|)
  }

  lemma MenuEntries(h: Hand, p: int)
    requires MayRaise(h, p)
    ensures var first, m := |FirstChoices(h, p)|, Menu(h, p);
            && 0 <= Room(h, p) <= |RaiseTargets(h, p)| && |m| == first + Room(h, p)
            && (forall i :: 0 <= i < first ==> !IsRaiseChoice(m[i]))
            && forall i :: first <= i < |m| ==> IsRaiseChoice(m[i]) && m[i].target == RaiseTargets(h, p)[i - first]
  {
    hide RaiseTargets, Menu;
    MenuIs(h, p);
  }

  lemma MenuHolds(h: Hand, p: int, t: int)
    requires MayRaise(h, p)
    ensures 0 <= Room(h, p) <= |RaiseTargets(h, p)| && |Menu(h, p)| == |FirstChoices(h, p)| + Room(h, p)
    ensures OnMenu(h, p, t) <==> t in RaiseTargets(h, p)[..Room(h, p)]
  {
    hide RaiseTargets, Menu, FirstChoices, Room;
    MenuEntries(h, p);
    var targets, first, n, m := RaiseTargets(h, p), |FirstChoices(h, p)|, Room(h, p), Menu(h, p);
    if OnMenu(h, p, t) {
      var i :| 0 <= i < |m| && IsRaiseChoice(m[i]) && m[i].target == t;
      assert t == targets[..n][i - first];
    }
    if t in targets[..n] {
      var i :| 0 <= i < n && targets[..n][i] == t;
      assert IsRaiseChoice(m[first + i]) && m[first + i].target == t;
    }
  }

  lemma InPrefix(s: seq<int>, n: nat, j: nat)
    requires n <= |s| && j < |s|
    ensures j < n ==> s[j] in s[..n]
  {
    if j < n {
      assert s[..n][j] == s[j];
    }
  }

  /**
   The raises on the menu are the wanted ones, and a wanted one is missing only if
   the menu is full, of smaller raises.
   */
  lemma MenuOffersWanted(h: Hand, p: int, t: int)
    requires MayRaise(h, p)
    ensures OnMenu(h, p, t) ==> Wanted(h, p, t)
    ensures Wanted(h, p, t) && !OnMenu(h, p, t) ==>
              |Menu(h, p)| == 16 && forall u :: OnMenu(h, p, u) ==> u < t
  {
    var targets := RaiseTargets(h, p);
    var n := Room(h, p);
    TargetsAreWanted(h, p, t);
    MenuHolds(h, p, t);
    if Wanted(h, p, t) && !OnMenu(h, p, t) {
      var j :| 0 <= j < |targets| && targets[j] == t;
      InPrefix(targets, n, j);
      forall u | OnMenu(h, p, u)
        ensures u < t
      {
        MenuHolds(h, p, u);
        var i :| 0 <= i < n && targets[..n][i] == u;
      }
    }
  }

  /** After the flop's cards are out nothing wanted is ever cut. */
  lemma NothingCut(h: Hand, p: int, t: int)
    requires MayRaise(h, p) && 1 <= h.street
    ensures OnMenu(h, p, t) <==> Wanted(h, p, t)
  {
    MenuOffersWanted(h, p, t);
    MenuHolds(h, p, t);
    SameCount(h, p);
    SortedNoLonger(Candidates(h, p));
  }

  lemma {:induction false} SortedNoLonger(s: seq<int>)
    ensures |Sorted(s)| <= |s|
  {
    if s != [] {
      SortedNoLonger(s[..|s| - 1]);
      InsertNoLonger(Sorted(s[..|s| - 1]), s[|s| - 1]);
    }
  }

  lemma {:induction false} InsertNoLonger(levels: seq<int>, x: int)
    ensures |Insert(levels, x)| <= |levels| + 1
  {
    if levels != [] {
      InsertNoLonger(levels[..|levels| - 1], x);
    }
  }

  /**
   On the turn and the river: half the pot and the pot until somebody raised, only the
   pot after that, and only the smaller with a stack of no more than a full raise.
   */
  lemma TurnAndRiver(h: Hand, p: int, t: int)
    requires MayRaise(h, p) && 2 <= h.street
    ensures var half, pot := LiftBy(h, p, Part(h.pot, 50)), LiftBy(h, p, Part(h.pot, 100));
            var short := h.stack[p] <= h.toCall + h.lastFullRaise;
            OnMenu(h, p, t) <==>
            || t == Least(h, p) || t == Everything(h, p)
            || (Least(h, p) <= t && t == half && h.numRaises <= 0)
            || (Least(h, p) <= t && t == pot && (h.numRaises > 0 || !short))
  {
    NothingCut(h, p, t);
    var u := Usual(h.street, 0 < h.numRaises);
    assert UsualAsks(h, p, 0, LiftBy(h, p, Part(h.pot, u[0])));
    if h.numRaises <= 0 && h.stack[p] > h.toCall + h.lastFullRaise {
      assert UsualAsks(h, p, 1, LiftBy(h, p, Part(h.pot, u[1])));
    }
  }
}
