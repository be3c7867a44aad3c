/**
 Action lists inside a subgame: the limiter that keeps at most five raises, and the
 injector that makes room for raise sizes observed in play.
 */
module SubgameLists {
  import opened Chips
  import opened Hands
  import opened LegalActions

  const ACT_BET_HALF := 2
  const ACT_BET_POT := 3
  const KEPT_RAISES := 5

  predicate IsRaise(c: Choice) {
    c.action == ACT_RAISE_TO || c.action == ACT_ALL_IN || c.action == ACT_BET_HALF || c.action == ACT_BET_POT
  }

  function Raises(cs: seq<Choice>): (r: seq<Choice>)
    ensures |r| <= |cs|
  {
    if cs == [] then []
    else if IsRaise(cs[|cs| - 1]) then Raises(cs[..|cs| - 1]) + [cs[|cs| - 1]]
    else Raises(cs[..|cs| - 1])
  }

  function Others(cs: seq<Choice>): seq<Choice> {
    if cs == [] then []
    else if IsRaise(cs[|cs| - 1]) then Others(cs[..|cs| - 1])
    else Others(cs[..|cs| - 1]) + [cs[|cs| - 1]]
  }

  /** Bets, raises and the all-in on one side, folds, calls and checks on the other; nothing is lost or moved. */
  lemma {:induction false} KindsSplit(cs: seq<Choice>)
    ensures forall c :: c in Raises(cs) <==> c in cs && 2 <= c.action <= 5
    ensures forall c :: c in Others(cs) <==> c in cs && !(2 <= c.action <= 5)
    ensures multiset(Raises(cs)) + multiset(Others(cs)) == multiset(cs)
  {
    if cs != [] {
      KindsSplit(cs[..|cs| - 1]);
      assert cs == cs[..|cs| - 1] + [cs[|cs| - 1]];
    }
  }

  // ----- the limiter -----

  /** The rank of the k-th raise kept among m, spread evenly and rounded. */
  function Rank(k: nat, m: nat): nat
    requires 0 < m
  {
    (k * (m - 1) + 2) / 4
  }

  /** Among more than five raises the ranks kept are five, ascending, from the first to the last. */
  lemma RanksSpread(m: nat, k: nat)
    requires KEPT_RAISES < m && k < KEPT_RAISES
    ensures Rank(0, m) == 0 && Rank(KEPT_RAISES - 1, m) == m - 1 && Rank(k, m) < m
    ensures k + 1 < KEPT_RAISES ==> Rank(k, m) < Rank(k + 1, m)
  {
    assert (k + 1) * (m - 1) == k * (m - 1) + (m - 1);
    assert k * (m - 1) <= 4 * (m - 1);
  }

  predicate KeepsRank(rank: nat, m: nat)
    requires 0 < m
  {
    m <= KEPT_RAISES || exists k :: 0 <= k < KEPT_RAISES && Rank(k, m) == rank
  }

  /** The entries kept of a list that has m raises in all. */
  function Kept(cs: seq<Choice>, m: nat): (r: seq<Choice>)
    requires |Raises(cs)| <= m
    ensures |r| <= |cs|
  {
    if cs == [] then []
    else
      var front, c := cs[..|cs| - 1], cs[|cs| - 1];
      if IsRaise(c) && !KeepsRank(|Raises(front)|, m) then Kept(front, m) else Kept(front, m) + [c]
  }

  function Limited(cs: seq<Choice>): seq<Choice> {
    Kept(cs, |Raises(cs)|)
  }

  /** The raises a limited list should keep: all, or five spread from the smallest to the largest. */
  function Spread(rs: seq<Choice>): seq<Choice> {
    if |rs| <= KEPT_RAISES then rs else FirstPicks(rs, KEPT_RAISES)
  }

  function FirstPicks(rs: seq<Choice>, n: nat): seq<Choice>
    requires KEPT_RAISES < |rs| && n <= KEPT_RAISES
  {
    seq(n, k requires 0 <= k < n => assert Rank(k, |rs|) < |rs| by { RanksSpread(|rs|, k); } rs[Rank(k, |rs|)])
  }

  lemma {:induction false} KeptOthers(cs: seq<Choice>, m: nat)
    requires |Raises(cs)| <= m
    ensures Others(Kept(cs, m)) == Others(cs)
  {
    if cs != [] {
      var front, c := cs[..|cs| - 1], cs[|cs| - 1];
      KeptOthers(front, m);
      assert (Kept(front, m) + [c])[..|Kept(front, m)|] == Kept(front, m);
    }
  }

  /** Which picks have a rank below the number of raises seen. */
  predicate PicksBelow(n: nat, seen: nat, m: nat)
    requires KEPT_RAISES < m
  {
    n <= KEPT_RAISES && (n > 0 ==> Rank(n - 1, m) < seen) && (n < KEPT_RAISES ==> seen <= Rank(n, m))
  }

  lemma {:induction false} FewRaisesKept(cs: seq<Choice>, m: nat)
    requires |Raises(cs)| <= m <= KEPT_RAISES
    ensures Kept(cs, m) == cs
  {
    if cs != [] {
      FewRaisesKept(cs[..|cs| - 1], m);
    }
  }

  lemma RanksAscend(m: nat, j: nat, k: nat)
    requires KEPT_RAISES < m && j < k < KEPT_RAISES
    ensures Rank(j, m) < Rank(k, m)
    decreases k
  {
    RanksSpread(m, k - 1);
    if j < k - 1 {
      RanksAscend(m, j, k - 1);
    }
  }

  /** A rank is kept just when the next pick has it. */
  lemma NextPick(n: nat, seen: nat, m: nat)
    requires KEPT_RAISES < m && PicksBelow(n, seen, m)
    ensures KeepsRank(seen, m) <==> n < KEPT_RAISES && Rank(n, m) == seen
    ensures PicksBelow(if KeepsRank(seen, m) then n + 1 else n, seen + 1, m)
  {
    forall k | 0 <= k < KEPT_RAISES && Rank(k, m) == seen
      ensures k == n
    {
      if k < n - 1 {
        RanksAscend(m, k, n - 1);
      }
      if n < k {
        RanksAscend(m, n, k);
      }
    }
    if n < KEPT_RAISES - 1 {
      RanksAscend(m, n, n + 1);
    }
  }

  /** How many picks were below one raise earlier. */
  lemma PicksBefore(n: nat, seen: nat, m: nat) returns (before: nat)
    requires KEPT_RAISES < m && PicksBelow(n, seen + 1, m)
    ensures PicksBelow(before, seen, m)
  {
    before := n;
    if n > 0 && Rank(n - 1, m) == seen {
      before := n - 1;
      if n > 1 {
        RanksAscend(m, n - 2, n - 1);
      }
    }
  }

  lemma SamePicks(n: nat, p: nat, seen: nat, m: nat)
    requires KEPT_RAISES < m && PicksBelow(n, seen, m) && PicksBelow(p, seen, m)
    ensures n == p
  {
    if n < p - 1 {
      RanksAscend(m, n, p - 1);
    }
    if p < n - 1 {
      RanksAscend(m, p, n - 1);
    }
  }

  lemma PicksGrow(rs: seq<Choice>, n: nat)
    requires KEPT_RAISES < |rs| && n < KEPT_RAISES
    ensures Rank(n, |rs|) < |rs| && FirstPicks(rs, n + 1) == FirstPicks(rs, n) + [rs[Rank(n, |rs|)]]
  {
    RanksSpread(|rs|, n);
  }

  lemma RaisesAppend(cs: seq<Choice>, c: Choice)
    requires IsRaise(c)
    ensures Raises(cs + [c]) == Raises(cs) + [c]
  {
    assert (cs + [c])[..|cs|] == cs;
  }

  lemma OtherAppend(cs: seq<Choice>, c: Choice)
    requires !IsRaise(c)
    ensures Raises(cs + [c]) == Raises(cs)
  {
    assert (cs + [c])[..|cs|] == cs;
  }

  /** Of a list whose raises begin rs, the first n picks from rs are kept. */
  lemma {:induction false} KeptRaises(cs: seq<Choice>, rs: seq<Choice>, n: nat)
    requires KEPT_RAISES < |rs| && Raises(cs) <= rs && PicksBelow(n, |Raises(cs)|, |rs|)
    ensures Raises(Kept(cs, |rs|)) == FirstPicks(rs, n)
  {
    if cs != [] {
      var front, c, m := cs[..|cs| - 1], cs[|cs| - 1], |rs|;
      var seen := |Raises(front)|;
      if IsRaise(c) {
        assert rs[seen] == c;
        var before := PicksBefore(n, seen, m);
        NextPick(before, seen, m);
        SamePicks(if KeepsRank(seen, m) then before + 1 else before, n, seen + 1, m);
        KeptRaises(front, rs, before);
        if KeepsRank(seen, m) {
          RaisesAppend(Kept(front, m), c);
          PicksGrow(rs, before);
        }
      } else {
        KeptRaises(front, rs, n);
        OtherAppend(Kept(front, m), c);
      }
    }
  }

  lemma SpreadEnds(rs: seq<Choice>)
    requires rs != []
    ensures |Spread(rs)| == Min(|rs|, KEPT_RAISES)
    ensures Spread(rs)[0] == rs[0] && Spread(rs)[|Spread(rs)| - 1] == rs[|rs| - 1]
  {
    if KEPT_RAISES < |rs| {
      RanksSpread(|rs|, 0);
    }
  }

  lemma LimitedSplits(cs: seq<Choice>)
    ensures Others(Limited(cs)) == Others(cs) && Raises(Limited(cs)) == Spread(Raises(cs))
  {
    var rs := Raises(cs);
    KeptOthers(cs, |rs|);
    if |rs| <= KEPT_RAISES {
      FewRaisesKept(cs, |rs|);
    } else {
      RanksSpread(|rs|, KEPT_RAISES - 1);
      KeptRaises(cs, rs, KEPT_RAISES);
    }
  }

  /**
   A limited list keeps every non-raise, and of the raises all of up to five or
   exactly five of more, the smallest and the largest among them; all in order.
   */
  lemma LimitedKeeps(cs: seq<Choice>)
    ensures Others(Limited(cs)) == Others(cs)
    ensures Raises(Limited(cs)) == Spread(Raises(cs))
    ensures |Raises(Limited(cs))| == Min(|Raises(cs)|, KEPT_RAISES)
    ensures Raises(cs) != [] ==>
              && Raises(Limited(cs))[0] == Raises(cs)[0]
              && Raises(Limited(cs))[|Raises(Limited(cs))| - 1] == Raises(cs)[|Raises(cs)| - 1]
  {
    LimitedSplits(cs);
    if Raises(cs) != [] {
      SpreadEnds(Raises(cs));
    }
  }

  /** Position r is the nearest to k quarters of the way from the first of m raises to the last, halves up. */
  predicate Quarter(r: int, k: int, m: int) {
    4 * r - 2 <= k * (m - 1) < 4 * r + 2
  }

  lemma OneQuarter(r: int, s: int, k: int, m: int)
    requires Quarter(r, k, m) && Quarter(s, k, m)
    ensures r == s
  {
  }

  ghost predicate IsQuarter(rs: seq<Choice>, c: Choice, k: int) {
    exists r :: 0 <= r < |rs| && Quarter(r, k, |rs|) && c == rs[r]
  }

  /** Which raises are kept: all of up to five; of more, those nearest to the quarters of the list. */
  ghost predicate EvenlyKept(rs: seq<Choice>, kept: seq<Choice>) {
    if |rs| <= 5 then kept == rs else |kept| == 5 && forall k :: 0 <= k < 5 ==> IsQuarter(rs, kept[k], k)
  }

  lemma LimitedEvenly(cs: seq<Choice>)
    ensures EvenlyKept(Raises(cs), Raises(Limited(cs)))
  {
    LimitedSplits(cs);
    SpreadEvenly(Raises(cs));
  }

  lemma SpreadEvenly(rs: seq<Choice>)
    ensures EvenlyKept(rs, Spread(rs))
  {
    if 5 < |rs| {
      forall k | 0 <= k < 5
        ensures IsQuarter(rs, Spread(rs)[k], k)
      {
        RanksSpread(|rs|, k);
        assert Quarter(Rank(k, |rs|), k, |rs|);
      }
    }
  }

  /** How many raises come before position i. */
  function RaisesBefore(cs: seq<Choice>, i: nat): nat
    requires i <= |cs|
  {
    |Raises(cs[..i])|
  }

  lemma RaisesNext(cs: seq<Choice>, i: nat)
    requires i < |cs|
    ensures RaisesBefore(cs, i + 1) == RaisesBefore(cs, i) + if IsRaise(cs[i]) then 1 else 0
  {
    assert cs[..i + 1][..i] == cs[..i];
  }

  ghost predicate NamesRaise(cs: seq<Choice>, idx: seq<nat>, r: nat)
    requires r < |idx|
  {
    idx[r] < |cs| && IsRaise(cs[idx[r]]) && RaisesBefore(cs, idx[r]) == r
  }

  ghost predicate IsNamed(cs: seq<Choice>, idx: seq<nat>, j: nat)
    requires j < |cs|
  {
    IsRaise(cs[j]) ==> RaisesBefore(cs, j) < |idx| && idx[RaisesBefore(cs, j)] == j
  }

  /** The list of positions is where the raises before i are, by rank. */
  ghost predicate Located(cs: seq<Choice>, idx: seq<nat>, i: nat)
    requires i <= |cs|
  {
    && |idx| == RaisesBefore(cs, i)
    && (forall r :: 0 <= r < |idx| ==> NamesRaise(cs, idx, r))
    && forall j :: 0 <= j < i ==> IsNamed(cs, idx, j)
  }

  lemma LocateNext(cs: seq<Choice>, idx: seq<nat>, i: nat)
    requires i < |cs| && Located(cs, idx, i)
    ensures Located(cs, if IsRaise(cs[i]) then idx + [i] else idx, i + 1)
  {
    RaisesNext(cs, i);
    var next, last := if IsRaise(cs[i]) then idx + [i] else idx, i + 1;
    forall r | 0 <= r < |next|
      ensures NamesRaise(cs, next, r)
    {
      assert r < |idx| ==> NamesRaise(cs, idx, r);
    }
    forall j | 0 <= j < last
      ensures IsNamed(cs, next, j)
    {
      assert j < i ==> IsNamed(cs, idx, j);
    }
  }

  lemma NothingLocated(cs: seq<Choice>)
    ensures Located(cs, [], 0)
  {
  }

  /** Notes where the raises are and keeps everything else. */
  method SplitRaises(choices: array<Choice>, n: nat, keep: array<bool>, idx: array<nat>) returns (raises: nat)
    requires n <= choices.Length && n <= keep.Length && n <= idx.Length
    modifies keep, idx
    ensures raises <= n && Located(choices[..n], idx[..raises], n)
    ensures forall i :: 0 <= i < n ==> keep[i] == !IsRaise(choices[i])
  {
    hide Located, RaisesBefore;
    ghost var cs := choices[..n];
    raises := 0;
    NothingLocated(cs);
    for i := 0 to n
      invariant raises <= i && Located(cs, idx[..raises], i)
      invariant forall j :: 0 <= j < i ==> keep[j] == !IsRaise(cs[j])
    {
      ghost var was := idx[..raises];
      LocateNext(cs, was, i);
      keep[i] := !IsRaise(choices[i]);
      if IsRaise(choices[i]) {
        idx[raises] := i;
        raises := raises + 1;
        assert idx[..raises] == was + [i];
      }
    }
  }

  /** What the first k picks keep. */
  predicate Marked(cs: seq<Choice>, i: nat, k: nat)
    requires i < |cs| && Raises(cs) != []
  {
    !IsRaise(cs[i]) || exists j :: 0 <= j < k && Rank(j, |Raises(cs)|) == RaisesBefore(cs, i)
  }

  lemma MarkNext(cs: seq<Choice>, idx: seq<nat>, i: nat, k: nat)
    requires Located(cs, idx, |cs|) && i < |cs| && k < KEPT_RAISES < |Raises(cs)| == |idx|
    ensures Rank(k, |idx|) < |idx|
    ensures Marked(cs, i, k + 1) == (Marked(cs, i, k) || i == idx[Rank(k, |idx|)])
  {
    RanksSpread(|idx|, k);
    var r := Rank(k, |idx|);
    assert IsNamed(cs, idx, i) && NamesRaise(cs, idx, r);
    if Marked(cs, i, k + 1) && IsRaise(cs[i]) {
      var j :| 0 <= j < k + 1 && Rank(j, |Raises(cs)|) == RaisesBefore(cs, i);
      assert j == k || Marked(cs, i, k);
    }
    assert i == idx[r] ==> Rank(k, |Raises(cs)|) == RaisesBefore(cs, i);
  }

  /** The position is kept by the limiter. */
  predicate KeepsAt(cs: seq<Choice>, i: nat)
    requires i < |cs|
  {
    !IsRaise(cs[i]) || Raises(cs) == [] || KeepsRank(RaisesBefore(cs, i), |Raises(cs)|)
  }

  method MarkSpread(ghost cs: seq<Choice>, keep: array<bool>, idx: array<nat>, raises: nat)
    requires |cs| <= keep.Length && raises <= idx.Length && Located(cs, idx[..raises], |cs|)
    requires KEPT_RAISES < raises == |Raises(cs)| && forall i :: 0 <= i < |cs| ==> keep[i] == !IsRaise(cs[i])
    modifies keep
    ensures forall i :: 0 <= i < |cs| ==> keep[i] == KeepsAt(cs, i)
  {
    for k := 0 to KEPT_RAISES
      invariant forall i :: 0 <= i < |cs| ==> keep[i] == Marked(cs, i, k)
    {
      forall i | 0 <= i < |cs|
        ensures Rank(k, raises) < raises && Marked(cs, i, k + 1) ==
                (Marked(cs, i, k) || i == idx[..raises][Rank(k, raises)])
      {
        MarkNext(cs, idx[..raises], i, k);
      }
      RanksSpread(raises, k);
      assert NamesRaise(cs, idx[..raises], Rank(k, raises));
      keep[idx[Rank(k, raises)]] := true;
    }
  }

  method MarkAll(ghost cs: seq<Choice>, keep: array<bool>, idx: array<nat>, raises: nat)
    requires |cs| <= keep.Length && raises <= idx.Length && Located(cs, idx[..raises], |cs|)
    requires raises <= KEPT_RAISES && forall i :: 0 <= i < |cs| ==> keep[i] == !IsRaise(cs[i])
    modifies keep
    ensures forall i :: 0 <= i < |cs| ==> keep[i]
  {
    for r := 0 to raises
      invariant forall i :: 0 <= i < |cs| && !IsRaise(cs[i]) ==> keep[i]
      invariant forall i :: 0 <= i < |cs| && IsRaise(cs[i]) && RaisesBefore(cs, i) < r ==> keep[i]
    {
      assert NamesRaise(cs, idx[..raises], r);
      forall i | 0 <= i < |cs|
        ensures IsRaise(cs[i]) && RaisesBefore(cs, i) == r ==> i == idx[..raises][r]
      {
        assert IsNamed(cs, idx[..raises], i);
      }
      keep[idx[r]] := true;
    }
    forall i | 0 <= i < |cs|
      ensures keep[i]
    {
      assert IsNamed(cs, idx[..raises], i);
    }
  }

  lemma KeptNext(cs: seq<Choice>, i: nat)
    requires i < |cs| && RaisesBefore(cs, i) <= |Raises(cs)| && RaisesBefore(cs, i + 1) <= |Raises(cs)|
    ensures var m := |Raises(cs)|;
            Kept(cs[..i + 1], m) == if KeepsAt(cs, i) then Kept(cs[..i], m) + [cs[i]] else Kept(cs[..i], m)
  {
    assert cs[..i + 1][..i] == cs[..i];
  }

  lemma {:induction false} RaisesGrow(cs: seq<Choice>, i: nat)
    requires i <= |cs|
    ensures RaisesBefore(cs, i) <= |Raises(cs)|
    decreases |cs| - i
  {
    if i < |cs| {
      RaisesNext(cs, i);
      RaisesGrow(cs, i + 1);
    } else {
      assert cs[..i] == cs;
    }
  }

  method SelectKept(choices: array<Choice>, n: nat, keep: array<bool>) returns (kept: seq<Choice>)
    requires n <= choices.Length && n <= keep.Length
    requires forall i :: 0 <= i < n ==> keep[i] == KeepsAt(choices[..n], i)
    ensures kept == Limited(choices[..n])
  {
    ghost var cs := choices[..n];
    kept := [];
    RaisesGrow(cs, 0);
    for i := 0 to n
      invariant RaisesBefore(cs, i) <= |Raises(cs)| && kept == Kept(cs[..i], |Raises(cs)|)
    {
      RaisesGrow(cs, i + 1);
      KeptNext(cs, i);
      if keep[i] {
        kept := kept + [choices[i]];
      }
    }
    assert cs[..n] == cs;
  }

  method CopyBack(choices: array<Choice>, kept: seq<Choice>)
    requires |kept| <= choices.Length
    modifies choices
    ensures choices[..] == kept + old(choices[|kept|..])
  {
    for i := 0 to |kept|
      invariant choices[..i] == kept[..i] && choices[i..] == old(choices[i..])
    {
      choices[i] := kept[i];
      assert choices[..i + 1] == choices[..i] + [kept[i]];
      assert choices[i..][1..] == choices[i + 1..];
      assert old(choices[i..])[1..] == old(choices[i + 1..]);
    }
    assert choices[..] == choices[..|kept|] + choices[|kept|..];
  }

  /** Moves the kept entries to the front, in order. */
  method Compact(choices: array<Choice>, n: nat, keep: array<bool>) returns (size: nat)
    requires n <= choices.Length && n <= keep.Length
    requires forall i :: 0 <= i < n ==> keep[i] == KeepsAt(choices[..n], i)
    modifies choices
    ensures size <= n && choices[..size] == Limited(old(choices[..n])) && choices[size..] == old(choices[size..])
  {
    var kept := SelectKept(choices, n, keep);
    size := |kept|;
    CopyBack(choices, kept);
  }

  /** Cuts the list down to five raises in place. */
  method Limit(choices: array<Choice>, n: nat) returns (size: nat)
    requires n <= MAX_ACTIONS == choices.Length
    modifies choices
    ensures size <= n && choices[..size] == Limited(old(choices[..n])) && choices[size..] == old(choices[size..])
  {
    var keep, idx := new bool[MAX_ACTIONS], new nat[MAX_ACTIONS];
    ghost var cs := choices[..n];
    var raises := SplitRaises(choices, n, keep, idx);
    assert cs[..n] == cs;
    if raises <= KEPT_RAISES {
      MarkAll(cs, keep, idx, raises);
    } else {
      MarkSpread(cs, keep, idx, raises);
    }
    size := Compact(choices, n, keep);
  }

  // ----- the injector -----

  predicate HasRaise(cs: seq<Choice>, t: int) {
    exists i :: 0 <= i < |cs| && IsRaise(cs[i]) && cs[i].target == t
  }

  /** Adds a raise to an observed target, if it is in range, new, and there is room. */
  function WithTarget(cs: seq<Choice>, t: int, lo: int, hi: int): seq<Choice> {
    if t < lo || t > hi || HasRaise(cs, t) || |cs| >= MAX_ACTIONS then cs
    else cs + [Choice(if t == hi then ACT_ALL_IN else ACT_RAISE_TO, t)]
  }

  function WithTargets(cs: seq<Choice>, ts: seq<int>, k: nat, lo: int, hi: int): (r: seq<Choice>)
    requires k <= |ts|
    ensures cs <= r
    ensures |cs| <= MAX_ACTIONS ==> |r| <= MAX_ACTIONS
  {
    if k == 0 then cs else WithTarget(WithTargets(cs, ts, k - 1, lo, hi), ts[k - 1], lo, hi)
  }

  ghost predicate RaisesDiffer(cs: seq<Choice>) {
    forall i, j :: 0 <= i < j < |cs| && IsRaise(cs[i]) && IsRaise(cs[j]) ==> cs[i].target != cs[j].target
  }

  lemma {:induction false} TargetsStay(cs: seq<Choice>, ts: seq<int>, j: nat, k: nat, lo: int, hi: int)
    requires j <= k <= |ts|
    ensures WithTargets(cs, ts, j, lo, hi) <= WithTargets(cs, ts, k, lo, hi)
    decreases k
  {
    if j < k {
      TargetsStay(cs, ts, j, k - 1, lo, hi);
    }
  }

  lemma HasRaiseStays(cs: seq<Choice>, r: seq<Choice>, t: int)
    requires cs <= r && HasRaise(cs, t)
    ensures HasRaise(r, t)
  {
    var i :| 0 <= i < |cs| && IsRaise(cs[i]) && cs[i].target == t;
    assert r[i] == cs[i];
  }

  /** Every observed target in range ends up on the list, unless the list is full. */
  lemma InjectedAreOffered(cs: seq<Choice>, ts: seq<int>, j: nat, lo: int, hi: int)
    requires j < |ts| && lo <= ts[j] <= hi
    ensures var r := WithTargets(cs, ts, |ts|, lo, hi); HasRaise(r, ts[j]) || |r| >= MAX_ACTIONS
  {
    var before, after := WithTargets(cs, ts, j, lo, hi), WithTargets(cs, ts, j + 1, lo, hi);
    TargetsStay(cs, ts, j + 1, |ts|, lo, hi);
    if !HasRaise(before, ts[j]) && |before| < MAX_ACTIONS {
      assert IsRaise(after[|before|]) && after[|before|].target == ts[j];
      HasRaiseStays(after, WithTargets(cs, ts, |ts|, lo, hi), ts[j]);
    } else if HasRaise(before, ts[j]) {
      HasRaiseStays(after, WithTargets(cs, ts, |ts|, lo, hi), ts[j]);
    }
  }

  /** Nothing else is added: each new entry is a raise to an observed target in range, and no raise is listed twice. */
  lemma {:induction false} OnlyInjectedAdded(cs: seq<Choice>, ts: seq<int>, k: nat, lo: int, hi: int)
    requires k <= |ts|
    ensures var r := WithTargets(cs, ts, k, lo, hi);
            && (forall i :: |cs| <= i < |r| ==>
                  && IsRaise(r[i]) && lo <= r[i].target <= hi && r[i].target in ts
                  && r[i].action == if r[i].target == hi then 4 else 5)
            && (RaisesDiffer(cs) ==> RaisesDiffer(r))
  {
    if k > 0 {
      OnlyInjectedAdded(cs, ts, k - 1, lo, hi);
    }
  }

  /** Non-raises stay where they are; the raises are the same ones, in other raise positions perhaps. */
  ghost predicate Rearranged(was: seq<Choice>, now: seq<Choice>) {
    && |now| == |was| && multiset(now) == multiset(was)
    && (forall i :: 0 <= i < |was| ==> IsRaise(now[i]) == IsRaise(was[i]))
    && (forall i :: 0 <= i < |was| && !IsRaise(was[i]) ==> now[i] == was[i])
    && (RaisesDiffer(was) ==> RaisesDiffer(now))
  }

  function Exchanged(cs: seq<Choice>, i: nat, j: nat): seq<Choice>
    requires i < |cs| && j < |cs|
  {
    cs[i := cs[j]][j := cs[i]]
  }

  lemma ExchangeSameItems(cs: seq<Choice>, i: nat, j: nat)
    requires i < |cs| && j < |cs|
    ensures multiset(Exchanged(cs, i, j)) == multiset(cs)
  {
  }

  lemma ExchangeDiffers(cs: seq<Choice>, i: nat, j: nat)
    requires i < |cs| && j < |cs| && IsRaise(cs[i]) && IsRaise(cs[j])
    ensures RaisesDiffer(cs) ==> RaisesDiffer(Exchanged(cs, i, j))
  {
  }

  lemma ExchangeRearranges(was: seq<Choice>, now: seq<Choice>, i: nat, j: nat)
    requires Rearranged(was, now) && i < |now| && j < |now| && IsRaise(now[i]) && IsRaise(now[j])
    ensures Rearranged(was, Exchanged(now, i, j))
  {
    ExchangeSameItems(now, i, j);
    ExchangeDiffers(now, i, j);
  }

  /** The raise in position i is no larger than those after it up to n. */
  ghost predicate LeastFrom(cs: seq<Choice>, i: nat, n: nat)
    requires i < |cs| && n <= |cs|
  {
    IsRaise(cs[i]) ==> forall m :: i < m < n && IsRaise(cs[m]) ==> cs[i].target <= cs[m].target
  }

  ghost predicate RaisesAscend(cs: seq<Choice>) {
    forall i :: 0 <= i < |cs| ==> LeastFrom(cs, i, |cs|)
  }

  lemma ExchangeKeepsLeast(cs: seq<Choice>, i: nat, j: nat, k: nat)
    requires k < i < j < |cs| && LeastFrom(cs, k, |cs|) && IsRaise(cs[i]) && IsRaise(cs[j])
    ensures LeastFrom(Exchanged(cs, i, j), k, |cs|)
  {
  }

  lemma ExchangeGetsLeast(cs: seq<Choice>, i: nat, j: nat)
    requires i < j < |cs| && LeastFrom(cs, i, j) && IsRaise(cs[i]) && IsRaise(cs[j]) && cs[j].target < cs[i].target
    ensures LeastFrom(Exchanged(cs, i, j), i, j + 1)
  {
  }

  method Exchange(choices: array<Choice>, n: nat, i: nat, j: nat)
    requires n <= choices.Length && i < n && j < n
    modifies choices
    ensures choices[..n] == Exchanged(old(choices[..n]), i, j) && choices[n..] == old(choices[n..])
  {
    choices[i], choices[j] := choices[j], choices[i];
  }

  /** Brings the least raise from position i on into position i. */
  method Settle(choices: array<Choice>, n: nat, i: nat, ghost was: seq<Choice>)
    requires i < n <= choices.Length && Rearranged(was, choices[..n]) && IsRaise(choices[i])
    requires forall k :: 0 <= k < i ==> LeastFrom(choices[..n], k, n)
    modifies choices
    ensures Rearranged(was, choices[..n]) && choices[n..] == old(choices[n..])
    ensures forall k :: 0 <= k <= i ==> LeastFrom(choices[..n], k, n)
  {
    for j := i + 1 to n
      invariant Rearranged(was, choices[..n]) && choices[n..] == old(choices[n..])
      invariant IsRaise(choices[i]) && LeastFrom(choices[..n], i, j)
      invariant forall k :: 0 <= k < i ==> LeastFrom(choices[..n], k, n)
    {
      if IsRaise(choices[j]) && choices[j].target < choices[i].target {
        ghost var cs := choices[..n];
        ExchangeRearranges(was, cs, i, j);
        ExchangeGetsLeast(cs, i, j);
        forall k | 0 <= k < i
          ensures LeastFrom(Exchanged(cs, i, j), k, n)
        {
          ExchangeKeepsLeast(cs, i, j, k);
        }
        Exchange(choices, n, i, j);
      }
    }
  }

  /** Exchanges raises until each is no larger than any after it. */
  method SortRaises(choices: array<Choice>, n: nat)
    requires n <= choices.Length
    modifies choices
    ensures Rearranged(old(choices[..n]), choices[..n]) && RaisesAscend(choices[..n])
    ensures choices[n..] == old(choices[n..])
  {
    ghost var was := choices[..n];
    for i := 0 to n
      invariant Rearranged(was, choices[..n]) && choices[n..] == old(choices[n..])
      invariant forall k :: 0 <= k < i ==> LeastFrom(choices[..n], k, n)
    {
      if IsRaise(choices[i]) {
        Settle(choices, n, i, was);
      }
    }
  }

  method AddTargets(choices: array<Choice>, n: nat, ts: seq<int>, lo: int, hi: int) returns (size: nat)
    requires n <= MAX_ACTIONS == choices.Length
    modifies choices
    ensures size <= MAX_ACTIONS && choices[..size] == WithTargets(old(choices[..n]), ts, |ts|, lo, hi)
  {
    size := n;
    for k := 0 to |ts|
      invariant size <= MAX_ACTIONS && choices[..size] == WithTargets(old(choices[..n]), ts, k, lo, hi)
    {
      var t := ts[k];
      var listed := HasRaise(choices[..size], t);
      if lo <= t <= hi && !listed && size < MAX_ACTIONS {
        ghost var cs := choices[..size];
        choices[size] := Choice(if t == hi then ACT_ALL_IN else ACT_RAISE_TO, t);
        size := size + 1;
        assert choices[..size] == cs + [Choice(if t == hi then ACT_ALL_IN else ACT_RAISE_TO, t)];
      }
    }
  }

  /** The list is left alone when there is nothing to inject or no raise is possible. */
  predicate Injects(h: Hand, n: nat, ts: seq<int>)
    requires Shape(h)
  {
    n > 0 && ts != [] && Seat(h.current) && MaxTarget(h, h.current) > h.toCall
  }

  /** Adds the observed raise sizes the player may make, and puts the raises back in order. */
  method Inject(h: Hand, choices: array<Choice>, n: nat, ts: seq<int>) returns (size: nat)
    requires Shape(h) && n <= MAX_ACTIONS == choices.Length
    modifies choices
    ensures !Injects(h, n, ts) ==> size == n && choices[..] == old(choices[..])
    ensures n == 0 || ts == [] || !Seat(h.current) ==> size == n && choices[..] == old(choices[..])
    ensures Seat(h.current) && h.committed[h.current] + h.stack[h.current] <= h.toCall ==>
              size == n && choices[..] == old(choices[..])
    ensures Seat(h.current) && h.committed[h.current] + h.stack[h.current] > h.toCall && n > 0 && ts != [] ==>
              Injects(h, n, ts)
    ensures Injects(h, n, ts) ==>
              && size <= MAX_ACTIONS && RaisesAscend(choices[..size])
              && Rearranged(WithTargets(old(choices[..n]), ts, |ts|, MinTarget(h, h.current), MaxTarget(h, h.current)),
                            choices[..size])
  {
    size := n;
    if Injects(h, n, ts) {
      size := AddTargets(choices, n, ts, MinTarget(h, h.current), MaxTarget(h, h.current));
      SortRaises(choices, size);
    }
  }

  /** Ascending raises with different targets are strictly increasing. */
  lemma AscendStrictly(cs: seq<Choice>, i: nat, j: nat)
    requires RaisesAscend(cs) && RaisesDiffer(cs) && i < j < |cs| && IsRaise(cs[i]) && IsRaise(cs[j])
    ensures cs[i].target < cs[j].target
  {
    assert LeastFrom(cs, i, |cs|);
  }
}
