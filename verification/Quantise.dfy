/**
 Storing a policy in small integers that sum to exactly the scale: every share is
 rounded down and the units left over go to the largest remainders.
 */
module Quantise {
  import opened Chips

  const U8_SCALE := 255
  const U16_SCALE := 65535

  /** Remainders closer than this count as equal. */
  const TOLERANCE := 1.0 / 1_000_000_000.0

  function Scale(narrow: bool): nat {
    if narrow then U8_SCALE else U16_SCALE
  }

  function RealSum(s: seq<real>): real {
    if s == [] then 0.0 else RealSum(s[..|s| - 1]) + s[|s| - 1]
  }

  ghost predicate Distribution(p: seq<real>) {
    (forall i :: 0 <= i < |p| ==> 0.0 <= p[i]) && RealSum(p) == 1.0
  }

  function Scaled(x: real, scale: nat): (r: real)
    ensures 0.0 <= r
  {
    if x < 0.0 then 0.0 else Product(x, scale as real)
  }

  function Product(x: real, y: real): (r: real)
    ensures 0.0 <= x && 0.0 <= y ==> 0.0 <= r
  {
    x * y
  }

  function Whole(x: real, scale: nat): (n: nat)
    ensures n as real <= Scaled(x, scale) < n as real + 1.0
  {
    Scaled(x, scale).Floor
  }

  function Remainder(x: real, scale: nat): (r: real)
    ensures 0.0 <= r < 1.0
  {
    Scaled(x, scale) - Whole(x, scale) as real
  }

  function Wholes(p: seq<real>, scale: nat): (w: seq<int>)
    ensures |w| == |p| && forall i :: 0 <= i < |p| ==> w[i] == Whole(p[i], scale)
  {
    seq(|p|, i requires 0 <= i < |p| => Whole(p[i], scale))
  }

  /** Which shares were rounded up. */
  ghost predicate Bumped(p: seq<real>, scale: nat, q: seq<int>, bumped: seq<bool>) {
    && |q| == |p| == |bumped|
    && forall i :: 0 <= i < |p| ==> q[i] == Whole(p[i], scale) + if bumped[i] then 1 else 0
  }

  /** No share was rounded up before one with a clearly larger remainder. */
  ghost predicate Largest(p: seq<real>, scale: nat, bumped: seq<bool>)
    requires |p| == |bumped|
  {
    forall i, j :: 0 <= i < |p| && 0 <= j < |p| && bumped[i] && !bumped[j] ==>
      Remainder(p[j], scale) <= Remainder(p[i], scale) + TOLERANCE
  }

  ghost predicate Quantised(p: seq<real>, scale: nat, q: seq<int>) {
    Sum(q) == scale && exists bumped :: Bumped(p, scale, q, bumped) && Largest(p, scale, bumped)
  }

  // ----- sums -----

  lemma {:induction false} CountAll(s: seq<bool>)
    ensures CountTrue(s) <= |s|
    ensures CountTrue(s) < |s| ==> exists i :: 0 <= i < |s| && !s[i]
  {
    if s != [] {
      var n := |s| - 1;
      CountAll(s[..n]);
      if CountTrue(s) < |s| && s[n] {
        var i :| 0 <= i < n && !s[..n][i];
        assert !s[i];
      }
    }
  }

  lemma {:induction false} CountSet(s: seq<bool>, i: nat)
    requires i < |s| && !s[i]
    ensures CountTrue(s[i := true]) == CountTrue(s) + 1
  {
    var n := |s| - 1;
    if i == n {
      assert s[i := true][..n] == s[..n];
    } else {
      assert s[i := true][..n] == s[..n][i := true];
      CountSet(s[..n], i);
    }
  }

  lemma {:induction false} CountNone(n: nat)
    ensures CountTrue(seq(n, _ => false)) == 0
  {
    if n > 0 {
      assert seq(n, _ => false)[..n - 1] == seq(n - 1, _ => false);
      CountNone(n - 1);
    }
  }

  lemma {:induction false} BumpedSum(p: seq<real>, scale: nat, q: seq<int>, bumped: seq<bool>)
    requires Bumped(p, scale, q, bumped)
    ensures Sum(q) == Sum(Wholes(p, scale)) + CountTrue(bumped)
  {
    if p != [] {
      var n := |p| - 1;
      assert Bumped(p[..n], scale, q[..n], bumped[..n]);
      BumpedSum(p[..n], scale, q[..n], bumped[..n]);
      assert Wholes(p, scale)[..n] == Wholes(p[..n], scale);
    }
  }

  lemma ScaledIs(x: real, scale: nat, total: real)
    requires 0.0 <= x
    ensures Scaled(x, scale) + total * (scale as real) == (total + x) * (scale as real)
  {
  }

  lemma WholesNext(p: seq<real>, scale: nat)
    requires p != []
    ensures Sum(Wholes(p, scale)) == Sum(Wholes(p[..|p| - 1], scale)) + Whole(p[|p| - 1], scale)
  {
    assert Wholes(p, scale)[..|p| - 1] == Wholes(p[..|p| - 1], scale);
  }

  /** Rounding down loses less than one unit per share. */
  lemma {:induction false} WholesBound(p: seq<real>, scale: nat)
    requires forall i :: 0 <= i < |p| ==> 0.0 <= p[i]
    ensures Sum(Wholes(p, scale)) as real <= RealSum(p) * (scale as real)
    ensures p != [] ==> RealSum(p) * (scale as real) < Sum(Wholes(p, scale)) as real + |p| as real
  {
    if p != [] {
      var n := |p| - 1;
      WholesBound(p[..n], scale);
      ScaledIs(p[n], scale, RealSum(p[..n]));
      WholesNext(p, scale);
      assert RealSum(p) == RealSum(p[..n]) + p[n];
      assert n == 0 ==> RealSum(p[..n]) == 0.0 && Sum(Wholes(p[..n], scale)) == 0;
      hide RealSum, Sum, Whole, Scaled, Wholes;
    }
  }

  /** A distribution leaves fewer units over than it has shares. */
  lemma LeftOver(p: seq<real>, scale: nat)
    requires Distribution(p) && p != []
    ensures Sum(Wholes(p, scale)) <= scale < Sum(Wholes(p, scale)) + |p|
  {
    WholesBound(p, scale);
    assert RealSum(p) * (scale as real) == scale as real;
  }

  // ----- the loops -----

  /** Rounds every share down. */
  method RoundDown(p: seq<real>, scale: nat, base: array<int>, frac: array<real>) returns (given: int)
    requires base.Length == |p| == frac.Length
    modifies base, frac
    ensures base[..] == Wholes(p, scale) && given == Sum(base[..])
    ensures forall i :: 0 <= i < |p| ==> frac[i] == Remainder(p[i], scale)
  {
    given := 0;
    for i := 0 to |p|
      invariant forall j :: 0 <= j < i ==> base[j] == Whole(p[j], scale) && frac[j] == Remainder(p[j], scale)
      invariant given == Sum(base[..i])
    {
      base[i] := Whole(p[i], scale);
      frac[i] := Remainder(p[i], scale);
      assert base[..i + 1][..i] == base[..i];
      given := given + base[i];
    }
    assert base[..|p|] == base[..] == Wholes(p, scale);
  }

  /** Scans for the largest remainder, keeping the earlier of two that are nearly equal. */
  method Pick(frac: array<real>) returns (pick: nat)
    requires 0 < frac.Length
    ensures pick < frac.Length
    ensures forall j :: 0 <= j < frac.Length ==> frac[j] <= frac[pick] + TOLERANCE
  {
    pick := 0;
    for i := 1 to frac.Length
      invariant pick < frac.Length && forall j :: 0 <= j < i ==> frac[j] <= frac[pick] + TOLERANCE
    {
      if frac[i] > frac[pick] + TOLERANCE {
        pick := i;
      }
    }
  }

  /** Used remainders are out of the running. */
  ghost predicate Running(p: seq<real>, scale: nat, frac: seq<real>, bumped: seq<bool>) {
    && |frac| == |p| == |bumped|
    && forall i :: 0 <= i < |p| ==> frac[i] == if bumped[i] then -1.0 else Remainder(p[i], scale)
  }

  /** As long as units are left over some share has not had one, and the scan finds such a share. */
  lemma PickIsFresh(p: seq<real>, scale: nat, frac: seq<real>, bumped: seq<bool>, pick: nat)
    requires Running(p, scale, frac, bumped) && pick < |p| && CountTrue(bumped) < |p|
    requires forall j :: 0 <= j < |p| ==> frac[j] <= frac[pick] + TOLERANCE
    ensures !bumped[pick]
  {
    CountAll(bumped);
    var i :| 0 <= i < |p| && !bumped[i];
    assert 0.0 <= frac[i] <= frac[pick] + TOLERANCE;
  }

  lemma BumpStep(p: seq<real>, scale: nat, q: seq<int>, frac: seq<real>, bumped: seq<bool>, pick: nat)
    requires Bumped(p, scale, q, bumped) && Largest(p, scale, bumped) && Running(p, scale, frac, bumped)
    requires pick < |p| && CountTrue(bumped) < |p|
    requires forall j :: 0 <= j < |p| ==> frac[j] <= frac[pick] + TOLERANCE
    ensures var next := bumped[pick := true];
            && Bumped(p, scale, q[pick := q[pick] + 1], next) && Largest(p, scale, next)
            && Running(p, scale, frac[pick := -1.0], next) && CountTrue(next) == CountTrue(bumped) + 1
  {
    PickIsFresh(p, scale, frac, bumped, pick);
    CountSet(bumped, pick);
    var next := bumped[pick := true];
    forall i, j | 0 <= i < |p| && 0 <= j < |p| && next[i] && !next[j]
      ensures Remainder(p[j], scale) <= Remainder(p[i], scale) + TOLERANCE
    {
      assert frac[j] == Remainder(p[j], scale);
    }
  }

  ghost predicate State(p: seq<real>, scale: nat, q: seq<int>, frac: seq<real>, bumped: seq<bool>, given: int) {
    && Bumped(p, scale, q, bumped) && Largest(p, scale, bumped) && Running(p, scale, frac, bumped)
    && given == Sum(Wholes(p, scale)) + CountTrue(bumped) <= scale
  }

  lemma StateStep(p: seq<real>, scale: nat, q: seq<int>, frac: seq<real>, bumped: seq<bool>, given: int, pick: nat)
    requires Distribution(p) && p != [] && State(p, scale, q, frac, bumped, given) && given < scale && pick < |p|
    requires forall j :: 0 <= j < |p| ==> frac[j] <= frac[pick] + TOLERANCE
    ensures State(p, scale, q[pick := q[pick] + 1], frac[pick := -1.0], bumped[pick := true], given + 1)
  {
    LeftOver(p, scale);
    BumpStep(p, scale, q, frac, bumped, pick);
  }

  lemma StateEnd(p: seq<real>, scale: nat, q: seq<int>, frac: seq<real>, bumped: seq<bool>, given: int)
    requires State(p, scale, q, frac, bumped, given) && given >= scale
    ensures Quantised(p, scale, q)
  {
    BumpedSum(p, scale, q, bumped);
  }

  lemma StateStart(p: seq<real>, scale: nat, q: seq<int>, frac: seq<real>, given: int)
    requires Distribution(p) && p != [] && |frac| == |p| && q == Wholes(p, scale) && given == Sum(q)
    requires forall i :: 0 <= i < |p| ==> frac[i] == Remainder(p[i], scale)
    ensures State(p, scale, q, frac, seq(|p|, _ => false), given)
  {
    CountNone(|p|);
    LeftOver(p, scale);
  }

  /** Hands out the units left over. */
  method HandOut(p: seq<real>, scale: nat, base: array<int>, frac: array<real>, start: int)
    requires base.Length == frac.Length == |p| > 0
    requires base[..] == Wholes(p, scale) && start == Sum(base[..])
    requires forall i :: 0 <= i < |p| ==> frac[i] == Remainder(p[i], scale)
    modifies base, frac
    ensures start <= scale ==> Sum(base[..]) == scale
    ensures start > scale ==> base[..] == old(base[..])
    ensures Distribution(p) ==> Quantised(p, scale, base[..])
  {
    var given := start;
    ghost var bumped: seq<bool> := seq(|p|, _ => false);
    if Distribution(p) {
      StateStart(p, scale, base[..], frac[..], given);
    }
    while given < scale
      invariant |bumped| == |p| && given == Sum(base[..]) && (start <= scale ==> given <= scale)
      invariant start > scale ==> base[..] == old(base[..])
      invariant Distribution(p) ==> State(p, scale, base[..], frac[..], bumped, given)
    {
      var pick := Pick(frac);
      ghost var q, f := base[..], frac[..];
      if Distribution(p) {
        StateStep(p, scale, q, f, bumped, given, pick);
      }
      SumUpdate(q, pick, q[pick] + 1);
      base[pick] := base[pick] + 1;
      frac[pick] := -1.0;
      given, bumped := given + 1, bumped[pick := true];
      assert base[..] == q[pick := q[pick] + 1] && frac[..] == f[pick := -1.0];
    }
    if Distribution(p) {
      StateEnd(p, scale, base[..], frac[..], bumped, given);
    }
  }

  function Clipped(q: seq<int>, scale: nat): (c: seq<int>)
    ensures |c| == |q| && forall i :: 0 <= i < |q| ==> c[i] == if q[i] > scale then scale else q[i]
  {
    seq(|q|, i requires 0 <= i < |q| => if q[i] > scale then scale as int else q[i])
  }

  /** No share of a quantised distribution exceeds the scale, so clipping changes nothing. */
  lemma QuantaFit(p: seq<real>, scale: nat, q: seq<int>)
    requires Quantised(p, scale, q)
    ensures forall i :: 0 <= i < |q| ==> 0 <= q[i] <= scale
    ensures Clipped(q, scale) == q
  {
    SumNonNegative(q);
  }

  /** Quantises a policy; on a distribution the quanta sum to exactly the scale. */
  method Quantise(p: seq<real>, narrow: bool) returns (q: seq<int>)
    requires p != []
    ensures |q| == |p| && forall i :: 0 <= i < |q| ==> q[i] <= Scale(narrow)
    ensures Distribution(p) ==> Quantised(p, Scale(narrow), q) && Sum(q) == if narrow then 255 else 65535
  {
    var scale := Scale(narrow);
    var base, frac := new int[|p|], new real[|p|];
    var given := RoundDown(p, scale, base, frac);
    HandOut(p, scale, base, frac, given);
    q := Clipped(base[..], scale);
    if Distribution(p) {
      QuantaFit(p, scale, base[..]);
    }
  }

  // ----- reading back -----

  function Uniform(n: nat): (p: seq<real>)
    requires 0 < n
    ensures |p| == n
  {
    seq(n, _ => 1.0 / n as real)
  }

  /** Shares of the sum of the quanta, or equal shares if all are zero. */
  function Decode(q: seq<int>): (p: seq<real>)
    requires q != []
    ensures |p| == |q|
  {
    var sum := Sum(q);
    if sum == 0 then Uniform(|q|) else seq(|q|, i requires 0 <= i < |q| => q[i] as real / sum as real)
  }

  lemma TimesMonotone(a: real, b: real, s: real)
    requires a > b && s > 0.0
    ensures a * s > b * s
  {
  }

  lemma DividedBound(a: real, s: real)
    requires 0.0 < s && a * s <= 1.0
    ensures a <= 1.0 / s
  {
    assert (1.0 / s) * s == 1.0;
    if a > 1.0 / s {
      TimesMonotone(a, 1.0 / s, s);
    }
  }

  lemma Quotient(x: real, q: int, scale: nat)
    requires 0 < scale && -1.0 <= q as real - x * (scale as real) <= 1.0
    ensures -1.0 / scale as real <= q as real / scale as real - x <= 1.0 / scale as real
  {
    var s, d := scale as real, q as real / scale as real - x;
    assert d * s == q as real - x * s;
    DividedBound(d, s);
    DividedBound(-d, s);
  }

  /** Decoding a quantised distribution is off by at most one unit of the scale in every action. */
  lemma DecodeIsClose(p: seq<real>, scale: nat, q: seq<int>, i: nat)
    requires Distribution(p) && 0 < scale && Quantised(p, scale, q) && i < |p| && |q| == |p|
    ensures -1.0 / scale as real <= Decode(q)[i] - p[i] <= 1.0 / scale as real
  {
    var bumped :| Bumped(p, scale, q, bumped) && Largest(p, scale, bumped);
    assert Scaled(p[i], scale) == p[i] * (scale as real);
    Quotient(p[i], q[i], scale);
  }

  lemma {:induction false} SharesSum(q: seq<int>, total: int, p: seq<real>)
    requires |p| == |q| && total != 0 && forall i :: 0 <= i < |q| ==> p[i] == q[i] as real / total as real
    ensures RealSum(p) == Sum(q) as real / total as real
  {
    if q != [] {
      SharesSum(q[..|q| - 1], total, p[..|p| - 1]);
    }
  }

  lemma DecodeIsDistribution(p: seq<real>, scale: nat, q: seq<int>)
    requires 0 < scale && Quantised(p, scale, q) && |q| == |p| > 0
    ensures Distribution(Decode(q))
  {
    QuantaFit(p, scale, q);
    SharesSum(q, scale, Decode(q));
    WholeQuotient(scale, scale);
    forall i | 0 <= i < |q|
      ensures 0.0 <= Decode(q)[i]
    {
      NonNegativeQuotient(q[i], scale);
    }
  }

  lemma {:induction false} UniformSum(p: seq<real>, x: real)
    requires forall i :: 0 <= i < |p| ==> p[i] == x
    ensures RealSum(p) == |p| as real * x
  {
    if p != [] {
      UniformSum(p[..|p| - 1], x);
    }
  }

  lemma ZeroIsUniform(q: seq<int>)
    requires q != [] && Sum(q) == 0
    ensures Distribution(Decode(q)) && forall i, j :: 0 <= i < |q| && 0 <= j < |q| ==> Decode(q)[i] == Decode(q)[j]
  {
    hide RealSum, Sum;
    UniformSum(Decode(q), 1.0 / |q| as real);
    WholeOfParts(|q|);
    PartIsPositive(|q|);
  }

  lemma WholeOfParts(n: nat)
    requires 0 < n
    ensures n as real * (1.0 / n as real) == 1.0
  {
  }

  lemma PartIsPositive(n: nat)
    requires 0 < n
    ensures 0.0 <= 1.0 / n as real
  {
  }

  lemma SharesAreDistributed(q: seq<int>)
    requires q != [] && 0 < Sum(q) && forall k :: 0 <= k < |q| ==> 0 <= q[k]
    ensures Distribution(Decode(q))
    ensures forall i :: 0 <= i < |q| ==> Decode(q)[i] == q[i] as real / Sum(q) as real
  {
    SharesSum(q, Sum(q), Decode(q));
    WholeQuotient(Sum(q), Sum(q));
    forall k | 0 <= k < |q|
      ensures 0.0 <= Decode(q)[k]
    {
      NonNegativeQuotient(q[k], Sum(q));
    }
  }

  /** Whatever quanta are read, the policy is a distribution in their proportions, an even one if none is positive. */
  lemma AnyDecodeIsDistribution(q: seq<int>, i: nat, j: nat)
    requires q != [] && forall k :: 0 <= k < |q| ==> 0 <= q[k]
    requires i < |q| && j < |q|
    ensures Distribution(Decode(q)) && (q[i] == q[j] ==> Decode(q)[i] == Decode(q)[j])
    ensures Decode(q)[i] * (Sum(q) as real) == q[i] as real
  {
    hide Decode, Distribution, Sum;
    SumNonNegative(q);
    if Sum(q) == 0 {
      ZeroIsUniform(q);
    } else {
      SharesAreDistributed(q);
      WholeQuotient(q[i], Sum(q));
    }
  }

  lemma WholeQuotient(q: int, scale: nat)
    requires 0 < scale
    ensures (q as real / scale as real) * (scale as real) == q as real
    ensures q == scale ==> q as real / scale as real == 1.0
  {
  }

  lemma NonNegativeQuotient(q: int, scale: nat)
    requires 0 <= q && 0 < scale
    ensures 0.0 <= q as real / scale as real
  {
  }

  lemma WholeShare(q: int, scale: nat)
    requires 0 <= q && 0 < scale
    ensures Whole(q as real / scale as real, scale) == q
  {
    NonNegativeQuotient(q, scale);
    WholeQuotient(q, scale);
  }

  /** Quantising what was decoded gives the same quanta: nothing drifts when an artifact is written again. */
  lemma Requantises(q: seq<int>, scale: nat, r: seq<int>)
    requires 0 < scale && q != [] && Sum(q) == scale && forall i :: 0 <= i < |q| ==> 0 <= q[i]
    requires Quantised(Decode(q), scale, r)
    ensures r == q
  {
    var p := Decode(q);
    var bumped :| Bumped(p, scale, r, bumped) && Largest(p, scale, bumped);
    forall i | 0 <= i < |q|
      ensures Whole(p[i], scale) == q[i]
    {
      WholeShare(q[i], scale);
    }
    assert Wholes(p, scale) == q;
    BumpedSum(p, scale, r, bumped);
    NoneBumped(bumped);
  }

  lemma {:induction false} NoneBumped(bumped: seq<bool>)
    requires CountTrue(bumped) == 0
    ensures forall i :: 0 <= i < |bumped| ==> !bumped[i]
  {
    if bumped != [] {
      NoneBumped(bumped[..|bumped| - 1]);
      forall i | 0 <= i < |bumped|
        ensures !bumped[i]
      {
        if i < |bumped| - 1 {
          assert !bumped[..|bumped| - 1][i];
        }
      }
    }
  }
}
