/**
 Discounting on a time schedule: which events are due, and the scale they leave.
 */
module Discounts {
  import opened Arenas
  import opened Stores

  const U64_MAX := 0xFFFF_FFFF_FFFF_FFFF

  // ----- multiples -----

  lemma {:induction false} MultipleGap(p: nat, q: nat, every: nat)
    requires p < q
    ensures p * every + every <= q * every
    decreases q
  {
    assert q * every == (q - 1) * every + every;
    if p < q - 1 {
      MultipleGap(p, q - 1, every);
    }
  }

  /** How often an interval fits, compared with a multiple of it. */
  lemma FitsUpTo(q: nat, every: nat, t: nat)
    requires 0 < every
    ensures q * every <= t <==> q <= t / every
  {
    var d := t / every;
    assert d * every <= t < d * every + every;
    if d < q {
      MultipleGap(d, q, every);
    } else if q < d {
      MultipleGap(q, d, every);
    }
  }

  lemma DivideMonotone(s: nat, t: nat, every: nat)
    requires 0 < every && s <= t
    ensures s / every <= t / every
  {
    var d := s / every;
    assert d * every <= s;
    FitsUpTo(d, every, t);
  }

  // ----- when events fall -----

  /** The part of the elapsed time in which events are due; a stop of 0 means none. */
  function Limit(t: nat, stop: nat): nat {
    if stop == 0 || t <= stop then t else stop
  }

  /** How many events are due by time t. */
  function Due(t: nat, every: nat, stop: nat): nat
    requires 0 < every
  {
    Limit(t, stop) / every
  }

  lemma DueMonotone(s: nat, t: nat, every: nat, stop: nat)
    requires 0 < every && s <= t
    ensures Due(s, every, stop) <= Due(t, every, stop)
  {
    DivideMonotone(Limit(s, stop), Limit(t, stop), every);
  }

  lemma DueIs(m: nat, t: nat, every: nat, stop: nat)
    requires 0 < every
    ensures m <= Due(t, every, stop) <==> m * every <= t && (stop == 0 || m * every <= stop)
  {
    FitsUpTo(m, every, Limit(t, stop));
  }

  /** The factor of the k-th event. */
  function Factor(k: nat, scale: real): real
    requires 0 < k && 0.0 <= scale
  {
    k as real / (k as real + scale)
  }

  /** The store's scale after k events. */
  function ScaleAfter(k: nat, scale: real): real
    requires 0.0 <= scale
  {
    if k == 0 then 1.0 else NextScale(ScaleAfter(k - 1, scale), Factor(k, scale))
  }

  lemma Reciprocals(x: real, y: real)
    requires 0.0 < x && 0.0 < y
    ensures x <= y <==> 1.0 / y <= 1.0 / x
  {
    var u, v := 1.0 / x, 1.0 / y;
    assert u * x == 1.0 && v * y == 1.0;
    assert u - v == u * v * (y - x) by {
      assert u * v * (y - x) == u * (v * y) - v * (u * x);
    }
    assert 0.0 < u * v;
  }

  lemma {:induction false} ScaleAtLimit(k: nat, scale: real)
    requires 0.0 <= scale
    ensures RESCALE_BELOW <= ScaleAfter(k, scale)
  {
    if k > 0 {
      ScaleAtLimit(k - 1, scale);
      NextAtLimit(ScaleAfter(k - 1, scale), Factor(k, scale));
      hide NextScale, Factor;
    }
  }

  lemma NextAtLimit(x: real, factor: real)
    requires RESCALE_BELOW <= x
    ensures RESCALE_BELOW <= NextScale(x, factor)
  {
  }

  // ----- any whole discount scale -----

  /** Pascal's rule: in how many ways n steps of one kind and c of another can be ordered. */
  function Ways(n: nat, c: nat): (w: nat)
    ensures 1 <= w
  {
    if n == 0 || c == 0 then 1 else Ways(n - 1, c) + Ways(n, c - 1)
  }

  lemma {:induction false} WaysRatio(n: nat, c: nat)
    ensures 0 < n ==> Ways(n, c) * n == Ways(n - 1, c) * (n + c)
    ensures 0 < c ==> Ways(n, c) * c == Ways(n, c - 1) * (n + c)
    decreases n + c
  {
    if 0 < n && 0 < c {
      var a, b := Ways(n - 1, c), Ways(n, c - 1);
      WaysRatio(n, c - 1);
      WaysRatio(n - 1, c);
      assert b * n == a * c;
      Distribute(a, b, n, c);
    }
  }

  lemma Distribute(a: nat, b: nat, n: nat, c: nat)
    requires b * n == a * c
    ensures (a + b) * n == a * (n + c) && (a + b) * c == b * (n + c)
  {
  }

  lemma NextInverse(w: nat, v: nat, k: nat, c: nat)
    requires 0 < k && 0 < w && 0 < v && v * k == w * (k + c)
    ensures (1.0 / w as real) * Factor(k, c as real) == 1.0 / v as real
  {
    var x, y, p, q := w as real, v as real, k as real, (k + c) as real;
    assert y * p == x * q by {
      assert (v * k) as real == y * p && (w * (k + c)) as real == x * q;
    }
    assert Factor(k, c as real) == p / q;
    InverseProduct(x, y, p, q);
  }

  lemma InverseProduct(x: real, y: real, p: real, q: real)
    requires 0.0 < x && 0.0 < y && 0.0 < p && 0.0 < q && y * p == x * q
    ensures (1.0 / x) * (p / q) == 1.0 / y
  {
    var u, f := 1.0 / x, p / q;
    assert u * x == 1.0 && f * q == p;
    assert (u * f) * y == 1.0 by {
      assert p == f * q;
      assert y * f * q == x * q;
      assert y * f == x;
    }
  }

  lemma WaysLimit(w: nat)
    requires 0 < w
    ensures RESCALE_BELOW <= 1.0 / w as real <==> w <= 1_000_000_000_000
  {
    Reciprocals(w as real, 1_000_000_000_000.0);
  }

  lemma EventDivides(w: nat, v: nat, k: nat, c: nat)
    requires 0 < k && 0 < w && 0 < v <= 1_000_000_000_000 && v * k == w * (k + c) && (c == 0 ==> v == w)
    ensures NextScale(1.0 / w as real, Factor(k, c as real)) == 1.0 / v as real
  {
    NextInverse(w, v, k, c);
    WaysLimit(v);
    FactorBounds(k, c);
    hide Factor;
    assert 0.0 < 1.0 / w as real;
  }

  lemma FactorBounds(k: nat, c: nat)
    requires 0 < k
    ensures if c == 0 then Factor(k, c as real) == 1.0 else 0.0 < Factor(k, c as real) < 1.0
  {
  }

  lemma {:induction false} ScaleUpTo(n: nat, c: nat)
    requires Ways(n, c) <= 1_000_000_000_000
    ensures ScaleAfter(n, c as real) == 1.0 / Ways(n, c) as real
  {
    hide NextScale, Factor;
    if n > 0 {
      WaysRatio(n, c);
      WaysGrow(n, c);
      ScaleUpTo(n - 1, c);
      EventDivides(Ways(n - 1, c), Ways(n, c), n, c);
    }
  }

  lemma WaysGrow(n: nat, c: nat)
    requires 0 < n
    ensures Ways(n - 1, c) <= Ways(n, c)
  {
  }

  /**
   With a whole discount scale c the store's scale after n events is one over the
   number of ways to order n events and c others, if and only if that is at most 10^12.
   */
  lemma WholeScale(n: nat, c: nat)
    ensures ScaleAfter(n, c as real) == 1.0 / Ways(n, c) as real <==> Ways(n, c) <= 1_000_000_000_000
  {
    WaysLimit(Ways(n, c));
    if Ways(n, c) <= 1_000_000_000_000 {
      ScaleUpTo(n, c);
    } else {
      ScaleAtLimit(n, c as real);
    }
  }

  lemma {:induction false} WaysOfOne(n: nat)
    ensures Ways(n, 1) == n + 1
  {
    if n > 0 {
      WaysOfOne(n - 1);
    }
  }

  /** With scale 1 the store's scale after n events is 1/(n + 1), if and only if it never had to start over. */
  lemma LinearScale(n: nat)
    ensures ScaleAfter(n, 1.0) == 1.0 / (n as real + 1.0) <==> n <= 999_999_999_999
  {
    WaysOfOne(n);
    WholeScale(n, 1);
  }

  class Schedule {
    const every: nat
    const stop: nat
    const scale: real
    var next: nat
    var events: nat
    var lazy: real

    /** After the time `before` every event due has happened, and none is skipped by what comes next. */
    ghost predicate InStep(before: nat)
      reads this
    {
      && 0 < every && 0.0 <= scale
      && events == Due(before, every, stop) && lazy == ScaleAfter(events, scale)
      && (next == 0 || exists m :: 1 <= m <= events + 1 && next == m * every)
    }

    constructor (every: nat, stop: nat, scale: real)
      requires 0 < every && 0.0 <= scale
      ensures InStep(0) && this.every == every && this.stop == stop && this.scale == scale
    {
      this.every, this.stop, this.scale := every, stop, scale;
      next, events, lazy := 0, 0, 1.0;
    }

    method ApplyEvent()
      requires 0.0 <= scale
      modifies this`events, this`lazy
      ensures events == old(events) + 1 && lazy == NextScale(old(lazy), Factor(events, scale))
    {
      events := events + 1;
      var factor := Factor(events, scale);
      if factor <= 0.0 || factor >= 1.0 {
        return;
      }
      lazy := Mark(lazy) * factor;
      if lazy < RESCALE_BELOW {
        lazy := 1.0;
      }
    }

    /**
     Applies the events between two elapsed times. However the time up to `after`
     was cut into chunks, the events so far are those due by `after`.
     */
    method ApplyEvents(before: nat, after: nat)
      requires InStep(before) && before <= after <= U64_MAX && every <= U64_MAX
      modifies this`next, this`events, this`lazy
      ensures InStep(after)
    {
      ghost var m := 1;
      if next == 0 {
        next := every;
      } else {
        m :| 1 <= m <= events + 1 && next == m * every;
      }
      ghost var due := Due(before, every, stop);
      DueMonotone(before, after, every, stop);
      while 0 < next && next <= after && (stop == 0 || next <= stop)
        invariant 1 <= m <= Due(after, every, stop) + 1
        invariant next == 0 || next == m * every
        invariant next == 0 ==> m == Due(after, every, stop) + 1
        invariant events == if m - 1 > due then m - 1 else due
        invariant lazy == ScaleAfter(events, scale)
        decreases if next == 0 then 0 else 1, Due(after, every, stop) + 1 - m
      {
        DueIs(m, after, every, stop);
        DueIs(m, before, every, stop);
        if next > before {
          ApplyEvent();
        }
        assert (m + 1) * every == m * every + every;
        if U64_MAX - next < every {
          DueIs(m + 1, after, every, stop);
          next := 0;
        } else {
          next := next + every;
        }
        m := m + 1;
      }
      DueIs(m, after, every, stop);
    }
  }
}
