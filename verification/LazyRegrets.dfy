/**
 What lazy discounting does to regrets. They are integers, so each time a node
 catches up its regrets are rounded, and how a run of discounts lands on them
 depends on when they are looked up. How far that can drift: against discounting
 every regret at every event without rounding, by half a unit per operation.
 */
module LazyRegrets {
  import opened Options
  import opened Arenas
  import opened Stores
  import opened LazySums

  type Regrets = seq<real>

  /** Unrounded regrets of a store and its base, every discount applied at once. */
  datatype Exact = Exact(own: map<Key, Regrets>, base: Option<map<Key, Regrets>>)

  function ExtendedRegrets(x: Regrets, n: nat): Regrets {
    if n <= |x| then x else x + RealZeros(n - |x|)
  }

  ghost function ExactWanted(e: Exact, key: Key, n: nat): map<Key, Regrets> {
    e.own[key := if key in e.own then ExtendedRegrets(e.own[key], n)
                 else if e.base.Some? && key in e.base.value then ExtendedRegrets(e.base.value[key], n)
                 else RealZeros(n)]
  }

  ghost function ExactPut(own: map<Key, Regrets>, key: Key, a: nat, v: int): map<Key, Regrets> {
    if key in own && a < |own[key]| then own[key := own[key][a := v as real]] else own
  }

  ghost function ExactDiscounted(own: map<Key, Regrets>, factor: real): (r: map<Key, Regrets>)
    ensures 0.0 < factor < 1.0 ==> r.Keys == own.Keys && forall k :: k in own ==> r[k] == AllTimes(own[k], factor)
  {
    if 0.0 < factor < 1.0 then map k | k in own :: AllTimes(own[k], factor) else own
  }

  ghost function RawRegrets(f: Flat): (m: map<Key, Regrets>)
    ensures m.Keys == f.entries.Keys
    ensures forall k :: k in m ==>
              |m[k]| == |f.entries[k].regrets| &&
              forall a :: 0 <= a < |m[k]| ==> m[k][a] == Due(f.entries[k], f.scale, a)
  {
    map k | k in f.entries ::
      seq(|f.entries[k].regrets|, a requires 0 <= a < |f.entries[k].regrets| => Due(f.entries[k], f.scale, a))
  }

  ghost function Exactly(e: Exact, op: Op): Exact
    requires OkOp(op)
  {
    match op
    case Want(key, actions, street) => e.(own := ExactWanted(e, key, ClampActions(actions)))
    case Look(key) => e
    case PutRegret(key, a, v) => e.(own := ExactPut(e.own, key, a, v))
    case PutStrategy(key, a, x) => e
    case Discount(factor) => e.(own := ExactDiscounted(e.own, factor))
    case Clear => Exact(map[], None)
    case Attach(to) => Exact(map[], Some(RawRegrets(Flatten(to))))
  }

  ghost function RunExactly(e: Exact, ops: seq<Op>): Exact
    requires OkOps(ops)
  {
    if ops == [] then e else Exactly(RunExactly(e, ops[..|ops| - 1]), ops[|ops| - 1])
  }

  // ----- how far the stored regrets are off -----

  /** The regret with its pending discount, before rounding. */
  function Due(p: Payload, scale: real, a: nat): real
    requires a < |p.regrets|
  {
    p.regrets[a] as real * Ratio(scale, p.stamp)
  }

  predicate Near(x: real, y: real, slack: real) {
    -slack <= x - y <= slack
  }

  ghost predicate EntryNear(p: Payload, scale: real, e: Regrets, slack: real) {
    |p.regrets| == |e| && forall a :: 0 <= a < |e| ==> Near(Due(p, scale, a), e[a], slack)
  }

  ghost predicate MapNear(f: Flat, e: map<Key, Regrets>, slack: real) {
    f.entries.Keys == e.Keys && forall k :: k in e ==> EntryNear(f.entries[k], f.scale, e[k], slack)
  }

  ghost predicate AllNear(o: FlatOverlay, e: Exact, slack: real) {
    && MapNear(o.own, e.own, slack)
    && o.base.Some? == e.base.Some? && (o.base.Some? ==> MapNear(o.base.value, e.base.value, slack))
  }

  /** A regret, like a sum, is only written right after its key was looked up. */
  ghost predicate CarefulRegret(f: Flat, op: Op) {
    match op
    case Discount(factor) => !MustRescale(f.scale, factor)
    case PutRegret(key, a, v) => key in f.entries ==> Mark(f.entries[key].stamp) == Mark(f.scale)
    case _ => true
  }

  ghost predicate AllCarefulRegrets(o: FlatOverlay, ops: seq<Op>)
    requires WholeOverlay(o) && OkOps(ops)
  {
    ops != [] ==>
      && AllCarefulRegrets(o, ops[..|ops| - 1])
      && CarefulRegret(RunFlat(o, ops[..|ops| - 1]).own, ops[|ops| - 1])
  }

  const HALF := 0.5

  lemma RoundIsNear(x: real)
    ensures Near(Round(x) as real, x, HALF)
  {
  }

  lemma NearTwice(x: real, y: real, z: real, r: real, s: real)
    requires Near(x, y, r) && Near(y, z, s)
    ensures Near(x, z, s + r)
  {
  }

  lemma RoundedNear(x: real, y: real, slack: real)
    requires Near(x, y, slack)
    ensures Near(Round(x) as real, y, slack + HALF)
  {
    RoundIsNear(x);
    NearTwice(Round(x) as real, x, y, HALF, slack);
  }

  lemma ShrunkNear(x: real, y: real, slack: real, factor: real)
    requires Near(x, y, slack) && 0.0 < factor < 1.0 && 0.0 <= slack
    ensures Near(Times(x, factor), Times(y, factor), slack)
  {
    var d := x - y;
    assert Times(x, factor) - Times(y, factor) == d * factor;
    if d >= 0.0 {
      assert 0.0 <= d * factor <= d;
    } else {
      assert d <= d * factor <= 0.0;
    }
  }

  lemma DueNow(p: Payload, scale: real, a: nat)
    requires a < |p.regrets| && Mark(p.stamp) == Mark(scale)
    ensures Due(p, scale, a) == p.regrets[a] as real
  {
    NothingPending(scale, p.stamp);
  }

  lemma ReadNear(p: Payload, scale: real, e: Regrets, slack: real, a: nat)
    requires EntryNear(p, scale, e, slack) && a < |p.regrets|
    ensures Near(Current(p, scale).regrets[a] as real, e[a], slack + HALF)
  {
    hide Ratio, Current, Near;
    RegretNow(p, scale, a);
    var x := p.regrets[a] as real * Ratio(scale, p.stamp);
    assert Due(p, scale, a) == x;
    RoundedNear(x, e[a], slack);
  }

  /** Catching up rounds once. */
  lemma CurrentNear(p: Payload, scale: real, e: Regrets, slack: real)
    requires EntryNear(p, scale, e, slack)
    ensures EntryNear(Current(p, scale), scale, e, slack + HALF)
  {
    var q := Current(p, scale);
    forall a | 0 <= a < |e|
      ensures Near(Due(q, scale, a), e[a], slack + HALF)
    {
      DueNow(q, scale, a);
      ReadNear(p, scale, e, slack, a);
    }
  }

  lemma ExtendedNear(p: Payload, scale: real, e: Regrets, n: nat, slack: real)
    requires EntryNear(p, scale, e, slack) && WholePayload(p) && 0.0 <= slack
    ensures EntryNear(Extended(p, n), scale, ExtendedRegrets(e, n), slack)
  {
    var q, x := Extended(p, n), ExtendedRegrets(e, n);
    forall a | 0 <= a < |x|
      ensures Near(Due(q, scale, a), x[a], slack)
    {
      if a < |e| {
        assert Near(Due(p, scale, a), e[a], slack);
      } else {
        assert 0 as real * Ratio(scale, q.stamp) == 0.0;
      }
    }
  }

  lemma MoreSlack(f: Flat, e: map<Key, Regrets>, slack: real)
    requires MapNear(f, e, slack)
    ensures MapNear(f, e, slack + HALF)
  {
    forall k | k in e
      ensures EntryNear(f.entries[k], f.scale, e[k], slack + HALF)
    {
      assert EntryNear(f.entries[k], f.scale, e[k], slack);
      forall a | 0 <= a < |e[k]|
        ensures Near(Due(f.entries[k], f.scale, a), e[k][a], slack + HALF)
      {
        assert Near(Due(f.entries[k], f.scale, a), e[k][a], slack);
      }
    }
  }

  /** One key of a map changes. */
  lemma UpdateNear(f: Flat, e: map<Key, Regrets>, key: Key, p: Payload, x: Regrets, slack: real)
    requires MapNear(f, e, slack) && EntryNear(p, f.scale, x, slack + HALF)
    ensures MapNear(f.(entries := f.entries[key := p]), e[key := x], slack + HALF)
  {
    MoreSlack(f, e, slack);
  }

  lemma LookNear(f: Flat, e: map<Key, Regrets>, key: Key, slack: real)
    requires MapNear(f, e, slack)
    ensures MapNear(FlatLooked(f, key), e, slack + HALF)
  {
    MoreSlack(f, e, slack);
    if key in f.entries {
      CurrentNear(f.entries[key], f.scale, e[key], slack);
      UpdateNear(f, e, key, Current(f.entries[key], f.scale), e[key], slack);
      assert e[key := e[key]] == e;
    }
  }

  /** A payload that reads as it is may be stamped for another store's scale. */
  lemma RestampedNear(p: Payload, scale: real, to: real, e: Regrets, slack: real)
    requires EntryNear(p, scale, e, slack) && Mark(p.stamp) == Mark(scale)
    ensures EntryNear(p.(stamp := Mark(to)), to, e, slack)
  {
    forall a | 0 <= a < |e|
      ensures Near(Due(p.(stamp := Mark(to)), to, a), e[a], slack)
    {
      DueNow(p, scale, a);
      DueNow(p.(stamp := Mark(to)), to, a);
      assert Near(Due(p, scale, a), e[a], slack);
    }
  }

  lemma BlankNear(n: nat, street: int, omitPostflop: bool, scale: real, slack: real)
    requires 0.0 <= slack
    ensures EntryNear(Blank(n, street, omitPostflop, Mark(scale)), scale, RealZeros(n), slack)
  {
    forall a | 0 <= a < n
      ensures Near(Due(Blank(n, street, omitPostflop, Mark(scale)), scale, a), 0.0, slack)
    {
      DueNow(Blank(n, street, omitPostflop, Mark(scale)), scale, a);
    }
  }

  lemma WantEntryNear(o: FlatOverlay, e: Exact, key: Key, n: nat, street: int, slack: real)
    requires WholeOverlay(o) && AllNear(o, e, slack) && n <= MAX_ACTIONS && 0.0 <= slack
    ensures EntryNear(FlatWanted(o.own, o.base, key, n, street).entries[key], o.own.scale,
                      ExactWanted(e, key, n)[key], slack + HALF)
  {
    if key in o.own.entries {
      var p := o.own.entries[key];
      CurrentNear(p, o.own.scale, e.own[key], slack);
      ExtendedNear(Current(p, o.own.scale), o.own.scale, e.own[key], n, slack + HALF);
    } else if o.base.Some? && key in o.base.value.entries {
      var p, scale := o.base.value.entries[key], o.base.value.scale;
      CurrentNear(p, scale, e.base.value[key], slack);
      ExtendedNear(Current(p, scale), scale, e.base.value[key], n, slack + HALF);
      RestampedNear(Extended(Current(p, scale), n), scale, o.own.scale, ExtendedRegrets(e.base.value[key], n),
                    slack + HALF);
    } else {
      BlankNear(n, street, o.own.omitPostflop, o.own.scale, slack + HALF);
    }
  }

  lemma WantNear(o: FlatOverlay, e: Exact, key: Key, n: nat, street: int, slack: real)
    requires WholeOverlay(o) && AllNear(o, e, slack) && n <= MAX_ACTIONS && 0.0 <= slack
    ensures MapNear(FlatWanted(o.own, o.base, key, n, street), ExactWanted(e, key, n), slack + HALF)
  {
    WantEntryNear(o, e, key, n, street, slack);
    UpdateNear(o.own, e.own, key, FlatWanted(o.own, o.base, key, n, street).entries[key],
               ExactWanted(e, key, n)[key], slack);
  }

  lemma PutNear(f: Flat, e: map<Key, Regrets>, key: Key, a: nat, v: int, slack: real)
    requires MapNear(f, e, slack) && CarefulRegret(f, PutRegret(key, a, v)) && 0.0 <= slack
    ensures MapNear(FlatPutRegret(f, key, a, v), ExactPut(e, key, a, v), slack + HALF)
  {
    MoreSlack(f, e, slack);
    if key in e {
      assert EntryNear(f.entries[key], f.scale, e[key], slack);
      if a < |e[key]| {
        var p, x := f.entries[key].(regrets := f.entries[key].regrets[a := v]), e[key][a := v as real];
        forall b | 0 <= b < |x|
          ensures Near(Due(p, f.scale, b), x[b], slack + HALF)
        {
          DueNow(p, f.scale, b);
          DueNow(f.entries[key], f.scale, b);
          assert Near(Due(f.entries[key], f.scale, b), e[key][b], slack);
        }
        UpdateNear(f, e, key, p, x, slack);
      }
    }
  }

  lemma PutStrategyNear(f: Flat, e: map<Key, Regrets>, key: Key, a: nat, x: real, slack: real)
    requires WholeFlat(f) && MapNear(f, e, slack)
    ensures MapNear(FlatPutStrategy(f, key, a, x), e, slack + HALF)
  {
    MoreSlack(f, e, slack);
    var r := FlatPutStrategy(f, key, a, x);
    forall k | k in e
      ensures EntryNear(r.entries[k], r.scale, e[k], slack + HALF)
    {
      assert EntryNear(f.entries[k], f.scale, e[k], slack + HALF);
      forall b | 0 <= b < |e[k]|
        ensures Near(Due(r.entries[k], r.scale, b), e[k][b], slack + HALF)
      {
        assert Near(Due(f.entries[k], f.scale, b), e[k][b], slack + HALF);
      }
    }
  }

  lemma DueLater(p: Payload, scale: real, factor: real, a: nat)
    requires a < |p.regrets| && 0.0 < factor < 1.0
    ensures Due(p, Lowered(scale, factor), a) == Times(Due(p, scale, a), factor)
  {
    LoweredIs(scale, factor);
    ScaledLater(p.regrets[a] as real, Mark(scale), Mark(p.stamp), factor);
  }

  lemma DiscountNear(f: Flat, e: map<Key, Regrets>, factor: real, slack: real)
    requires MapNear(f, e, slack) && !MustRescale(f.scale, factor) && 0.0 <= slack
    ensures MapNear(FlatDiscounted(f, factor), ExactDiscounted(e, factor), slack + HALF)
  {
    if 0.0 < factor < 1.0 {
      var r, x := FlatDiscounted(f, factor), ExactDiscounted(e, factor);
      forall k | k in x
        ensures EntryNear(r.entries[k], r.scale, x[k], slack)
      {
        assert EntryNear(f.entries[k], f.scale, e[k], slack);
        forall a | 0 <= a < |x[k]|
          ensures Near(Due(r.entries[k], r.scale, a), x[k][a], slack)
        {
          DueLater(f.entries[k], f.scale, factor, a);
          ShrunkNear(Due(f.entries[k], f.scale, a), e[k][a], slack, factor);
        }
      }
      MoreSlack(r, x, slack);
    } else {
      MoreSlack(f, e, slack);
    }
  }

  lemma RawIsNear(f: Flat, slack: real)
    requires 0.0 <= slack
    ensures MapNear(f, RawRegrets(f), slack)
  {
    forall k | k in f.entries
      ensures EntryNear(f.entries[k], f.scale, RawRegrets(f)[k], slack)
    {
    }
  }

  lemma NothingNear(omitPostflop: bool, slack: real)
    ensures MapNear(FlatReset(omitPostflop), map[], slack)
  {
  }

  lemma StepNear(o: FlatOverlay, e: Exact, op: Op, slack: real)
    requires WholeOverlay(o) && OkOp(op) && CarefulRegret(o.own, op) && AllNear(o, e, slack) && 0.0 <= slack
    ensures AllNear(ApplyFlat(o, op), Exactly(e, op), slack + HALF)
  {
    hide MapNear, FlatWanted, FlatPutRegret, FlatPutStrategy, FlatLooked, FlatDiscounted;
    MoreSlack(o.own, e.own, slack);
    if o.base.Some? {
      MoreSlack(o.base.value, e.base.value, slack);
    }
    match op {
      case Want(key, actions, street) => WantNear(o, e, key, ClampActions(actions), street, slack);
      case Look(key) =>
        LookNear(o.own, e.own, key, slack);
        if o.base.Some? {
          LookNear(o.base.value, e.base.value, key, slack);
        }
      case PutRegret(key, a, v) => PutNear(o.own, e.own, key, a, v, slack);
      case PutStrategy(key, a, x) => PutStrategyNear(o.own, e.own, key, a, x, slack);
      case Discount(factor) => DiscountNear(o.own, e.own, factor, slack);
      case Clear => NothingNear(o.own.omitPostflop, slack + HALF);
      case Attach(to) =>
        NothingNear(to.omitPostflop, slack + HALF);
        RawIsNear(Flatten(to), slack + HALF);
    }
  }

  /** Half a unit for each operation so far. */
  function Slack(n: nat): real {
    n as real * HALF
  }

  lemma {:induction false} RunNear(o: FlatOverlay, e: Exact, ops: seq<Op>)
    requires WholeOverlay(o) && OkOps(ops) && AllCarefulRegrets(o, ops) && AllNear(o, e, 0.0)
    ensures AllNear(RunFlat(o, ops), RunExactly(e, ops), Slack(|ops|))
  {
    if ops != [] {
      var n := |ops| - 1;
      RunNear(o, e, ops[..n]);
      StepNear(RunFlat(o, ops[..n]), RunExactly(e, ops[..n]), ops[n], Slack(n));
    }
  }

  /** Over any careful run of n operations, a regret reads within (n + 1) / 2 of the exact one. */
  lemma RegretsStayNear(o: FlatOverlay, e: Exact, ops: seq<Op>, key: Key, a: nat)
    requires WholeOverlay(o) && OkOps(ops) && AllCarefulRegrets(o, ops) && AllNear(o, e, 0.0)
    requires key in RunFlat(o, ops).own.entries && a < |RunFlat(o, ops).own.entries[key].regrets|
    ensures key in RunExactly(e, ops).own && a < |RunExactly(e, ops).own[key]|
    ensures Near(FlatRead(RunFlat(o, ops).own, key).value.regrets[a] as real,
                 RunExactly(e, ops).own[key][a], Slack(|ops| + 1))
  {
    hide RunFlat, RunExactly, Near, Current;
    RunNear(o, e, ops);
    var f, x := RunFlat(o, ops).own, RunExactly(e, ops).own;
    ReadNear(f.entries[key], f.scale, x[key], Slack(|ops|), a);
  }

  /** The drift is real: a regret of 1, halved twice, reads 0 at the end but 1 if it was looked up in between. */
  lemma LookingChangesRegrets(p: Payload)
    requires p.regrets == [1] && p.stamp == 1.0
    ensures Current(p, 0.25).regrets == [0] && Current(Current(p, 0.5), 0.25).regrets == [1]
  {
    assert Round(1 as real * (0.25 / 1.0)) == 0;
    assert Round(1 as real * (0.5 / 1.0)) == 1;
    var q := Current(p, 0.5);
    assert q.regrets[0] == 1 && q.stamp == 0.5;
    assert Round(1 as real * (0.25 / 0.5)) == 1;
  }
}
