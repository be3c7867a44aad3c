/**
 Where the round trip starts from: workers that trained on an overlay of the base
 are as the merge wants them. And what it loses: concrete runs on which a
 worker's regret or strategy sum does not come back.
 */
module RoundTrips {
  import opened Options
  import opened Sequences
  import opened Arenas
  import opened Stores
  import opened Merges
  import opened Deltas
  import opened Overlays

  // ----- what training leaves -----

  /** Operations of one training task: the overlay is not reset or attached elsewhere. */
  ghost predicate Training(ops: seq<Op>) {
    OkOps(ops) && forall i :: 0 <= i < |ops| ==> !ops[i].Clear? && !ops[i].Attach?
  }

  /** A worker's store, whatever it held, attached to the base and trained. */
  ghost function Trainee(s: Store, base: Store, ops: seq<Op>): (o: Overlay)
    requires Ok(s) && Ok(base) && Training(ops)
    ensures OkOverlay(o)
  {
    Run(Overlay(s, None), [Attach(base)] + ops)
  }

  lemma {:induction false} TraineeNext(s: Store, base: Store, ops: seq<Op>)
    requires Ok(s) && Ok(base) && Training(ops)
    ensures ops == [] ==> Trainee(s, base, ops) == Apply(Overlay(s, None), Attach(base))
    ensures ops != [] ==>
              Training(ops[..|ops| - 1]) &&
              Trainee(s, base, ops) == Apply(Trainee(s, base, ops[..|ops| - 1]), ops[|ops| - 1])
  {
    hide Apply, Ok;
    var all := [Attach(base)] + ops;
    if ops == [] {
      assert all == [Attach(base)] && all[..0] == [];
      assert Run(Overlay(s, None), []) == Overlay(s, None);
    } else {
      assert all[..|all| - 1] == [Attach(base)] + ops[..|ops| - 1];
    }
  }

  /** Training moves nothing in the base. */
  lemma {:induction false} BaseStaysInShape(s: Store, base: Store, ops: seq<Op>)
    requires Ok(s) && Ok(base) && Training(ops)
    ensures Trainee(s, base, ops).base.Some? && Shaped(base, Trainee(s, base, ops).base.value)
  {
    TraineeNext(s, base, ops);
    if ops != [] {
      BaseStaysInShape(s, base, ops[..|ops| - 1]);
    }
  }

  /** Two tables with the same keys at the same places link alike. */
  lemma LinksAlike(s: Store, base: Store, later: Store)
    requires LinksTrue(s, base.nodes) && Shaped(base, later)
    ensures LinksTrue(s, later.nodes)
  {
    forall i | 0 <= i < |s.nodes|
      ensures Find(later.nodes, s.nodes[i].key) == Find(base.nodes, s.nodes[i].key)
    {
      ShapedFind(base, later, s.nodes[i].key);
    }
  }

  lemma TraineeIsLinked(s: Store, base: Store, ops: seq<Op>, later: Store)
    requires Ok(s) && Ok(base) && Training(ops) && Shaped(base, later)
    ensures var w := Trainee(s, base, ops).own; Ok(w) && LinksTrue(w, later.nodes)
  {
    var o := Trainee(s, base, ops);
    RunsKeepLinks(Overlay(s, None), [Attach(base)] + ops);
    BaseStaysInShape(s, base, ops);
    LinksAlike(o.own, o.base.value, base);
    LinksAlike(o.own, base, later);
  }

  /**
   Workers that trained on overlays of a base, each through any operations, are
   trained workers of the base as their reads left it.
   */
  lemma TrainedByRuns(base: Store, later: Store, workers: seq<Worker>, starts: seq<Store>, runs: seq<seq<Op>>)
    requires Ok(base) && Shaped(base, later) && |starts| == |runs| == |workers|
    requires forall i :: 0 <= i < |workers| ==> Ok(starts[i]) && Training(runs[i])
    requires forall i :: 0 <= i < |workers| ==> workers[i].delta == Trainee(starts[i], base, runs[i]).own
    requires forall i :: 0 <= i < |workers| ==> Distinct(workers[i].touched)
    requires forall i :: 0 <= i < |workers| ==> RoomInBase(later.nodes, workers[i].delta)
    ensures Trained(later, workers)
  {
    ShapedOk(base, later);
    forall i | 0 <= i < |workers|
      ensures Ok(workers[i].delta) && LinksTrue(workers[i].delta, later.nodes)
    {
      TraineeIsLinked(starts[i], base, runs[i], later);
    }
  }

  // ----- what the round trip loses -----

  const KEY := 7

  function Empty(): Store {
    Store([], [], [], false, 1.0)
  }

  /** Operations leaving one key with one regret and one sum. */
  function Fill(r: int, x: real): (ops: seq<Op>)
    ensures |ops| == 3 && Training(ops)
  {
    [Want(KEY, 1, 0), PutRegret(KEY, 0, r), PutStrategy(KEY, 0, x)]
  }

  function OneNode(r: int, x: real, from: Option<nat>, scale: real): Store {
    Store([Node(KEY, 0, Some(0), 1, 0, from, false, 1.0)], [r], [x], false, scale)
  }

  lemma OneNodeOk(r: int, x: real, from: Option<nat>, scale: real)
    ensures Ok(OneNode(r, x, from, scale))
    ensures Find(OneNode(r, x, from, scale).nodes, KEY) == Some(0)
    ensures Own(OneNode(r, x, from, scale), KEY) == Some(Payload(0, [r], Some([x]), 1.0))
  {
    var s := OneNode(r, x, from, scale);
    assert s.nodes[..0] == [] && LiveRegrets([]) == 0 && LiveStrategies([]) == 0;
    assert s.regrets[0..1] == [r] && s.strategies[0..1] == [x];
  }

  lemma RunOfThree(o: Overlay, ops: seq<Op>)
    requires OkOverlay(o) && OkOps(ops) && |ops| == 3
    ensures OkOverlay(Apply(o, ops[0])) && OkOverlay(Apply(Apply(o, ops[0]), ops[1]))
    ensures Run(o, ops) == Apply(Apply(Apply(o, ops[0]), ops[1]), ops[2])
  {
    ApplyRefines(o, ops[0]);
    ApplyRefines(Apply(o, ops[0]), ops[1]);
    assert ops[..2][..1] == ops[..1] && ops[..1][..0] == [];
    assert Run(o, []) == o;
    assert Run(o, ops[..1]) == Apply(o, ops[0]);
    assert Run(o, ops[..2]) == Apply(Apply(o, ops[0]), ops[1]);
  }

  lemma FillWrites(o: Overlay, r: int, x: real, from: Option<nat>, r0: int, x0: real)
    requires OkOverlay(o) && Apply(o, Want(KEY, 1, 0)).own == OneNode(r0, x0, from, 1.0)
    ensures Run(o, Fill(r, x)).own == OneNode(r, x, from, 1.0)
  {
    RunOfThree(o, Fill(r, x));
    OneNodeOk(r0, x0, from, 1.0);
    OneNodeOk(r, x0, from, 1.0);
    assert [r0][0 := r] == [r] && [x0][0 := x] == [x];
  }

  lemma EmptyOk()
    ensures Ok(Empty())
  {
  }

  lemma DiscountsOnce(s: Store, factor: real)
    requires Ok(s) && s.scale == 1.0 && RESCALE_BELOW <= factor <= 1.0
    ensures Discounted(s, factor) == s.(scale := factor)
  {
    assert Mark(1.0) * factor == factor;
  }

  lemma FillFromEmpty(r: int, x: real)
    ensures OkOverlay(Overlay(Empty(), None)) && Run(Overlay(Empty(), None), Fill(r, x)).own == OneNode(r, x, None, 1.0)
  {
    EmptyOk();
    assert Zeros(1) == [0] && RealZeros(1) == [0.0];
    assert Blank(1, 0, false, 1.0) == Payload(0, [0], Some([0.0]), 1.0);
    assert Touch(Empty(), None, KEY, 1, 0) == OneNode(0, 0.0, None, 1.0);
    FillWrites(Overlay(Empty(), None), r, x, None, 0, 0.0);
  }

  lemma RunOneMore(o: Overlay, ops: seq<Op>, op: Op)
    requires OkOverlay(o) && OkOps(ops) && OkOp(op)
    ensures Run(o, ops + [op]) == Apply(Run(o, ops), op)
  {
    assert (ops + [op])[..|ops|] == ops;
  }

  /** A base with one key, and perhaps a discount pending, is what these operations leave. */
  lemma BaseReached(r: int, x: real, factor: real)
    requires RESCALE_BELOW <= factor <= 1.0
    ensures OkOverlay(Overlay(Empty(), None)) && OkOps(Fill(r, x) + [Discount(factor)])
    ensures Run(Overlay(Empty(), None), Fill(r, x) + [Discount(factor)]).own == OneNode(r, x, None, factor)
  {
    FillFromEmpty(r, x);
    RunOneMore(Overlay(Empty(), None), Fill(r, x), Discount(factor));
    OneNodeOk(r, x, None, 1.0);
    DiscountsOnce(OneNode(r, x, None, 1.0), factor);
  }

  /** A worker that trained on it is what these leave. */
  lemma WorkerReached(base: Store, r: int, x: real, scale: real, w: int, y: real)
    requires base == OneNode(r, x, None, scale) && scale > 0.0
    ensures Ok(Empty()) && Ok(base)
    ensures Trainee(Empty(), base, Fill(w, y)).own == OneNode(w, y, Some(0), 1.0)
  {
    EmptyOk();
    OneNodeOk(r, x, None, scale);
    var o := Apply(Overlay(Empty(), None), Attach(base));
    var p := Current(Payload(0, [r], Some([x]), 1.0), scale);
    var s := Touch(o.own, Some(base), KEY, 1, 0);
    assert p.regrets == [p.regrets[0]] && p.strategy.value == [p.strategy.value[0]];
    assert s == OneNode(p.regrets[0], p.strategy.value[0], Some(0), 1.0);
    ApplyRefines(Overlay(Empty(), None), Attach(base));
    FillWrites(o, w, y, Some(0), p.regrets[0], p.strategy.value[0]);
    RunFromAttach(Empty(), base, Fill(w, y));
  }

  lemma {:induction false} RunFromAttach(s: Store, base: Store, ops: seq<Op>)
    requires Ok(s) && Ok(base) && Training(ops)
    ensures OkOverlay(Apply(Overlay(s, None), Attach(base)))
    ensures Trainee(s, base, ops) == Run(Apply(Overlay(s, None), Attach(base)), ops)
  {
    ApplyRefines(Overlay(s, None), Attach(base));
    TraineeNext(s, base, ops);
    if ops != [] {
      RunFromAttach(s, base, ops[..|ops| - 1]);
    }
  }

  /** The worker that trained on the one-key base, its node touched. */
  function Alone(w: int, y: real): Worker {
    Worker(OneNode(w, y, Some(0), 1.0), [0])
  }

  lemma AloneIsTrained(r: int, x: real, scale: real, w: int, y: real)
    requires scale > 0.0
    ensures var base := OneNode(r, x, None, scale); var workers := [Alone(w, y)];
            && Trained(base, workers) && Sole(workers, 0, KEY)
            && Brings(workers[0], KEY) == Some(Payload(0, [w], Some([y]), 1.0))
            && Own(base, KEY) == Some(Payload(0, [r], Some([x]), 1.0))
  {
    OneNodeOk(r, x, None, scale);
    OneNodeOk(w, y, Some(0), 1.0);
    assert 0 in Alone(w, y).touched;
  }

  /** A discount pending on the base: a worker that moves a regret from 50 to 60 leaves 110. */
  lemma PendingDiscountLosesRegret(add: Adder) returns (p: Payload)
    ensures Trained(OneNode(100, 4.0, None, 0.5), [Alone(60, 3.0)])
    ensures Own(MergedBack(OneNode(100, 4.0, None, 0.5), [Alone(60, 3.0)], add), KEY) == Some(p)
    ensures 0 < |p.regrets| && p.regrets[0] == 110
  {
    var base, workers := OneNode(100, 4.0, None, 0.5), [Alone(60, 3.0)];
    AloneIsTrained(100, 4.0, 0.5, 60, 3.0);
    assert Round(100 as real * (0.5 / 1.0)) == 50;
    p := MergedHolds(base, workers, add, 0, KEY);
    OverlayRoundTrip(base, workers, add, KEY, 0);
    SoleFold(base, workers, 1, 0, KEY, 0);
    SoleChange(base, Brings(workers[0], KEY).value, KEY, 0);
  }

  lemma HalfPending()
    ensures AllFit(OneNode(100, 4.0, None, 0.5))
    ensures BaseSum(OneNode(100, 4.0, None, 0.5), KEY, 0) == 4.0
    ensures BaseRatio(OneNode(100, 4.0, None, 0.5), KEY) == 0.5
  {
    OneNodeOk(100, 4.0, None, 0.5);
  }

  /** The same for sums: a worker that moves a sum from 2 to 3 leaves 5. */
  lemma PendingDiscountLosesSum() returns (p: Payload)
    ensures Trained(OneNode(100, 4.0, None, 0.5), [Alone(60, 3.0)])
    ensures Own(MergedBack(OneNode(100, 4.0, None, 0.5), [Alone(60, 3.0)], EXACT), KEY) == Some(p)
    ensures WholePayload(p) && p.strategy.Some? && p.strategy.value[0] == 5.0
  {
    var base, workers := OneNode(100, 4.0, None, 0.5), [Alone(60, 3.0)];
    AloneIsTrained(100, 4.0, 0.5, 60, 3.0);
    HalfPending();
    hide BaseSum, BaseRatio, SumFold, Sole, Brings, MergedBack, Own;
    p := MergedHolds(base, workers, EXACT, 0, KEY);
    MergedKeepsSums(base, workers, EXACT, KEY);
    OverlaySumsRoundTrip(base, workers, EXACT, KEY, 0);
    SoleSumIs(base, workers, 0, KEY, 0);
  }

  /** And it reads 2.5. */
  lemma PendingDiscountReadsOff(p: Payload)
    requires Trained(OneNode(100, 4.0, None, 0.5), [Alone(60, 3.0)])
    requires Own(MergedBack(OneNode(100, 4.0, None, 0.5), [Alone(60, 3.0)], EXACT), KEY) == Some(p)
    requires WholePayload(p) && p.strategy.Some? && p.strategy.value[0] == 5.0
    ensures Current(p, 0.5).strategy.value[0] == 2.5
  {
    HalfPending();
    MergedStamp(OneNode(100, 4.0, None, 0.5), [Alone(60, 3.0)], EXACT, KEY);
    SumNow(p, 0.5, 0);
  }

  /** No discount pending, but a change that does not fit 32 bits. */
  lemma WrappedChangeLosesRegret(add: Adder) returns (p: Payload)
    ensures Trained(OneNode(INT_MIN, 4.0, None, 1.0), [Alone(INT_MAX, 4.0)])
    ensures Own(MergedBack(OneNode(INT_MIN, 4.0, None, 1.0), [Alone(INT_MAX, 4.0)], add), KEY) == Some(p)
    ensures 0 < |p.regrets| && p.regrets[0] != INT_MAX
  {
    AloneIsTrained(INT_MIN, 4.0, 1.0, INT_MAX, 4.0);
    RoundWhole(INT_MIN);
    p := SoleWorkerWins(OneNode(INT_MIN, 4.0, None, 1.0), [Alone(INT_MAX, 4.0)], add, 0, KEY, 0);
  }
}
