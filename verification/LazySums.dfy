/**
 Lazy discounting against eager: an event only lowers the store's scale, and each
 node catches up when it is next looked up. Reading strategy sums lazily gives
 what multiplying every sum at every event would, as long as the scale stays
 above its limit.
 */
module LazySums {
  import opened Options
  import opened Arenas
  import opened Stores
  import opened Discounts

  type Sums = Option<seq<real>>

  /** The strategy sums of a store and its base, as reads would give them now. */
  datatype Ledger = Ledger(own: map<Key, Sums>, base: Option<map<Key, Sums>>, omitPostflop: bool)

  ghost function SumsOf(f: Flat): (m: map<Key, Sums>)
    ensures m.Keys == f.entries.Keys
    ensures forall k :: k in m ==> m[k] == Current(f.entries[k], f.scale).strategy
  {
    map k | k in f.entries :: Current(f.entries[k], f.scale).strategy
  }

  ghost function LedgerOf(o: FlatOverlay): Ledger {
    Ledger(SumsOf(o.own), if o.base.Some? then Some(SumsOf(o.base.value)) else None, o.own.omitPostflop)
  }

  // ----- every discount at once -----

  function Times(x: real, y: real): real {
    x * y
  }

  function AllTimes(x: seq<real>, factor: real): (y: seq<real>)
    ensures |y| == |x| && forall a :: 0 <= a < |x| ==> y[a] == Times(x[a], factor)
  {
    seq(|x|, a requires 0 <= a < |x| => Times(x[a], factor))
  }

  function SumsTimes(x: Sums, factor: real): Sums {
    if x.None? then None else Some(AllTimes(x.value, factor))
  }

  function ExtendedSums(x: Sums, n: nat): Sums {
    if x.None? || n <= |x.value| then x else Some(x.value + RealZeros(n - |x.value|))
  }

  ghost function LedgerWanted(l: Ledger, key: Key, n: nat, street: int): map<Key, Sums> {
    l.own[key := if key in l.own then ExtendedSums(l.own[key], n)
                 else if l.base.Some? && key in l.base.value then ExtendedSums(l.base.value[key], n)
                 else if ShouldHaveStrategy(l.omitPostflop, street) then Some(RealZeros(n)) else None]
  }

  ghost function LedgerPut(own: map<Key, Sums>, key: Key, a: nat, x: real): map<Key, Sums> {
    if key in own && own[key].Some? && a < |own[key].value| then own[key := Some(own[key].value[a := x])] else own
  }

  ghost function LedgerDiscounted(own: map<Key, Sums>, factor: real): (r: map<Key, Sums>)
    ensures 0.0 < factor < 1.0 ==> r.Keys == own.Keys && forall k :: k in own ==> r[k] == SumsTimes(own[k], factor)
  {
    if 0.0 < factor < 1.0 then map k | k in own :: SumsTimes(own[k], factor) else own
  }

  /** An operation on plain sums: a discount multiplies all of them there and then, a lookup does nothing. */
  ghost function Eagerly(l: Ledger, op: Op): Ledger
    requires OkOp(op)
  {
    match op
    case Want(key, actions, street) => l.(own := LedgerWanted(l, key, ClampActions(actions), street))
    case Look(key) => l
    case PutRegret(key, a, v) => l
    case PutStrategy(key, a, x) => l.(own := LedgerPut(l.own, key, a, x))
    case Discount(factor) => l.(own := LedgerDiscounted(l.own, factor))
    case Clear => Ledger(map[], None, l.omitPostflop)
    case Attach(to) => Ledger(map[], Some(SumsOf(Flatten(to))), to.omitPostflop)
  }

  ghost function RunEagerly(l: Ledger, ops: seq<Op>): Ledger
    requires OkOps(ops)
  {
    if ops == [] then l else Eagerly(RunEagerly(l, ops[..|ops| - 1]), ops[|ops| - 1])
  }

  // ----- lazily is eagerly -----

  /** A discount keeps the scale from its limit; a sum is only written right after its key was looked up. */
  ghost predicate Careful(f: Flat, op: Op) {
    match op
    case Discount(factor) => !MustRescale(f.scale, factor)
    case PutStrategy(key, a, x) => key in f.entries ==> Mark(f.entries[key].stamp) == Mark(f.scale)
    case _ => true
  }

  ghost predicate AllCareful(o: FlatOverlay, ops: seq<Op>)
    requires WholeOverlay(o) && OkOps(ops)
  {
    ops != [] ==> AllCareful(o, ops[..|ops| - 1]) && Careful(RunFlat(o, ops[..|ops| - 1]).own, ops[|ops| - 1])
  }

  lemma ScaledLater(x: real, scale: real, stamp: real, factor: real)
    requires 0.0 < stamp
    ensures x * ((scale * factor) / stamp) == Times(x * (scale / stamp), factor)
  {
    var r := scale / stamp;
    assert (scale * factor) / stamp == r * factor;
    assert x * (r * factor) == (x * r) * factor;
  }

  lemma LoweredIs(scale: real, factor: real)
    requires 0.0 < factor < 1.0
    ensures Mark(Lowered(scale, factor)) == Mark(scale) * factor
  {
  }

  lemma DiscountedSum(p: Payload, scale: real, factor: real, a: nat)
    requires WholePayload(p) && p.strategy.Some? && a < |p.regrets| && 0.0 < factor < 1.0
    ensures Current(p, Lowered(scale, factor)).strategy.value[a] ==
            Times(Current(p, scale).strategy.value[a], factor)
  {
    LoweredIs(scale, factor);
    SumNow(p, scale, a);
    SumNow(p, Lowered(scale, factor), a);
    ScaledLater(p.strategy.value[a], Mark(scale), Mark(p.stamp), factor);
  }

  lemma DiscountedNow(p: Payload, scale: real, factor: real)
    requires WholePayload(p) && 0.0 < factor < 1.0
    ensures Current(p, Lowered(scale, factor)).strategy == SumsTimes(Current(p, scale).strategy, factor)
  {
    if p.strategy.Some? {
      forall a | 0 <= a < |p.regrets|
        ensures Current(p, Lowered(scale, factor)).strategy.value[a] ==
                AllTimes(Current(p, scale).strategy.value, factor)[a]
      {
        DiscountedSum(p, scale, factor, a);
      }
      assert Current(p, Lowered(scale, factor)).strategy.value == AllTimes(Current(p, scale).strategy.value, factor);
    }
  }

  lemma DiscountAgrees(f: Flat, factor: real)
    requires WholeFlat(f) && !MustRescale(f.scale, factor)
    ensures SumsOf(FlatDiscounted(f, factor)) == LedgerDiscounted(SumsOf(f), factor)
  {
    if 0.0 < factor < 1.0 {
      forall k | k in f.entries
        ensures SumsOf(FlatDiscounted(f, factor))[k] == LedgerDiscounted(SumsOf(f), factor)[k]
      {
        DiscountedNow(f.entries[k], f.scale, factor);
      }
    }
  }

  lemma CurrentTwice(p: Payload, scale: real)
    ensures Current(Current(p, scale), scale) == Current(p, scale)
  {
  }

  lemma LookAgrees(f: Flat, key: Key)
    ensures SumsOf(FlatLooked(f, key)) == SumsOf(f)
  {
    if key in f.entries {
      CurrentTwice(f.entries[key], f.scale);
    }
  }

  lemma PutAgrees(f: Flat, key: Key, a: nat, x: real)
    requires WholeFlat(f) && Careful(f, PutStrategy(key, a, x))
    ensures SumsOf(FlatPutStrategy(f, key, a, x)) == LedgerPut(SumsOf(f), key, a, x)
  {
  }

  lemma PutRegretAgrees(f: Flat, key: Key, a: nat, v: int)
    ensures SumsOf(FlatPutRegret(f, key, a, v)) == SumsOf(f)
  {
  }

  /** A payload written for the present scale reads as it is. */
  lemma FreshNow(p: Payload, scale: real)
    requires Mark(p.stamp) == Mark(scale)
    ensures Current(p, scale) == p
  {
  }

  lemma ExtendedAgrees(p: Payload, n: nat)
    requires WholePayload(p)
    ensures Extended(p, n).strategy == ExtendedSums(p.strategy, n)
  {
  }

  lemma WantAgreesAt(o: FlatOverlay, key: Key, n: nat, street: int)
    requires WholeOverlay(o) && n <= MAX_ACTIONS
    ensures SumsOf(FlatWanted(o.own, o.base, key, n, street))[key] == LedgerWanted(LedgerOf(o), key, n, street)[key]
  {
    var p := FlatWanted(o.own, o.base, key, n, street).entries[key];
    FreshNow(p, o.own.scale);
    if key in o.own.entries {
      ExtendedAgrees(Current(o.own.entries[key], o.own.scale), n);
    } else if o.base.Some? && key in o.base.value.entries {
      ExtendedAgrees(Current(o.base.value.entries[key], o.base.value.scale), n);
    }
  }

  lemma WantAgrees(o: FlatOverlay, key: Key, n: nat, street: int)
    requires WholeOverlay(o) && n <= MAX_ACTIONS
    ensures SumsOf(FlatWanted(o.own, o.base, key, n, street)) == LedgerWanted(LedgerOf(o), key, n, street)
  {
    WantAgreesAt(o, key, n, street);
    SameEntries(SumsOf(FlatWanted(o.own, o.base, key, n, street)), LedgerWanted(LedgerOf(o), key, n, street));
  }

  lemma StepAgrees(o: FlatOverlay, op: Op)
    requires WholeOverlay(o) && OkOp(op) && Careful(o.own, op)
    ensures LedgerOf(ApplyFlat(o, op)) == Eagerly(LedgerOf(o), op)
  {
    match op {
      case Want(key, actions, street) => WantAgrees(o, key, ClampActions(actions), street);
      case Look(key) =>
        LookAgrees(o.own, key);
        if o.base.Some? {
          LookAgrees(o.base.value, key);
        }
      case PutRegret(key, a, v) => PutRegretAgrees(o.own, key, a, v);
      case PutStrategy(key, a, x) => PutAgrees(o.own, key, a, x);
      case Discount(factor) => DiscountAgrees(o.own, factor);
      case Clear => assert SumsOf(FlatReset(o.own.omitPostflop)) == map[];
      case Attach(to) => assert SumsOf(FlatReset(to.omitPostflop)) == map[];
    }
  }

  /** Over any careful run, reading sums lazily gives what discounting every sum at every event gives. */
  lemma {:induction false} LazyIsEager(o: FlatOverlay, ops: seq<Op>)
    requires WholeOverlay(o) && OkOps(ops) && AllCareful(o, ops)
    ensures LedgerOf(RunFlat(o, ops)) == RunEagerly(LedgerOf(o), ops)
  {
    if ops != [] {
      LazyIsEager(o, ops[..|ops| - 1]);
      StepAgrees(RunFlat(o, ops[..|ops| - 1]), ops[|ops| - 1]);
    }
  }

  /** So the store itself reads what eager discounting holds, key by key. */
  lemma ReadsAreEager(o: Overlay, ops: seq<Op>, key: Key)
    requires OkOverlay(o) && OkOps(ops) && AllCareful(FlattenOverlay(o), ops)
    ensures var l := RunEagerly(LedgerOf(FlattenOverlay(o)), ops).own; var p := ReadOwn(Run(o, ops).own, key);
            && (p.Some? <==> key in l)
            && (p.Some? ==> p.value.strategy == l[key])
  {
    RunsRefine(o, ops);
    LazyIsEager(FlattenOverlay(o), ops);
    ReadsRefine(Overlay(Run(o, ops).own, None), key);
  }

  // ----- when the scale starts over -----

  lemma OnlyByOne(x: real, scale: real)
    requires 0.0 < scale < 1.0
    ensures x * (1.0 / scale) == x <==> x == 0.0
  {
    var r := 1.0 / scale;
    assert r * scale == 1.0;
    assert r != 1.0;
    assert x * r - x == x * (r - 1.0);
  }

  lemma RescaledSum(p: Payload, scale: real, a: nat)
    requires WholePayload(p) && p.strategy.Some? && a < |p.regrets| && 0.0 < scale < 1.0 && Mark(p.stamp) == scale
    ensures Current(p, 1.0).strategy.value[a] == p.strategy.value[a] <==> p.strategy.value[a] == 0.0
  {
    SumNow(p, 1.0, a);
    OnlyByOne(p.strategy.value[a], scale);
  }

  /**
   When the scale does fall below its limit, it starts over at 1 but the stamps
   keep the old scale: a sum then reads right if and only if it is zero.
   */
  lemma RescaleBreaks(f: Flat, factor: real, key: Key, a: nat)
    requires WholeFlat(f) && MustRescale(f.scale, factor) && key in f.entries
    requires f.entries[key].strategy.Some? && a < |f.entries[key].regrets|
    ensures var right := LedgerDiscounted(SumsOf(f), factor)[key].value;
            && |SumsOf(FlatDiscounted(f, factor))[key].value| == |right| && a < |right|
            && (SumsOf(FlatDiscounted(f, factor))[key].value[a] == right[a] <==> right[a] == 0.0)
  {
    var scale := Lowered(f.scale, factor);
    DiscountedNow(f.entries[key], f.scale, factor);
    LoweredIs(f.scale, factor);
    RescaledSum(Current(f.entries[key], scale), scale, a);
  }

  // An event factor a large discount scale gives on the first event.
  const DEEP_SCALE := 2_000_000_000_000.0

  function DeepRun(): (ops: seq<Op>)
    ensures OkOps(ops)
  {
    [Want(7, 1, 0), PutStrategy(7, 0, 1.0), Discount(Factor(1, DEEP_SCALE))]
  }

  lemma DeepRunSteps(o: FlatOverlay)
    requires WholeOverlay(o)
    ensures RunFlat(o, DeepRun()[..2]) ==
            ApplyFlat(ApplyFlat(o, Want(7, 1, 0)), PutStrategy(7, 0, 1.0))
    ensures RunFlat(o, DeepRun()) == ApplyFlat(RunFlat(o, DeepRun()[..2]), Discount(Factor(1, DEEP_SCALE)))
  {
    var ops := DeepRun();
    assert ops[..2] == [Want(7, 1, 0), PutStrategy(7, 0, 1.0)];
    assert ops[..2][..1] == [Want(7, 1, 0)];
    assert ops[..2][..1][..0] == [];
    assert RunFlat(o, []) == o;
    assert RunFlat(o, ops[..2][..1]) == ApplyFlat(o, Want(7, 1, 0));
  }

  lemma DeepFactor()
    ensures 0.0 < Factor(1, DEEP_SCALE) < RESCALE_BELOW
  {
  }

  lemma DeepRescales()
    ensures MustRescale(1.0, Factor(1, DEEP_SCALE))
  {
    DeepFactor();
  }

  lemma DiscountStep(o: FlatOverlay, factor: real)
    requires WholeOverlay(o)
    ensures ApplyFlat(o, Discount(factor)).own == FlatDiscounted(o.own, factor)
  {
  }

  lemma OneSum(o: FlatOverlay)
    requires o == FlatOverlay(FlatReset(o.own.omitPostflop), None)
    ensures WholeOverlay(o)
    ensures var f := ApplyFlat(ApplyFlat(o, Want(7, 1, 0)), PutStrategy(7, 0, 1.0)).own;
            7 in f.entries && f.entries[7].strategy == Some([1.0]) && |f.entries[7].regrets| == 1
            && f.entries[7].stamp == f.scale == 1.0
  {
    var f := ApplyFlat(o, Want(7, 1, 0)).own;
    assert f.entries[7] == Extended(Blank(1, 0, o.own.omitPostflop, 1.0), 1);
    assert RealZeros(1)[0 := 1.0] == [1.0];
  }

  lemma DeepEvent(f: Flat, key: Key, factor: real)
    requires WholeFlat(f) && MustRescale(f.scale, factor) && key in f.entries && |f.entries[key].regrets| == 1
    requires f.entries[key].strategy == Some([1.0]) && Mark(f.entries[key].stamp) == Mark(f.scale)
    ensures var m := SumsOf(FlatDiscounted(f, factor));
            key in m && m[key].Some? && |m[key].value| == 1 && m[key].value[0] != Times(1.0, factor)
  {
    RescaleBreaks(f, factor, key, 0);
    FreshNow(f.entries[key], f.scale);
    assert LedgerDiscounted(SumsOf(f), factor)[key] == SumsTimes(Some([1.0]), factor);
  }

  lemma DeepSum(o: FlatOverlay)
    requires o == FlatOverlay(FlatReset(o.own.omitPostflop), None)
    ensures WholeOverlay(o)
    ensures var m := SumsOf(RunFlat(o, DeepRun()).own);
            7 in m && m[7].Some? && |m[7].value| == 1 && m[7].value[0] != Times(1.0, Factor(1, DEEP_SCALE))
  {
    hide SumsOf, FlatDiscounted, ApplyFlat, RunFlat, MustRescale, Mark;
    OneSum(o);
    DeepRunSteps(o);
    DeepFactor();
    DeepRescales();
    DiscountStep(RunFlat(o, DeepRun()[..2]), Factor(1, DEEP_SCALE));
    DeepEvent(RunFlat(o, DeepRun()[..2]).own, 7, Factor(1, DEEP_SCALE));
  }

  /** It happens: a fresh store, one sum of 1, one event; the sum reads other than the event's factor. */
  lemma RescaleReached(s: Store)
    requires s == Reset(s)
    ensures Ok(s)
    ensures var p := ReadOwn(Run(Overlay(s, None), DeepRun()).own, 7);
            && p.Some? && p.value.strategy.Some? && |p.value.strategy.value| == 1
            && p.value.strategy.value[0] != Times(1.0, Factor(1, DEEP_SCALE))
  {
    ResetFlat(s, s.omitPostflop);
    RunsRefine(Overlay(s, None), DeepRun());
    DeepSum(FlattenOverlay(Overlay(s, None)));
    ReadsRefine(Run(Overlay(s, None), DeepRun()), 7);
  }
}
