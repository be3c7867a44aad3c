/**
 Merging the workers' deltas into the store they trained on: one thread per key
 shard, each visiting the workers in order, all writing the same arenas at once.
 Additions saturate and floating-point sums round, so order matters; ownership of
 keys makes every interleaving equal to the merge that runs alone.
 */
module Merges {
  import opened Arenas
  import opened Partitions
  import I = Interleaving

  const INT_MAX := 0x7FFF_FFFF
  const INT_MIN := -0x8000_0000

  function Clamp(v: int): int {
    if v > INT_MAX then INT_MAX else if v < INT_MIN then INT_MIN else v
  }

  function Gap(v: int, w: int): int {
    if v < w then w - v else v - w
  }

  /** Saturation gives the 32-bit number nearest to the exact sum. */
  lemma ClampIsNearest(v: int, c: int)
    ensures c == Clamp(v) <==>
            && -0x8000_0000 <= c <= 0x7FFF_FFFF
            && forall w :: -0x8000_0000 <= w <= 0x7FFF_FFFF ==> Gap(c, v) <= Gap(w, v)
  {
    if -0x8000_0000 <= c <= 0x7FFF_FFFF && forall w :: -0x8000_0000 <= w <= 0x7FFF_FFFF ==> Gap(c, v) <= Gap(w, v) {
      assert Gap(c, v) <= Gap(Clamp(v), v);
    }
  }

  /** Saturating addition depends on grouping, so a merge may not reorder its additions. */
  lemma ClampedSumsDoNotAssociate()
    ensures Clamp(Clamp(INT_MAX + 1) + -1) != Clamp(INT_MAX + Clamp(1 + -1))
  {
  }

  /** How two strategy sums add up; rounding may make it depend on order too. */
  type Adder = (real, real) -> real

  /** A worker's store, its touched entries turned into differences from the base. */
  datatype Worker = Worker(delta: Store, touched: seq<nat>)

  function KeyShard(mix: Key -> nat, shards: nat, key: Key): (s: nat)
    ensures 0 < shards ==> s < shards
  {
    if shards <= 1 then 0 else mix(key) % shards
  }

  /** Keys share a shard exactly when their mixes agree modulo the number of shards. */
  lemma SharesShard(mix: Key -> nat, shards: nat, key: Key, other: Key)
    requires 0 < shards
    ensures KeyShard(mix, shards, key) == KeyShard(mix, shards, other) <==> mix(key) % shards == mix(other) % shards
    ensures mix(key) < shards ==> KeyShard(mix, shards, key) == mix(key)
  {
  }

  function ShardOf(w: Store, mix: Key -> nat, shards: nat): Sharding {
    (idx: nat) => if idx < |w.nodes| then KeyShard(mix, shards, w.nodes[idx].key) else -1
  }

  // ----- the merge as a function of the destination -----

  function MergeHint(s: Store, g: nat, street: int): (r: Store)
    requires g < |s.nodes|
    ensures Shaped(s, r)
  {
    if s.nodes[g].street > 3 then s.(nodes := s.nodes[g := s.nodes[g].(street := street)]) else s
  }

  function MergeRegret(s: Store, g: nat, a: nat, d: int): Store
    requires g < |s.nodes| && Fits(s, s.nodes[g]) && a < s.nodes[g].actions
  {
    SetRegret(s, g, a, Clamp(s.regrets[s.nodes[g].regretAt + a] + d))
  }

  function MergeStrategy(s: Store, g: nat, a: nat, d: real, add: Adder): Store
    requires g < |s.nodes| && Fits(s, s.nodes[g]) && a < s.nodes[g].actions && s.nodes[g].strategyAt.Some?
  {
    SetStrategy(s, g, a, add(s.strategies[s.nodes[g].strategyAt.value + a], d))
  }

  function MergeAction(s: Store, g: nat, w: Store, n: Node, a: nat, add: Adder): (r: Store)
    requires g < |s.nodes| && Fits(s, s.nodes[g]) && a < s.nodes[g].actions && Fits(w, n) && a < n.actions
    ensures Shaped(s, r)
  {
    var r := MergeRegret(s, g, a, w.regrets[n.regretAt + a]);
    if s.nodes[g].strategyAt.Some? && n.strategyAt.Some? then
      MergeStrategy(r, g, a, w.strategies[n.strategyAt.value + a], add)
    else r
  }

  function MergeActions(s: Store, g: nat, w: Store, n: Node, k: nat, add: Adder): (r: Store)
    requires g < |s.nodes| && Fits(s, s.nodes[g]) && k <= s.nodes[g].actions && Fits(w, n) && k <= n.actions
    ensures Shaped(s, r)
  {
    if k == 0 then s else MergeAction(MergeActions(s, g, w, n, k - 1, add), g, w, n, k - 1, add)
  }

  /** The destination has as many actions as the worker under the entry's key. */
  predicate HasRoom(nodes: seq<Node>, w: Store, idx: nat) {
    idx < |w.nodes| && Find(nodes, w.nodes[idx].key).Some? ==>
      w.nodes[idx].actions <= nodes[Find(nodes, w.nodes[idx].key).value].actions
  }

  ghost predicate AllHaveRoom(nodes: seq<Node>, w: Store, list: seq<nat>) {
    forall i :: 0 <= i < |list| ==> HasRoom(nodes, w, list[i])
  }

  /** Adds one touched entry; keys the destination lacks and stale indices are skipped. */
  function MergeEntry(s: Store, w: Store, idx: nat, add: Adder): (r: Store)
    requires AllFit(s) && AllFit(w) && HasRoom(s.nodes, w, idx)
    ensures Shaped(s, r)
  {
    if idx >= |w.nodes| then s
    else
      var n := w.nodes[idx];
      var g := Find(s.nodes, n.key);
      if g.None? then s else MergeActions(MergeHint(s, g.value, n.street), g.value, w, n, n.actions, add)
  }

  lemma ShapedRoom(s: Store, r: Store, w: Store, list: seq<nat>)
    requires Shaped(s, r) && AllHaveRoom(s.nodes, w, list)
    ensures AllHaveRoom(r.nodes, w, list)
  {
    forall i | 0 <= i < |list|
      ensures HasRoom(r.nodes, w, list[i])
    {
      assert HasRoom(s.nodes, w, list[i]);
      if list[i] < |w.nodes| {
        ShapedFind(s, r, w.nodes[list[i]].key);
      }
    }
  }

  function MergeList(s: Store, w: Store, list: seq<nat>, add: Adder): (r: Store)
    requires AllFit(s) && AllFit(w) && AllHaveRoom(s.nodes, w, list)
    ensures Shaped(s, r) && AllFit(r)
  {
    if list == [] then s
    else
      var n := |list| - 1;
      var m := MergeList(s, w, list[..n], add);
      ShapedRoom(s, m, w, list);
      assert HasRoom(m.nodes, w, list[n]);
      var r := MergeEntry(m, w, list[n], add);
      ShapedFits(s, r);
      r
  }

  ghost predicate AllDeltasFit(workers: seq<Worker>) {
    forall i :: 0 <= i < |workers| ==> AllFit(workers[i].delta)
  }

  ghost predicate Mergeable(s: Store, workers: seq<Worker>) {
    && AllFit(s) && AllDeltasFit(workers)
    && forall i :: 0 <= i < |workers| ==> AllHaveRoom(s.nodes, workers[i].delta, workers[i].touched)
  }

  /** The single-threaded merge: the first k workers one after the other. */
  ghost function MergeWorkers(s: Store, workers: seq<Worker>, k: nat, add: Adder): (r: Store)
    requires Mergeable(s, workers) && k <= |workers|
    ensures Shaped(s, r) && AllFit(r)
  {
    if k == 0 then s
    else
      var w := workers[k - 1];
      var m := MergeWorkers(s, workers, k - 1, add);
      ShapedRoom(s, m, w.delta, w.touched);
      MergeList(m, w.delta, w.touched, add)
  }

  // ----- the merge as memory operations -----

  datatype Cell = HintCell(node: nat) | RegretCell(at: nat) | StrategyCell(at: nat)

  datatype Value = Count(n: int) | Weight(x: real)

  type MergeOp = I.Op<Cell, Value>

  /** What the threads share: street hints, regrets and strategy sums. */
  ghost function Memory(s: Store): (m: map<Cell, Value>)
    ensures forall c :: c in m <==> InStore(s, c)
    ensures forall c :: c in m ==> m[c] == At(s, c)
  {
    var cells := (set i | 0 <= i < |s.nodes| :: HintCell(i)) + (set i | 0 <= i < |s.regrets| :: RegretCell(i))
                 + (set i | 0 <= i < |s.strategies| :: StrategyCell(i));
    map c | c in cells && InStore(s, c) :: At(s, c)
  }

  predicate InStore(s: Store, c: Cell) {
    match c
    case HintCell(i) => i < |s.nodes|
    case RegretCell(i) => i < |s.regrets|
    case StrategyCell(i) => i < |s.strategies|
  }

  function At(s: Store, c: Cell): Value
    requires InStore(s, c)
  {
    match c
    case HintCell(i) => Count(s.nodes[i].street)
    case RegretCell(i) => Count(s.regrets[i])
    case StrategyCell(i) => Weight(s.strategies[i])
  }

  function HintOp(g: nat, street: int): MergeOp {
    I.Op(HintCell(g), (v: Value) => if v.Count? && v.n > 3 then Count(street) else v)
  }

  function RegretOp(at: nat, d: int): MergeOp {
    I.Op(RegretCell(at), (v: Value) => if v.Count? then Count(Clamp(v.n + d)) else v)
  }

  function StrategyOp(at: nat, d: real, add: Adder): MergeOp {
    I.Op(StrategyCell(at), (v: Value) => if v.Weight? then Weight(add(v.x, d)) else v)
  }

  function OneActionOps(g: Node, w: Store, n: Node, a: nat, add: Adder): seq<MergeOp>
    requires Fits(w, n) && a < n.actions
  {
    var first := [RegretOp(g.regretAt + a, w.regrets[n.regretAt + a])];
    if g.strategyAt.Some? && n.strategyAt.Some?
    then first + [StrategyOp(g.strategyAt.value + a, w.strategies[n.strategyAt.value + a], add)] else first
  }

  function ActionOps(g: Node, w: Store, n: Node, k: nat, add: Adder): seq<MergeOp>
    requires Fits(w, n) && k <= n.actions
  {
    if k == 0 then [] else ActionOps(g, w, n, k - 1, add) + OneActionOps(g, w, n, k - 1, add)
  }

  function EntryOps(nodes: seq<Node>, w: Store, idx: nat, add: Adder): seq<MergeOp>
    requires AllFit(w)
  {
    if idx >= |w.nodes| then []
    else
      var n := w.nodes[idx];
      var g := Find(nodes, n.key);
      if g.None? then [] else [HintOp(g.value, n.street)] + ActionOps(nodes[g.value], w, n, n.actions, add)
  }

  function ListOps(nodes: seq<Node>, w: Store, list: seq<nat>, add: Adder): seq<MergeOp>
    requires AllFit(w)
  {
    if list == [] then []
    else ListOps(nodes, w, list[..|list| - 1], add) + EntryOps(nodes, w, list[|list| - 1], add)
  }

  /** The thread of one shard: its entries of the first k workers, worker by worker. */
  ghost function ShardOps(nodes: seq<Node>, workers: seq<Worker>, k: nat, mix: Key -> nat, shards: nat, shard: nat,
                          add: Adder)
    : seq<MergeOp>
    requires AllDeltasFit(workers) && k <= |workers|
  {
    if k == 0 then []
    else
      var w := workers[k - 1];
      ShardOps(nodes, workers, k - 1, mix, shards, shard, add)
      + ListOps(nodes, w.delta, Filter(w.touched, ShardOf(w.delta, mix, shards), shard), add)
  }

  ghost function WorkerOps(nodes: seq<Node>, workers: seq<Worker>, k: nat, add: Adder): seq<MergeOp>
    requires AllDeltasFit(workers) && k <= |workers|
  {
    if k == 0 then []
    else WorkerOps(nodes, workers, k - 1, add) + ListOps(nodes, workers[k - 1].delta, workers[k - 1].touched, add)
  }

  // ----- the operations compute the function -----

  lemma {:induction false} MemoryIs(s: Store, r: Store, c: Cell, v: Value)
    requires InStore(s, c) && InStore(r, c) && At(r, c) == v
    requires forall d :: InStore(r, d) <==> InStore(s, d)
    requires forall d :: InStore(s, d) && d != c ==> At(r, d) == At(s, d)
    ensures Memory(r) == Memory(s)[c := v]
  {
    I.SameMap(Memory(r), Memory(s)[c := v]);
  }

  lemma HintStep(s: Store, g: nat, street: int)
    requires g < |s.nodes|
    ensures I.Within([HintOp(g, street)], Memory(s))
    ensures Memory(MergeHint(s, g, street)) == I.Exec([HintOp(g, street)], Memory(s))
  {
    MemoryIs(s, MergeHint(s, g, street), HintCell(g), HintOp(g, street).effect(Memory(s)[HintCell(g)]));
    ExecOne(HintOp(g, street), Memory(s));
  }

  lemma ExecOne(op: MergeOp, m: map<Cell, Value>)
    requires op.cell in m
    ensures I.Within([op], m) && I.Exec([op], m) == m[op.cell := op.effect(m[op.cell])]
  {
    assert [op][..0] == [];
  }

  lemma RegretStep(s: Store, g: nat, a: nat, d: int)
    requires g < |s.nodes| && Fits(s, s.nodes[g]) && a < s.nodes[g].actions
    ensures var op := RegretOp(s.nodes[g].regretAt + a, d);
            I.Within([op], Memory(s)) && Memory(MergeRegret(s, g, a, d)) == I.Exec([op], Memory(s))
  {
    var op := RegretOp(s.nodes[g].regretAt + a, d);
    MemoryIs(s, MergeRegret(s, g, a, d), op.cell, op.effect(Memory(s)[op.cell]));
    ExecOne(op, Memory(s));
  }

  lemma StrategyStep(s: Store, g: nat, a: nat, d: real, add: Adder)
    requires g < |s.nodes| && Fits(s, s.nodes[g]) && a < s.nodes[g].actions && s.nodes[g].strategyAt.Some?
    ensures var op := StrategyOp(s.nodes[g].strategyAt.value + a, d, add);
            I.Within([op], Memory(s)) && Memory(MergeStrategy(s, g, a, d, add)) == I.Exec([op], Memory(s))
  {
    var op := StrategyOp(s.nodes[g].strategyAt.value + a, d, add);
    MemoryIs(s, MergeStrategy(s, g, a, d, add), op.cell, op.effect(Memory(s)[op.cell]));
    ExecOne(op, Memory(s));
  }

  /** Running ops on the memory of one store leaves that of the other. */
  ghost predicate Computes(ops: seq<MergeOp>, s: Store, r: Store) {
    I.Within(ops, Memory(s)) && I.Exec(ops, Memory(s)) == Memory(r)
  }

  lemma ComputesNothing(s: Store)
    ensures Computes([], s, s)
  {
  }

  lemma ComputesThen(p: seq<MergeOp>, q: seq<MergeOp>, s: Store, m: Store, r: Store)
    requires Computes(p, s, m) && Computes(q, m, r) && Shaped(s, m)
    ensures Computes(p + q, s, r)
  {
    assert Memory(s).Keys == Memory(m).Keys;
    I.ExecAppend(p, q, Memory(s));
  }

  lemma StrategyAfter(s: Store, m: Store, ops: seq<MergeOp>, g: nat, a: nat, d: real, add: Adder)
    requires g < |m.nodes| && Fits(m, m.nodes[g]) && a < m.nodes[g].actions && m.nodes[g].strategyAt.Some?
    requires Shaped(s, m) && Computes(ops, s, m)
    ensures Computes(ops + [StrategyOp(m.nodes[g].strategyAt.value + a, d, add)], s, MergeStrategy(m, g, a, d, add))
  {
    StrategyStep(m, g, a, d, add);
    ComputesThen(ops, [StrategyOp(m.nodes[g].strategyAt.value + a, d, add)], s, m, MergeStrategy(m, g, a, d, add));
  }

  lemma BothSteps(s: Store, g: nat, a: nat, d: int, x: real, add: Adder)
    requires g < |s.nodes| && Fits(s, s.nodes[g]) && a < s.nodes[g].actions && s.nodes[g].strategyAt.Some?
    ensures Computes([RegretOp(s.nodes[g].regretAt + a, d)] + [StrategyOp(s.nodes[g].strategyAt.value + a, x, add)],
                     s, MergeStrategy(MergeRegret(s, g, a, d), g, a, x, add))
  {
    RegretStep(s, g, a, d);
    StrategyAfter(s, MergeRegret(s, g, a, d), [RegretOp(s.nodes[g].regretAt + a, d)], g, a, x, add);
  }

  lemma RegretAlone(s: Store, g: nat, a: nat, d: int)
    requires g < |s.nodes| && Fits(s, s.nodes[g]) && a < s.nodes[g].actions
    ensures Computes([RegretOp(s.nodes[g].regretAt + a, d)], s, MergeRegret(s, g, a, d))
  {
    RegretStep(s, g, a, d);
  }

  lemma SameOps(g: Node, h: Node, w: Store, n: Node, a: nat, add: Adder)
    requires SamePlace(g, h) && Fits(w, n) && a < n.actions
    ensures OneActionOps(h, w, n, a, add) == OneActionOps(g, w, n, a, add)
  {
  }

  lemma ActionStep(s: Store, g: nat, w: Store, n: Node, a: nat, add: Adder)
    requires g < |s.nodes| && Fits(s, s.nodes[g]) && a < s.nodes[g].actions && Fits(w, n) && a < n.actions
    ensures Computes(OneActionOps(s.nodes[g], w, n, a, add), s, MergeAction(s, g, w, n, a, add))
  {
    hide Computes;
    if s.nodes[g].strategyAt.Some? && n.strategyAt.Some? {
      BothSteps(s, g, a, w.regrets[n.regretAt + a], w.strategies[n.strategyAt.value + a], add);
    } else {
      RegretAlone(s, g, a, w.regrets[n.regretAt + a]);
    }
  }

  lemma ActionsNext(s: Store, m: Store, ops: seq<MergeOp>, g: nat, w: Store, n: Node, a: nat, node: Node, add: Adder)
    requires g < |s.nodes| && Shaped(s, m) && Fits(m, m.nodes[g]) && a < m.nodes[g].actions && Fits(w, n)
    requires a < n.actions
    requires SamePlace(node, m.nodes[g]) && Computes(ops, s, m)
    ensures Computes(ops + OneActionOps(node, w, n, a, add), s, MergeAction(m, g, w, n, a, add))
  {
    ActionStep(m, g, w, n, a, add);
    SameOps(node, m.nodes[g], w, n, a, add);
    ComputesThen(ops, OneActionOps(node, w, n, a, add), s, m, MergeAction(m, g, w, n, a, add));
  }

  lemma ActionsAfter(s: Store, g: nat, w: Store, n: Node, k: nat, node: Node, add: Adder)
    requires g < |s.nodes| && Fits(s, s.nodes[g]) && k < s.nodes[g].actions && Fits(w, n) && k < n.actions
    requires SamePlace(node, s.nodes[g])
    requires Computes(ActionOps(node, w, n, k, add), s, MergeActions(s, g, w, n, k, add))
    ensures Computes(ActionOps(node, w, n, k + 1, add), s, MergeActions(s, g, w, n, k + 1, add))
  {
    var m := MergeActions(s, g, w, n, k, add);
    assert SamePlace(s.nodes[g], m.nodes[g]) && Fits(m, m.nodes[g]);
    ActionsNext(s, m, ActionOps(node, w, n, k, add), g, w, n, k, node, add);
  }

  lemma {:induction false} ActionsStep(s: Store, g: nat, w: Store, n: Node, k: nat, node: Node, add: Adder)
    requires g < |s.nodes| && Fits(s, s.nodes[g]) && k <= s.nodes[g].actions && Fits(w, n) && k <= n.actions
    requires SamePlace(node, s.nodes[g])
    ensures Computes(ActionOps(node, w, n, k, add), s, MergeActions(s, g, w, n, k, add))
  {
    hide Computes;
    if k == 0 {
      ComputesNothing(s);
    } else {
      ActionsStep(s, g, w, n, k - 1, node, add);
      ActionsAfter(s, g, w, n, k - 1, node, add);
    }
  }

  lemma EntryStep(s: Store, w: Store, idx: nat, add: Adder)
    requires AllFit(s) && AllFit(w) && HasRoom(s.nodes, w, idx)
    ensures Computes(EntryOps(s.nodes, w, idx, add), s, MergeEntry(s, w, idx, add))
  {
    if idx < |w.nodes| && Find(s.nodes, w.nodes[idx].key).Some? {
      var n := w.nodes[idx];
      var g := Find(s.nodes, n.key).value;
      var m := MergeHint(s, g, n.street);
      HintStep(s, g, n.street);
      ActionsStep(m, g, w, n, n.actions, s.nodes[g], add);
      ComputesThen([HintOp(g, n.street)], ActionOps(s.nodes[g], w, n, n.actions, add), s, m,
                   MergeEntry(s, w, idx, add));
    }
  }

  lemma ShapedOneOps(g: Node, h: Node, w: Store, n: Node, a: nat, add: Adder)
    requires SamePlace(g, h) && Fits(w, n) && a < n.actions
    ensures OneActionOps(h, w, n, a, add) == OneActionOps(g, w, n, a, add)
  {
  }

  lemma {:induction false} ShapedActionOps(g: Node, h: Node, w: Store, n: Node, k: nat, add: Adder)
    requires SamePlace(g, h) && Fits(w, n) && k <= n.actions
    ensures ActionOps(h, w, n, k, add) == ActionOps(g, w, n, k, add)
  {
    hide OneActionOps;
    if k > 0 {
      ShapedActionOps(g, h, w, n, k - 1, add);
      ShapedOneOps(g, h, w, n, k - 1, add);
    }
  }

  /** The operations depend only on where things are. */
  lemma ShapedEntryOps(s: Store, r: Store, w: Store, idx: nat, add: Adder)
    requires Shaped(s, r) && AllFit(w)
    ensures EntryOps(r.nodes, w, idx, add) == EntryOps(s.nodes, w, idx, add)
  {
    if idx < |w.nodes| {
      var n := w.nodes[idx];
      ShapedFind(s, r, n.key);
      var g := Find(s.nodes, n.key);
      if g.Some? {
        ShapedActionOps(s.nodes[g.value], r.nodes[g.value], w, n, n.actions, add);
      }
    }
  }

  lemma {:induction false} ShapedListOps(s: Store, r: Store, w: Store, list: seq<nat>, add: Adder)
    requires Shaped(s, r) && AllFit(w)
    ensures ListOps(r.nodes, w, list, add) == ListOps(s.nodes, w, list, add)
  {
    if list != [] {
      ShapedListOps(s, r, w, list[..|list| - 1], add);
      ShapedEntryOps(s, r, w, list[|list| - 1], add);
    }
  }

  lemma {:induction false} ListStep(s: Store, w: Store, list: seq<nat>, add: Adder)
    requires AllFit(s) && AllFit(w) && AllHaveRoom(s.nodes, w, list)
    ensures Computes(ListOps(s.nodes, w, list, add), s, MergeList(s, w, list, add))
  {
    if list != [] {
      var n := |list| - 1;
      ListStep(s, w, list[..n], add);
      var m := MergeList(s, w, list[..n], add);
      ShapedRoom(s, m, w, list);
      assert HasRoom(m.nodes, w, list[n]);
      EntryStep(m, w, list[n], add);
      ShapedEntryOps(s, m, w, list[n], add);
      ComputesThen(ListOps(s.nodes, w, list[..n], add), EntryOps(s.nodes, w, list[n], add), s, m,
                   MergeList(s, w, list, add));
    }
  }

  lemma WorkersNext(s: Store, m: Store, ops: seq<MergeOp>, w: Store, list: seq<nat>, add: Adder)
    requires AllFit(s) && Shaped(s, m) && AllFit(m) && AllFit(w) && AllHaveRoom(m.nodes, w, list) && Computes(ops, s, m)
    ensures Computes(ops + ListOps(s.nodes, w, list, add), s, MergeList(m, w, list, add))
  {
    ListStep(m, w, list, add);
    ShapedListOps(s, m, w, list, add);
    ComputesThen(ops, ListOps(s.nodes, w, list, add), s, m, MergeList(m, w, list, add));
  }

  lemma NothingComputed(s: Store)
    requires AllFit(s)
    ensures Computes([], s, s)
  {
  }

  lemma {:induction false} WorkersStep(s: Store, workers: seq<Worker>, k: nat, add: Adder)
    requires Mergeable(s, workers) && k <= |workers|
    ensures Computes(WorkerOps(s.nodes, workers, k, add), s, MergeWorkers(s, workers, k, add))
  {
    hide Computes, AllHaveRoom, ListOps, MergeList;
    if k == 0 {
      NothingComputed(s);
    } else {
      WorkersStep(s, workers, k - 1, add);
      var w := workers[k - 1];
      var m := MergeWorkers(s, workers, k - 1, add);
      ShapedRoom(s, m, w.delta, w.touched);
      WorkersNext(s, m, WorkerOps(s.nodes, workers, k - 1, add), w.delta, w.touched, add);
    }
  }

  // ----- each cell belongs to one shard -----

  /** The cell is the hint, a regret or a strategy sum of node g. */
  predicate Of(nodes: seq<Node>, g: nat, c: Cell) {
    g < |nodes| &&
    match c
    case HintCell(i) => i == g
    case RegretCell(i) => nodes[g].regretAt <= i < nodes[g].regretAt + nodes[g].actions
    case StrategyCell(i) =>
      nodes[g].strategyAt.Some? && nodes[g].strategyAt.value <= i < nodes[g].strategyAt.value + nodes[g].actions
  }

  /** No cell belongs to two nodes: their regions are apart. */
  lemma OneNode(s: Store, g: nat, h: nat, c: Cell)
    requires Ok(s) && Of(s.nodes, g, c) && Of(s.nodes, h, c)
    ensures g == h
  {
    assert g != h ==> Apart(s.nodes[g], s.nodes[h]);
  }

  /** The shard of the node a cell belongs to. */
  ghost function CellShard(nodes: seq<Node>, mix: Key -> nat, shards: nat, c: Cell): (s: nat)
    ensures 0 < shards ==> s < shards
  {
    if exists g: nat :: Of(nodes, g, c) then
      var g: nat :| Of(nodes, g, c);
      KeyShard(mix, shards, nodes[g].key)
    else 0
  }

  lemma CellShardIs(s: Store, mix: Key -> nat, shards: nat, g: nat, c: Cell)
    requires Ok(s) && Of(s.nodes, g, c)
    ensures CellShard(s.nodes, mix, shards, c) == KeyShard(mix, shards, s.nodes[g].key)
  {
    forall h: nat | Of(s.nodes, h, c)
      ensures h == g
    {
      OneNode(s, g, h, c);
    }
  }

  ghost predicate AllOf(nodes: seq<Node>, g: nat, ops: seq<MergeOp>) {
    forall i :: 0 <= i < |ops| ==> Of(nodes, g, ops[i].cell)
  }

  lemma {:induction false} ActionCells(nodes: seq<Node>, g: nat, w: Store, n: Node, k: nat, add: Adder)
    requires g < |nodes| && Fits(w, n) && k <= n.actions && k <= nodes[g].actions
    ensures AllOf(nodes, g, ActionOps(nodes[g], w, n, k, add))
  {
    if k > 0 {
      ActionCells(nodes, g, w, n, k - 1, add);
    }
  }

  /** An entry's operations stay inside its key's node. */
  lemma EntryCells(nodes: seq<Node>, w: Store, idx: nat, add: Adder)
    requires AllFit(w) && idx < |w.nodes| && HasRoom(nodes, w, idx)
    ensures var g := Find(nodes, w.nodes[idx].key);
            if g.None? then EntryOps(nodes, w, idx, add) == [] else AllOf(nodes, g.value, EntryOps(nodes, w, idx, add))
  {
    var n := w.nodes[idx];
    var g := Find(nodes, n.key);
    if g.Some? {
      ActionCells(nodes, g.value, w, n, n.actions, add);
    }
  }

  ghost predicate InShard(nodes: seq<Node>, mix: Key -> nat, shards: nat, shard: int, ops: seq<MergeOp>) {
    forall i :: 0 <= i < |ops| ==> CellShard(nodes, mix, shards, ops[i].cell) == shard
  }

  lemma EntryInShard(s: Store, w: Store, idx: nat, mix: Key -> nat, shards: nat, add: Adder)
    requires Ok(s) && AllFit(w) && HasRoom(s.nodes, w, idx)
    ensures InShard(s.nodes, mix, shards, ShardOf(w, mix, shards)(idx), EntryOps(s.nodes, w, idx, add))
  {
    if idx < |w.nodes| {
      EntryCells(s.nodes, w, idx, add);
      var g := Find(s.nodes, w.nodes[idx].key);
      var ops := EntryOps(s.nodes, w, idx, add);
      forall i | 0 <= i < |ops|
        ensures CellShard(s.nodes, mix, shards, ops[i].cell) == KeyShard(mix, shards, w.nodes[idx].key)
      {
        CellShardIs(s, mix, shards, g.value, ops[i].cell);
      }
    }
  }

  /** Only the entries of a cell's own shard act on it. */
  lemma {:induction false} ListAtCell(s: Store, w: Store, list: seq<nat>, mix: Key -> nat, shards: nat, c: Cell,
                                      add: Adder)
    requires Ok(s) && AllFit(w) && AllHaveRoom(s.nodes, w, list)
    ensures var part := Filter(list, ShardOf(w, mix, shards), CellShard(s.nodes, mix, shards, c));
            I.OpsAt(ListOps(s.nodes, w, list, add), c) == I.OpsAt(ListOps(s.nodes, w, part, add), c)
  {
    if list != [] {
      var n, shard := |list| - 1, CellShard(s.nodes, mix, shards, c);
      assert HasRoom(s.nodes, w, list[n]);
      ListAtCell(s, w, list[..n], mix, shards, c, add);
      EntryInShard(s, w, list[n], mix, shards, add);
      var front, last := ListOps(s.nodes, w, list[..n], add), EntryOps(s.nodes, w, list[n], add);
      I.OpsAtAppend(front, last, c);
      var part := Filter(list[..n], ShardOf(w, mix, shards), shard);
      if ShardOf(w, mix, shards)(list[n]) == shard {
        assert (part + [list[n]])[..|part|] == part;
        I.OpsAtAppend(ListOps(s.nodes, w, part, add), last, c);
      } else {
        I.NoOpsAt(last, c);
      }
    }
  }

  lemma WorkerAtCell(s: Store, ops: seq<MergeOp>, part: seq<MergeOp>, w: Store, list: seq<nat>, mix: Key -> nat,
                     shards: nat,
                     c: Cell, add: Adder)
    requires Ok(s) && AllFit(w) && AllHaveRoom(s.nodes, w, list) && I.OpsAt(ops, c) == I.OpsAt(part, c)
    ensures I.OpsAt(ops + ListOps(s.nodes, w, list, add), c) ==
            I.OpsAt(part + ListOps(s.nodes, w,
                                   Filter(list, ShardOf(w, mix, shards), CellShard(s.nodes, mix, shards, c)), add), c)
  {
    ListAtCell(s, w, list, mix, shards, c, add);
    var mine := Filter(list, ShardOf(w, mix, shards), CellShard(s.nodes, mix, shards, c));
    I.OpsAtAppend(ops, ListOps(s.nodes, w, list, add), c);
    I.OpsAtAppend(part, ListOps(s.nodes, w, mine, add), c);
  }

  lemma {:induction false} WorkersAtCell(s: Store, workers: seq<Worker>, k: nat, mix: Key -> nat, shards: nat, c: Cell,
                                         add: Adder)
    requires Ok(s) && Mergeable(s, workers) && k <= |workers|
    ensures I.OpsAt(WorkerOps(s.nodes, workers, k, add), c) ==
            I.OpsAt(ShardOps(s.nodes, workers, k, mix, shards, CellShard(s.nodes, mix, shards, c), add), c)
  {
    hide Ok, CellShard, I.OpsAt, ListOps, AllFit, Filter;
    if k > 0 {
      var w, shard := workers[k - 1], CellShard(s.nodes, mix, shards, c);
      WorkersAtCell(s, workers, k - 1, mix, shards, c, add);
      WorkerAtCell(s, WorkerOps(s.nodes, workers, k - 1, add),
                   ShardOps(s.nodes, workers, k - 1, mix, shards, shard, add),
                   w.delta, w.touched, mix, shards, c, add);
    }
  }

  lemma {:induction false} FilteredRoom(nodes: seq<Node>, w: Store, list: seq<nat>, shard: Sharding, s: int)
    requires AllHaveRoom(nodes, w, list)
    ensures AllHaveRoom(nodes, w, Filter(list, shard, s))
    ensures forall i :: 0 <= i < |Filter(list, shard, s)| ==> shard(Filter(list, shard, s)[i]) == s
  {
    if list != [] {
      FilteredRoom(nodes, w, list[..|list| - 1], shard, s);
    }
  }

  lemma {:induction false} ListInShard(s: Store, w: Store, list: seq<nat>, mix: Key -> nat, shards: nat, shard: int,
                                       add: Adder)
    requires Ok(s) && AllFit(w) && AllHaveRoom(s.nodes, w, list)
    requires forall i :: 0 <= i < |list| ==> ShardOf(w, mix, shards)(list[i]) == shard
    ensures InShard(s.nodes, mix, shards, shard, ListOps(s.nodes, w, list, add))
  {
    if list != [] {
      assert HasRoom(s.nodes, w, list[|list| - 1]);
      ListInShard(s, w, list[..|list| - 1], mix, shards, shard, add);
      EntryInShard(s, w, list[|list| - 1], mix, shards, add);
    }
  }

  lemma {:induction false} ShardInShard(s: Store, workers: seq<Worker>, k: nat, mix: Key -> nat, shards: nat,
                                        shard: nat, add: Adder)
    requires Ok(s) && Mergeable(s, workers) && k <= |workers|
    ensures InShard(s.nodes, mix, shards, shard, ShardOps(s.nodes, workers, k, mix, shards, shard, add))
    ensures I.Within(ShardOps(s.nodes, workers, k, mix, shards, shard, add), Memory(s))
  {
    if k > 0 {
      var w := workers[k - 1];
      var part := Filter(w.touched, ShardOf(w.delta, mix, shards), shard);
      ShardInShard(s, workers, k - 1, mix, shards, shard, add);
      FilteredRoom(s.nodes, w.delta, w.touched, ShardOf(w.delta, mix, shards), shard);
      ListInShard(s, w.delta, part, mix, shards, shard, add);
      ListStep(s, w.delta, part, add);
    }
  }

  // ----- every interleaving -----

  ghost function ShardThreads(nodes: seq<Node>, workers: seq<Worker>, mix: Key -> nat, shards: nat,
                              add: Adder): (p: seq<seq<MergeOp>>)
    requires AllDeltasFit(workers)
    ensures |p| == shards
    ensures forall s :: 0 <= s < shards ==> p[s] == ShardOps(nodes, workers, |workers|, mix, shards, s, add)
  {
    seq(shards, s requires 0 <= s < shards => ShardOps(nodes, workers, |workers|, mix, shards, s, add))
  }

  lemma ThreadsAreOwned(s: Store, workers: seq<Worker>, mix: Key -> nat, shards: nat, add: Adder)
    requires Ok(s) && Mergeable(s, workers)
    ensures var progs := ShardThreads(s.nodes, workers, mix, shards, add);
            I.AllWithin(progs, Memory(s)) && I.Owned(progs, c => CellShard(s.nodes, mix, shards, c))
  {
    var progs := ShardThreads(s.nodes, workers, mix, shards, add);
    forall t | 0 <= t < shards
      ensures InShard(s.nodes, mix, shards, t, progs[t]) && I.Within(progs[t], Memory(s))
    {
      ShardInShard(s, workers, |workers|, mix, shards, t, add);
    }
  }

  /**
   The sharded merge: one thread per shard, a read or a write per step, in any
   order. When all threads are done the shared memory is that of the
   single-threaded merge, worker after worker.
   */
  lemma ShardedMergeIsSequential(s: Store, workers: seq<Worker>, mix: Key -> nat, shards: nat, add: Adder,
                                 schedule: seq<nat>, states: seq<I.Machine<Cell, Value>>)
    requires Ok(s) && Mergeable(s, workers) && 0 < shards
    requires I.Run(ShardThreads(s.nodes, workers, mix, shards, add), Memory(s), schedule, states)
    requires I.Finished(ShardThreads(s.nodes, workers, mix, shards, add), states[|schedule|])
    ensures states[|schedule|].memory == Memory(MergeWorkers(s, workers, |workers|, add))
  {
    var progs, main := ShardThreads(s.nodes, workers, mix, shards, add), WorkerOps(s.nodes, workers, |workers|, add);
    var owner := c => CellShard(s.nodes, mix, shards, c);
    ThreadsAreOwned(s, workers, mix, shards, add);
    WorkersStep(s, workers, |workers|, add);
    forall c
      ensures I.OpsAt(main, c) == I.OpsAt(progs[owner(c)], c)
    {
      WorkersAtCell(s, workers, |workers|, mix, shards, c, add);
    }
    I.EveryScheduleAgrees(main, progs, owner, Memory(s), schedule, states);
  }
}
