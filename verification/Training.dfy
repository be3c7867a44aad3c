/**
 The coordinator's and the workers' loops over whole stores: differences from the
 base, creation of missing keys, and the merge, by scanning a worker's touched
 list or by one segment of its partition. The store a loop only reads is a value.
 */
module Training {
  import opened Options
  import opened Arenas
  import opened Stores
  import opened Blueprints
  import opened Partitions
  import opened Merges
  import opened Deltas
  import opened Overlays

  // ----- merging -----

  /** Gives a node its street if it has none. */
  method HintNode(b: Blueprint, g: nat, street: int)
    requires b.Kept() && g < |b.nodes|
    modifies b`nodes
    ensures b.Kept() && b.View() == MergeHint(old(b.View()), g, street)
  {
    if b.nodes[g].street > 3 {
      b.SetNode(g, b.nodes[g].(street := street));
    }
  }

  method AddRegret(b: Blueprint, g: nat, a: nat, d: int)
    requires g < |b.nodes| && Fits(b.View(), b.nodes[g]) && a < b.nodes[g].actions
    modifies b`regrets
    ensures b.View() == MergeRegret(old(b.View()), g, a, d)
  {
    b.PutRegret(g, a, Clamp(b.regrets[b.nodes[g].regretAt + a] + d));
  }

  method AddSum(b: Blueprint, g: nat, a: nat, d: real, add: Adder)
    requires g < |b.nodes| && Fits(b.View(), b.nodes[g]) && a < b.nodes[g].actions && b.nodes[g].strategyAt.Some?
    modifies b`strategies
    ensures b.View() == MergeStrategy(old(b.View()), g, a, d, add)
  {
    b.PutStrategy(g, a, add(b.strategies[b.nodes[g].strategyAt.value + a], d));
  }

  method AddAction(b: Blueprint, g: nat, w: Store, n: Node, a: nat, add: Adder)
    requires g < |b.nodes| && Fits(b.View(), b.nodes[g]) && a < b.nodes[g].actions && Fits(w, n) && a < n.actions
    modifies b`regrets, b`strategies
    ensures b.View() == MergeAction(old(b.View()), g, w, n, a, add)
  {
    AddRegret(b, g, a, w.regrets[n.regretAt + a]);
    if b.nodes[g].strategyAt.Some? && n.strategyAt.Some? {
      AddSum(b, g, a, w.strategies[n.strategyAt.value + a], add);
    }
  }

  lemma StillFits(s: Store, g: nat, w: Store, n: Node, a: nat, add: Adder)
    requires g < |s.nodes| && Fits(s, s.nodes[g]) && Fits(w, n) && a < n.actions <= s.nodes[g].actions
    ensures var r := MergeActions(s, g, w, n, a, add); Fits(r, r.nodes[g]) && a < r.nodes[g].actions
  {
    assert SamePlace(s.nodes[g], MergeActions(s, g, w, n, a, add).nodes[g]);
  }

  method AddActions(b: Blueprint, g: nat, w: Store, n: Node, add: Adder)
    requires g < |b.nodes| && Fits(b.View(), b.nodes[g]) && Fits(w, n) && n.actions <= b.nodes[g].actions
    modifies b`regrets, b`strategies
    ensures b.View() == MergeActions(old(b.View()), g, w, n, n.actions, add)
  {
    for a := 0 to n.actions
      invariant b.View() == MergeActions(old(b.View()), g, w, n, a, add)
    {
      StillFits(old(b.View()), g, w, n, a, add);
      AddAction(b, g, w, n, a, add);
    }
  }

  method AddNode(b: Blueprint, g: nat, w: Store, n: Node, add: Adder)
    requires b.Kept() && g < |b.nodes| && Fits(b.View(), b.nodes[g]) && Fits(w, n) && n.actions <= b.nodes[g].actions
    modifies b`nodes, b`regrets, b`strategies
    ensures b.Kept() && b.View() == MergeActions(MergeHint(old(b.View()), g, n.street), g, w, n, n.actions, add)
  {
    hide MergeActions;
    HintNode(b, g, n.street);
    AddActions(b, g, w, n, add);
  }

  /** Adds one touched entry of a worker. */
  method AddEntry(b: Blueprint, w: Store, idx: nat, add: Adder)
    requires b.Kept() && AllFit(b.View()) && AllFit(w) && HasRoom(b.nodes, w, idx)
    modifies b`nodes, b`regrets, b`strategies
    ensures b.Kept() && b.View() == MergeEntry(old(b.View()), w, idx, add)
  {
    if idx < |w.nodes| {
      var g := b.FindOwn(w.nodes[idx].key);
      if g.Some? {
        AddNode(b, g.value, w, w.nodes[idx], add);
      }
    }
  }

  method MergeIndices(b: Blueprint, w: Store, list: seq<nat>, add: Adder)
    requires b.Kept() && AllFit(b.View()) && AllFit(w) && AllHaveRoom(b.nodes, w, list)
    modifies b`nodes, b`regrets, b`strategies
    ensures b.Kept() && b.View() == MergeList(old(b.View()), w, list, add)
  {
    ghost var s := b.View();
    for i := 0 to |list|
      invariant b.Kept() && AllHaveRoom(s.nodes, w, list[..i])
      invariant b.View() == MergeList(s, w, list[..i], add)
    {
      NextRoom(s, w, list, i, add);
      AddEntry(b, w, list[i], add);
    }
    assert list[..|list|] == list;
  }

  /** One shard's entries of a worker, from the segment its partition laid out. */
  method MergeSegment(b: Blueprint, w: Store, indices: array<nat>, offsets: array<nat>, touched: seq<nat>,
                      mix: Key -> nat, shard: nat, shards: nat, add: Adder)
    requires b.Kept() && AllFit(b.View()) && AllFit(w) && AllHaveRoom(b.nodes, w, touched)
    requires AllHaveRoom(b.nodes, w, Filter(touched, ShardOf(w, mix, shards), shard))
    requires shard < shards < offsets.Length
    requires Segmented(indices[..], offsets[..], touched, ShardOf(w, mix, shards), shard)
    modifies b`nodes, b`regrets, b`strategies
    ensures b.Kept() && b.View() == MergeList(old(b.View()), w, Filter(touched, ShardOf(w, mix, shards), shard), add)
  {
    MergeIndices(b, w, indices[..][offsets[shard]..offsets[shard + 1]], add);
  }

  lemma NextRoom(s: Store, w: Store, list: seq<nat>, i: nat, add: Adder)
    requires AllFit(s) && AllFit(w) && AllHaveRoom(s.nodes, w, list) && i < |list|
    ensures AllHaveRoom(s.nodes, w, list[..i]) && AllHaveRoom(s.nodes, w, list[..i + 1])
    ensures var m := MergeList(s, w, list[..i], add);
            HasRoom(m.nodes, w, list[i]) && MergeList(s, w, list[..i + 1], add) == MergeEntry(m, w, list[i], add)
  {
    var m := MergeList(s, w, list[..i], add);
    ShapedRoom(s, m, w, list);
    assert list[..i + 1][..i] == list[..i];
  }

  /** The same by scanning the whole touched list for the shard's keys. */
  method MergeShard(b: Blueprint, w: Store, touched: seq<nat>, mix: Key -> nat, shard: nat, shards: nat, add: Adder)
    requires b.Kept() && AllFit(b.View()) && AllFit(w) && AllHaveRoom(b.nodes, w, touched)
    requires AllHaveRoom(b.nodes, w, Filter(touched, ShardOf(w, mix, shards), shard))
    modifies b`nodes, b`regrets, b`strategies
    ensures b.Kept() && b.View() == MergeList(old(b.View()), w, Filter(touched, ShardOf(w, mix, shards), shard), add)
  {
    ghost var s, sharding := b.View(), ShardOf(w, mix, shards);
    for i := 0 to |touched|
      invariant b.Kept() && AllHaveRoom(s.nodes, w, Filter(touched[..i], sharding, shard))
      invariant b.View() == MergeList(s, w, Filter(touched[..i], sharding, shard), add)
    {
      NextFiltered(s, w, touched, i, sharding, shard, add);
      if touched[i] < |w.nodes| && KeyShard(mix, shards, w.nodes[touched[i]].key) == shard {
        AddEntry(b, w, touched[i], add);
      }
    }
    assert touched[..|touched|] == touched;
  }

  lemma NextFiltered(s: Store, w: Store, list: seq<nat>, i: nat, sharding: Sharding, shard: nat, add: Adder)
    requires AllFit(s) && AllFit(w) && AllHaveRoom(s.nodes, w, list) && i < |list|
    requires AllHaveRoom(s.nodes, w, Filter(list[..i], sharding, shard))
    ensures var part, next := Filter(list[..i], sharding, shard), Filter(list[..i + 1], sharding, shard);
            && AllHaveRoom(s.nodes, w, next)
            && (var m := MergeList(s, w, part, add);
                if sharding(list[i]) == shard
                then HasRoom(m.nodes, w, list[i]) && MergeList(s, w, next, add) == MergeEntry(m, w, list[i], add)
                else next == part)
  {
    var part := Filter(list[..i], sharding, shard);
    FilterNext(list, sharding, shard, i);
    var m := MergeList(s, w, part, add);
    if sharding(list[i]) == shard {
      assert HasRoom(s.nodes, w, list[i]);
      assert (part + [list[i]])[..|part|] == part;
      ShapedRoom(s, m, w, part + [list[i]]);
      assert HasRoom(m.nodes, w, (part + [list[i]])[|part|]);
    }
  }

  /** One shard takes every entry, so scanning for shard 0 of 1 is the merge of the whole list. */
  lemma {:induction false} OneShardIsAll(s: Store, w: Store, list: seq<nat>, mix: Key -> nat, add: Adder)
    requires AllFit(s) && AllFit(w) && AllHaveRoom(s.nodes, w, list)
    ensures AllHaveRoom(s.nodes, w, Filter(list, ShardOf(w, mix, 1), 0))
    ensures MergeList(s, w, Filter(list, ShardOf(w, mix, 1), 0), add) == MergeList(s, w, list, add)
  {
    FilteredRoom(s.nodes, w, list, ShardOf(w, mix, 1), 0);
    if list != [] {
      var n := |list| - 1;
      OneShardIsAll(s, w, list[..n], mix, add);
      var part := Filter(list[..n], ShardOf(w, mix, 1), 0);
      if list[n] < |w.nodes| {
        assert (part + [list[n]])[..|part|] == part;
      }
    }
  }

  lemma NextWorker(s: Store, workers: seq<Worker>, k: nat, mix: Key -> nat, add: Adder)
    requires Mergeable(s, workers) && k < |workers|
    ensures var w, m := workers[k], MergeWorkers(s, workers, k, add);
            var part := Filter(w.touched, ShardOf(w.delta, mix, 1), 0);
            && AllHaveRoom(m.nodes, w.delta, w.touched) && AllHaveRoom(m.nodes, w.delta, part)
            && MergeWorkers(s, workers, k + 1, add) == MergeList(m, w.delta, part, add)
  {
    var w, m := workers[k], MergeWorkers(s, workers, k, add);
    ShapedRoom(s, m, w.delta, w.touched);
    OneShardIsAll(m, w.delta, w.touched, mix, add);
  }

  /** The single-threaded mode: every worker in turn, scanned as shard 0 of 1. */
  method MergeDeterministic(b: Blueprint, workers: seq<Worker>, mix: Key -> nat, add: Adder)
    requires b.Kept() && Mergeable(b.View(), workers)
    modifies b`nodes, b`regrets, b`strategies
    ensures b.Kept() && b.View() == MergeWorkers(old(b.View()), workers, |workers|, add)
  {
    ghost var s := b.View();
    for k := 0 to |workers|
      invariant b.Kept() && b.View() == MergeWorkers(s, workers, k, add)
    {
      NextWorker(s, workers, k, mix, add);
      MergeShard(b, workers[k].delta, workers[k].touched, mix, 0, 1, add);
    }
  }

  // ----- differences -----

  method SubtractAction(b: Blueprint, g: nat, p: Option<Payload>, ratio: real, a: nat)
    requires g < |b.nodes| && Fits(b.View(), b.nodes[g]) && a < b.nodes[g].actions
    modifies b`regrets, b`strategies
    ensures b.View() == MapCell(old(b.View()), g, LessRegret(p, ratio), LessSum(p, ratio), a)
  {
    var r := b.regrets[b.nodes[g].regretAt + a];
    var v := Wrap(r - RegretShare(p, ratio, a));
    assert v == LessRegret(p, ratio)(a, r);
    b.PutRegret(g, a, v);
    if b.nodes[g].strategyAt.Some? {
      var x := b.strategies[b.nodes[g].strategyAt.value + a];
      var y := x - StrategyShare(p, ratio, a);
      assert y == LessSum(p, ratio)(a, x);
      b.PutStrategy(g, a, y);
    }
  }

  method SubtractActions(b: Blueprint, g: nat, p: Option<Payload>, ratio: real)
    requires g < |b.nodes| && Fits(b.View(), b.nodes[g])
    modifies b`regrets, b`strategies
    ensures b.View() == MapCells(old(b.View()), g, LessRegret(p, ratio), LessSum(p, ratio), b.nodes[g].actions)
  {
    for a := 0 to b.nodes[g].actions
      invariant b.View() == MapCells(old(b.View()), g, LessRegret(p, ratio), LessSum(p, ratio), a)
    {
      SubtractAction(b, g, p, ratio, a);
    }
  }

  method MarkNode(b: Blueprint, idx: nat, link: Option<nat>)
    requires b.Kept() && idx < |b.nodes|
    modifies b`nodes
    ensures b.Kept() && b.View() == MarkBase(old(b.View()), idx, link)
  {
    var n := b.nodes[idx];
    b.SetNode(idx, n.(base := if link.Some? then link else n.base, isNew := link.None?));
  }

  /** Turns one touched node into its difference from the base. */
  method SubtractEntry(b: Blueprint, base: Store, idx: nat)
    requires b.Kept() && AllFit(b.View()) && AllFit(base)
    modifies b`nodes, b`regrets, b`strategies
    ensures b.Kept() && b.View() == DeltaEntry(old(b.View()), base, idx)
  {
    if idx < |b.nodes| {
      var link := BaseNode(base.nodes, b.nodes[idx]);
      MarkNode(b, idx, link);
      var p := LinkedPayload(base, link);
      SubtractActions(b, idx, p, RatioOf(p, base.scale));
    }
  }

  /** Turns a worker's touched nodes into differences from the base. */
  method SubtractBase(b: Blueprint, base: Store, touched: seq<nat>)
    requires b.Kept() && AllFit(b.View()) && AllFit(base)
    modifies b`nodes, b`regrets, b`strategies
    ensures b.Kept() && b.View() == DeltaList(old(b.View()), base, touched)
  {
    ghost var s := b.View();
    for i := 0 to |touched|
      invariant b.Kept() && b.View() == DeltaList(s, base, touched[..i])
    {
      assert touched[..i + 1][..i] == touched[..i];
      SubtractEntry(b, base, touched[i]);
    }
    assert touched[..|touched|] == touched;
  }

  // ----- creating what the base lacks -----

  method HintKey(b: Blueprint, key: Key, street: int)
    requires b.Kept()
    modifies b`nodes
    ensures b.Kept()
    ensures var s := old(b.View()); var g := Find(s.nodes, key);
            b.View() == if g.None? then s else MergeHint(s, g.value, street)
  {
    var g := b.FindOwn(key);
    if g.Some? {
      HintNode(b, g.value, street);
    }
  }

  method PrecreateNode(b: Blueprint, n: Node)
    requires b.Ready() && b.base == null
    modifies b.Repr
    ensures b.Valid() && b.base == null && fresh(b.Repr - old(b.Repr))
    ensures var t := Touch(old(b.View()), None, n.key, n.actions, n.street);
            b.View() == if Find(t.nodes, n.key).None? then t else MergeHint(t, Find(t.nodes, n.key).value, n.street)
  {
    hide Touch, MergeHint;
    var _ := b.GetForWrite(n.key, n.actions, n.street);
    HintKey(b, n.key, n.street);
  }

  method PrecreateIfNew(b: Blueprint, w: Store, idx: nat)
    requires b.Valid() && b.base == null && Ok(b.View())
    modifies b.Repr
    ensures b.Valid() && b.base == null && fresh(b.Repr - old(b.Repr))
    ensures b.View() == PrecreateEntry(old(b.View()), w, idx)
  {
    if idx < |w.nodes| && w.nodes[idx].isNew {
      var n := w.nodes[idx];
      TouchFlat(b.View(), None, n.key, n.actions, n.street);
      PrecreateNode(b, n);
    }
  }

  /** Creates in the base every new key a worker touched. */
  method Precreate(b: Blueprint, w: Store, touched: seq<nat>)
    requires b.Valid() && b.base == null && Ok(b.View())
    modifies b.Repr
    ensures b.Valid() && b.base == null && b.View() == PrecreateList(old(b.View()), w, touched)
  {
    ghost var s := b.View();
    for i := 0 to |touched|
      invariant b.Valid() && b.base == null && fresh(b.Repr - old(b.Repr))
      invariant b.View() == PrecreateList(s, w, touched[..i])
    {
      assert touched[..i + 1][..i] == touched[..i];
      PrecreateIfNew(b, w, touched[i]);
    }
    assert touched[..|touched|] == touched;
  }
}
