/**
 The sequential merge key by key: each key of the destination ends with the fold,
 in worker order, of what the workers bring for it, and no key is added.
 */
module Deltas {
  import opened Options
  import opened Sequences
  import opened Arenas
  import opened Merges

  // ----- merging on the map -----

  predicate Whole2(p: Payload, d: Payload) {
    WholePayload(p) && WholePayload(d) && |d.regrets| <= |p.regrets|
  }

  function PlusAction(p: Payload, d: Payload, a: nat, add: Adder): (q: Payload)
    requires Whole2(p, d) && a < |d.regrets|
    ensures Whole2(q, d) && |q.regrets| == |p.regrets| && q.strategy.Some? == p.strategy.Some? && q.stamp == p.stamp
  {
    p.(regrets := p.regrets[a := Clamp(p.regrets[a] + d.regrets[a])],
       strategy := if p.strategy.Some? && d.strategy.Some?
                   then Some(p.strategy.value[a := add(p.strategy.value[a], d.strategy.value[a])]) else p.strategy)
  }

  function PlusActions(p: Payload, d: Payload, k: nat, add: Adder): (q: Payload)
    requires Whole2(p, d) && k <= |d.regrets|
    ensures Whole2(q, d) && |q.regrets| == |p.regrets| && q.strategy.Some? == p.strategy.Some? && q.stamp == p.stamp
  {
    if k == 0 then p else PlusAction(PlusActions(p, d, k - 1, add), d, k - 1, add)
  }

  /** A payload with a difference added: the street if it was unknown, and every action. */
  function Plus(p: Payload, d: Payload, add: Adder): (q: Payload)
    requires Whole2(p, d)
    ensures WholePayload(q) && |q.regrets| == |p.regrets| && q.strategy.Some? == p.strategy.Some? && q.stamp == p.stamp
  {
    PlusActions(p.(street := if p.street > 3 then d.street else p.street), d, |d.regrets|, add)
  }

  lemma {:induction false} PlusActionsAt(p: Payload, d: Payload, k: nat, add: Adder, a: nat)
    requires Whole2(p, d) && k <= |d.regrets| && a < |p.regrets|
    ensures var q := PlusActions(p, d, k, add);
            && q.street == p.street
            && q.regrets[a] == (if a < k then Clamp(p.regrets[a] + d.regrets[a]) else p.regrets[a])
            && (p.strategy.Some? ==>
                  q.strategy.value[a] ==
                  if a < k && d.strategy.Some? then add(p.strategy.value[a], d.strategy.value[a])
                  else p.strategy.value[a])
  {
    if k > 0 {
      PlusActionsAt(p, d, k - 1, add, a);
    }
  }

  // ----- one node at a time -----

  lemma MergeRegretReplaces(s: Store, g: nat, a: nat, d: int)
    requires Ok(s) && g < |s.nodes| && a < s.nodes[g].actions
    ensures var p := PayloadOf(s, s.nodes[g]);
            Replaced(s, MergeRegret(s, g, a, d), g, p.(regrets := p.regrets[a := Clamp(p.regrets[a] + d)]))
  {
    RegretReplaces(s, g, a, Clamp(s.regrets[s.nodes[g].regretAt + a] + d));
  }

  lemma MergeStrategyReplaces(s: Store, g: nat, a: nat, d: real, add: Adder)
    requires Ok(s) && g < |s.nodes| && a < s.nodes[g].actions && s.nodes[g].strategyAt.Some?
    ensures var p := PayloadOf(s, s.nodes[g]);
            Replaced(s, MergeStrategy(s, g, a, d, add), g,
                     p.(strategy := Some(p.strategy.value[a := add(p.strategy.value[a], d)])))
  {
    StrategyReplaces(s, g, a, add(s.strategies[s.nodes[g].strategyAt.value + a], d));
  }

  lemma StrategyAfterRegret(s: Store, m: Store, g: nat, p: Payload, a: nat, d: real, add: Adder)
    requires Ok(s) && Replaced(s, m, g, p) && a < s.nodes[g].actions && s.nodes[g].strategyAt.Some?
    ensures Fits(m, m.nodes[g]) && p.strategy.Some? && |p.strategy.value| == s.nodes[g].actions
    ensures Replaced(s, MergeStrategy(m, g, a, d, add), g,
                     p.(strategy := Some(p.strategy.value[a := add(p.strategy.value[a], d)])))
  {
    ShapedOk(s, m);
    MergeStrategyReplaces(m, g, a, d, add);
    ReplacedTwice(s, m, MergeStrategy(m, g, a, d, add), g, p,
                  p.(strategy := Some(p.strategy.value[a := add(p.strategy.value[a], d)])));
  }

  lemma MergeActionReplaces(s: Store, g: nat, w: Store, n: Node, a: nat, add: Adder)
    requires Ok(s) && g < |s.nodes| && a < s.nodes[g].actions && Fits(w, n) && a < n.actions <= s.nodes[g].actions
    ensures var p := PayloadOf(s, s.nodes[g]); var d := PayloadOf(w, n);
            Whole2(p, d) && Replaced(s, MergeAction(s, g, w, n, a, add), g, PlusAction(p, d, a, add))
  {
    hide Replaced, Apart;
    var p, d := PayloadOf(s, s.nodes[g]), w.regrets[n.regretAt + a];
    MergeRegretReplaces(s, g, a, d);
    var m := MergeRegret(s, g, a, d);
    assert SamePlace(s.nodes[g], m.nodes[g]);
    if s.nodes[g].strategyAt.Some? && n.strategyAt.Some? {
      StrategyAfterRegret(s, m, g, p.(regrets := p.regrets[a := Clamp(p.regrets[a] + d)]), a,
                          w.strategies[n.strategyAt.value + a], add);
    }
  }

  lemma MergeActionAfter(s: Store, m: Store, g: nat, p: Payload, w: Store, n: Node, d: Payload, a: nat, add: Adder)
    requires Ok(s) && Replaced(s, m, g, p) && Fits(w, n) && a < n.actions <= s.nodes[g].actions && d == PayloadOf(w, n)
    ensures Fits(m, m.nodes[g]) && a < m.nodes[g].actions && Whole2(p, d)
    ensures Replaced(s, MergeAction(m, g, w, n, a, add), g, PlusAction(p, d, a, add))
  {
    ShapedOk(s, m);
    MergeActionReplaces(m, g, w, n, a, add);
    ReplacedTwice(s, m, MergeAction(m, g, w, n, a, add), g, p, PlusAction(p, d, a, add));
  }

  lemma {:induction false} MergeActionsReplaces(s: Store, g: nat, p: Payload, w: Store, n: Node, d: Payload, k: nat,
                                                add: Adder)
    requires Ok(s) && g < |s.nodes| && Replaced(s, s, g, p) && Fits(w, n) && k <= n.actions <= s.nodes[g].actions
    requires d == PayloadOf(w, n)
    requires Whole2(p, d)
    ensures Replaced(s, MergeActions(s, g, w, n, k, add), g, PlusActions(p, d, k, add))
  {
    hide Replaced, Apart;
    if k > 0 {
      var a := k - 1;
      MergeActionsReplaces(s, g, p, w, n, d, a, add);
      MergeActionAfter(s, MergeActions(s, g, w, n, a, add), g, PlusActions(p, d, a, add), w, n, d, a, add);
    }
  }

  function HintStreet(p: Payload, street: int): Payload {
    p.(street := if p.street > 3 then street else p.street)
  }

  lemma MergeHintReplaces(s: Store, g: nat, street: int)
    requires Ok(s) && g < |s.nodes|
    ensures Replaced(s, MergeHint(s, g, street), g, HintStreet(PayloadOf(s, s.nodes[g]), street))
  {
    var n := s.nodes[g];
    EntryReplaces(s, g, if n.street > 3 then n.(street := street) else n);
  }

  lemma MergeEntryReplaces(s: Store, w: Store, idx: nat, g: nat, add: Adder)
    requires Ok(s) && AllFit(w) && HasRoom(s.nodes, w, idx) && idx < |w.nodes|
    requires Find(s.nodes, w.nodes[idx].key) == Some(g)
    ensures var p := PayloadOf(s, s.nodes[g]); var d := PayloadOf(w, w.nodes[idx]);
            Whole2(p, d) && Replaced(s, MergeEntry(s, w, idx, add), g, Plus(p, d, add))
  {
    var n, p := w.nodes[idx], PayloadOf(s, s.nodes[g]);
    var d, m := PayloadOf(w, n), MergeHint(s, g, n.street);
    MergeHintReplaces(s, g, n.street);
    ShapedOk(s, m);
    SameReplaced(m, g);
    MergeActionsReplaces(m, g, HintStreet(p, n.street), w, n, d, n.actions, add);
    ReplacedTwice(s, m, MergeActions(m, g, w, n, n.actions, add), g, HintStreet(p, n.street), Plus(p, d, add));
  }

  // ----- one key at a time -----

  /** What a store holds for a key, a pending discount not applied. */
  function Own(s: Store, key: Key): (p: Option<Payload>)
    requires AllFit(s)
    ensures p.Some? <==> Find(s.nodes, key).Some?
    ensures p.Some? ==> WholePayload(p.value)
  {
    var i := Find(s.nodes, key);
    if i.Some? then Some(PayloadOf(s, s.nodes[i.value])) else None
  }

  lemma OwnReplaced(s: Store, r: Store, g: nat, q: Payload, key: Key)
    requires Ok(s) && Replaced(s, r, g, q)
    ensures Own(r, key) == if key == s.nodes[g].key then Some(q) else Own(s, key)
  {
    ShapedFind(s, r, key);
    FindIs(s, g);
  }

  /** A merged entry adds to its key's payload, if the destination has the key, and touches no other key. */
  lemma MergeEntryAtKey(s: Store, w: Store, idx: nat, key: Key, add: Adder)
    requires Ok(s) && AllFit(w) && HasRoom(s.nodes, w, idx)
    ensures AllFit(MergeEntry(s, w, idx, add))
    ensures if idx < |w.nodes| && key == w.nodes[idx].key && Own(s, key).Some? then
              Whole2(Own(s, key).value, PayloadOf(w, w.nodes[idx]))
              && Own(MergeEntry(s, w, idx, add), key) == Some(Plus(Own(s, key).value, PayloadOf(w, w.nodes[idx]), add))
            else Own(MergeEntry(s, w, idx, add), key) == Own(s, key)
  {
    ShapedFits(s, MergeEntry(s, w, idx, add));
    if idx < |w.nodes| && Find(s.nodes, w.nodes[idx].key).Some? {
      var g := Find(s.nodes, w.nodes[idx].key).value;
      MergeEntryReplaces(s, w, idx, g, add);
      OwnReplaced(s, MergeEntry(s, w, idx, add), g, Plus(PayloadOf(s, s.nodes[g]), PayloadOf(w, w.nodes[idx]), add),
                  key);
    }
  }

  /** The list names the store's node for a key. */
  predicate Lists(s: Store, list: seq<nat>, key: Key) {
    Find(s.nodes, key).Some? && Find(s.nodes, key).value in list
  }

  /** What a worker brings for a key: its payload, if it was touched. */
  function Brings(w: Worker, key: Key): (p: Option<Payload>)
    requires AllFit(w.delta)
    ensures p.Some? ==> WholePayload(p.value)
  {
    if Lists(w.delta, w.touched, key) then Own(w.delta, key) else None
  }

  function PlusMaybe(p: Payload, d: Option<Payload>, add: Adder): (q: Payload)
    requires WholePayload(p) && (d.Some? ==> Whole2(p, d.value))
    ensures WholePayload(q) && |q.regrets| == |p.regrets| && q.strategy.Some? == p.strategy.Some? && q.stamp == p.stamp
  {
    if d.Some? then Plus(p, d.value, add) else p
  }

  lemma ListsNext(w: Store, list: seq<nat>, key: Key)
    requires Ok(w) && Distinct(list) && list != []
    ensures var n := |list| - 1; var mine := list[n] < |w.nodes| && w.nodes[list[n]].key == key;
            && (mine ==> Find(w.nodes, key) == Some(list[n]) && !Lists(w, list[..n], key))
            && (Lists(w, list, key) <==> mine || Lists(w, list[..n], key))
  {
    var n := |list| - 1;
    if list[n] < |w.nodes| {
      FindIs(w, list[n]);
    }
    assert forall x :: x in list <==> x == list[n] || x in list[..n];
  }

  /** Merging a duplicate-free list adds what it brings for each key, once. */
  lemma {:induction false} MergeListAtKey(s: Store, w: Store, list: seq<nat>, key: Key, add: Adder)
    requires Ok(s) && Ok(w) && AllHaveRoom(s.nodes, w, list) && Distinct(list)
    ensures var d := Brings(Worker(w, list), key); var p := Own(s, key);
            && (p.Some? && d.Some? ==> Whole2(p.value, d.value))
            && Own(MergeList(s, w, list, add), key) == if p.Some? then Some(PlusMaybe(p.value, d, add)) else None
  {
    if list != [] {
      var n := |list| - 1;
      MergeListAtKey(s, w, list[..n], key, add);
      var m := MergeList(s, w, list[..n], add);
      ShapedOk(s, m);
      ShapedRoom(s, m, w, list);
      assert HasRoom(m.nodes, w, list[n]);
      MergeEntryAtKey(m, w, list[n], key, add);
      ListsNext(w, list, key);
    }
  }

  ghost predicate Gathered(workers: seq<Worker>) {
    forall i :: 0 <= i < |workers| ==> Ok(workers[i].delta) && Distinct(workers[i].touched)
  }

  predicate BringsFit(p: Payload, w: Worker, key: Key)
    requires AllFit(w.delta)
  {
    Brings(w, key).Some? ==> Whole2(p, Brings(w, key).value)
  }

  ghost predicate AllBringFit(p: Payload, workers: seq<Worker>, k: nat, key: Key)
    requires AllDeltasFit(workers) && k <= |workers|
  {
    WholePayload(p) && forall i :: 0 <= i < k ==> BringsFit(p, workers[i], key)
  }

  /** What the first k workers bring for a key, added up in worker order. */
  ghost function Folded(p: Payload, workers: seq<Worker>, k: nat, key: Key, add: Adder): (q: Payload)
    requires k <= |workers| && AllDeltasFit(workers) && AllBringFit(p, workers, k, key)
    ensures WholePayload(q) && |q.regrets| == |p.regrets| && q.strategy.Some? == p.strategy.Some? && q.stamp == p.stamp
  {
    if k == 0 then p
    else
      var q := Folded(p, workers, k - 1, key, add);
      assert BringsFit(p, workers[k - 1], key);
      PlusMaybe(q, Brings(workers[k - 1], key), add)
  }

  lemma PlusStreet(p: Payload, d: Option<Payload>, add: Adder)
    requires WholePayload(p) && (d.Some? ==> Whole2(p, d.value))
    ensures PlusMaybe(p, d, add).street == if d.Some? && p.street > 3 then d.value.street else p.street
  {
    if d.Some? {
      PlusActionsAt(HintStreet(p, d.value.street), d.value, |d.value.regrets|, add, 0);
    }
  }

  /** The worker brings the key with a street that is known. */
  predicate BringsStreet(w: Worker, key: Key)
    requires AllFit(w.delta)
  {
    Brings(w, key).Some? && Brings(w, key).value.street <= 3
  }

  /** A street that is known stays. */
  lemma {:induction false} KnownStreetStays(p: Payload, workers: seq<Worker>, k: nat, key: Key, add: Adder)
    requires k <= |workers| && AllDeltasFit(workers) && AllBringFit(p, workers, k, key) && p.street <= 3
    ensures Folded(p, workers, k, key, add).street == p.street
  {
    if k > 0 {
      KnownStreetStays(p, workers, k - 1, key, add);
      assert BringsFit(p, workers[k - 1], key);
      PlusStreet(Folded(p, workers, k - 1, key, add), Brings(workers[k - 1], key), add);
    }
  }

  lemma {:induction false} StillUnknown(p: Payload, workers: seq<Worker>, k: nat, key: Key, add: Adder)
    requires k <= |workers| && AllDeltasFit(workers) && AllBringFit(p, workers, k, key) && p.street > 3
    requires forall j :: 0 <= j < k ==> !BringsStreet(workers[j], key)
    ensures Folded(p, workers, k, key, add).street > 3
  {
    if k > 0 {
      StillUnknown(p, workers, k - 1, key, add);
      assert BringsFit(p, workers[k - 1], key) && !BringsStreet(workers[k - 1], key);
      PlusStreet(Folded(p, workers, k - 1, key, add), Brings(workers[k - 1], key), add);
    }
  }

  /** A street that is not known becomes that of the first worker that knows it. */
  lemma {:induction false} FirstStreetTold(p: Payload, workers: seq<Worker>, k: nat, key: Key, add: Adder, i: nat)
    requires k <= |workers| && AllDeltasFit(workers) && AllBringFit(p, workers, k, key) && p.street > 3
    requires i < k && BringsStreet(workers[i], key) && forall j :: 0 <= j < i ==> !BringsStreet(workers[j], key)
    ensures Folded(p, workers, k, key, add).street == Brings(workers[i], key).value.street
  {
    assert BringsFit(p, workers[k - 1], key);
    if i == k - 1 {
      StillUnknown(p, workers, i, key, add);
    } else {
      FirstStreetTold(p, workers, k - 1, key, add, i);
    }
    PlusStreet(Folded(p, workers, k - 1, key, add), Brings(workers[k - 1], key), add);
  }

  lemma MergeWorkerAtKey(s: Store, m: Store, w: Worker, key: Key, p: Payload, q: Payload, add: Adder)
    requires Ok(s) && Shaped(s, m) && AllFit(m) && Ok(w.delta) && Distinct(w.touched)
    requires AllHaveRoom(s.nodes, w.delta, w.touched)
    requires Own(s, key) == Some(p) && Own(m, key) == Some(q)
    ensures AllHaveRoom(m.nodes, w.delta, w.touched) && BringsFit(p, w, key) && BringsFit(q, w, key)
    ensures Own(MergeList(m, w.delta, w.touched, add), key) == Some(PlusMaybe(q, Brings(w, key), add))
  {
    ShapedOk(s, m);
    ShapedFind(s, m, key);
    ShapedRoom(s, m, w.delta, w.touched);
    MergeListAtKey(m, w.delta, w.touched, key, add);
  }

  /** The merge so far holds the fold so far under the key. */
  ghost predicate FoldsTo(s: Store, workers: seq<Worker>, k: nat, key: Key, p: Payload, add: Adder)
    requires Mergeable(s, workers) && k <= |workers|
  {
    && AllBringFit(p, workers, k, key)
    && Own(MergeWorkers(s, workers, k, add), key) == Some(Folded(p, workers, k, key, add))
  }

  lemma FoldsNext(s: Store, workers: seq<Worker>, k: nat, key: Key, p: Payload, add: Adder)
    requires Ok(s) && Mergeable(s, workers) && Gathered(workers) && k < |workers| && Own(s, key) == Some(p)
    requires FoldsTo(s, workers, k, key, p, add)
    ensures FoldsTo(s, workers, k + 1, key, p, add)
  {
    var m, q := MergeWorkers(s, workers, k, add), Folded(p, workers, k, key, add);
    MergeWorkerAtKey(s, m, workers[k], key, p, q, add);
  }

  lemma NothingFolded(s: Store, workers: seq<Worker>, key: Key, p: Payload, add: Adder)
    requires Ok(s) && Mergeable(s, workers) && Own(s, key) == Some(p)
    ensures FoldsTo(s, workers, 0, key, p, add)
  {
  }

  /** The merged store holds, for every key it had, the fold of what the workers bring. */
  lemma MergeWorkersAtKey(s: Store, workers: seq<Worker>, k: nat, key: Key, p: Payload, add: Adder)
    requires Ok(s) && Mergeable(s, workers) && Gathered(workers) && k <= |workers| && Own(s, key) == Some(p)
    ensures FoldsTo(s, workers, k, key, p, add)
  {
    hide FoldsTo, Mergeable, Gathered, Own;
    NothingFolded(s, workers, key, p, add);
    for i := 0 to k
      invariant FoldsTo(s, workers, i, key, p, add)
    {
      FoldsNext(s, workers, i, key, p, add);
    }
  }

  /** It holds no other key. */
  lemma MergeAddsNoKey(s: Store, workers: seq<Worker>, key: Key, add: Adder)
    requires Mergeable(s, workers)
    ensures Own(MergeWorkers(s, workers, |workers|, add), key).Some? <==> Own(s, key).Some?
  {
    ShapedFind(s, MergeWorkers(s, workers, |workers|, add), key);
  }
}
