/**
 Training on an overlay and merging it back: what is left of the base is
 subtracted from each worker's copies, keys the base lacks are created in it, and
 the merge adds the differences.
 */
module Overlays {
  import opened Options
  import opened Sequences
  import opened Arenas
  import opened Stores
  import opened Merges
  import opened Deltas

  /** 32-bit two's complement, as a subtraction of regrets wraps. */
  function Wrap(v: int): (r: int)
    ensures INT_MIN <= r <= INT_MAX
    ensures INT_MIN <= v <= INT_MAX ==> r == v
  {
    (v - INT_MIN) % 0x1_0000_0000 + INT_MIN
  }

  /** The one 32-bit number that differs from v by a multiple of 2^32. */
  lemma WrapIs(v: int, w: int)
    ensures w == Wrap(v) <==> -0x8000_0000 <= w <= 0x7FFF_FFFF && exists k :: w == v + Turns(k)
  {
    var q := (v - INT_MIN) / 0x1_0000_0000;
    assert Wrap(v) == v + Turns(-q);
    if -0x8000_0000 <= w <= 0x7FFF_FFFF && exists k :: w == v + Turns(k) {
      var k :| w == v + Turns(k);
      assert k == -q;
    }
  }

  function Turns(k: int): int {
    k * 0x1_0000_0000
  }

  // ----- subtracting the base -----

  /** The base's regret as a reader sees it, a pending discount applied; zero where the base has none. */
  function RegretShare(b: Option<Payload>, ratio: real, a: nat): int {
    if b.Some? && a < |b.value.regrets| then Round(b.value.regrets[a] as real * ratio) else 0
  }

  function StrategyShare(b: Option<Payload>, ratio: real, a: nat): real {
    if b.Some? && b.value.strategy.Some? && a < |b.value.strategy.value| then b.value.strategy.value[a] * ratio else 0.0
  }

  function LessRegret(b: Option<Payload>, ratio: real): RegretMap {
    (a: nat, r: int) => Wrap(r - RegretShare(b, ratio, a))
  }

  function LessSum(b: Option<Payload>, ratio: real): SumMap {
    (a: nat, x: real) => x - StrategyShare(b, ratio, a)
  }

  /** A payload less the base's, action by action. */
  function Less(p: Payload, b: Option<Payload>, ratio: real): (q: Payload)
    ensures |q.regrets| == |p.regrets| && q.strategy.Some? == p.strategy.Some?
    ensures WholePayload(p) ==> WholePayload(q)
  {
    MapPayload(p, LessRegret(b, ratio), LessSum(b, ratio), |p.regrets|)
  }

  /** What a reader of the base multiplies the payload by. */
  function RatioOf(b: Option<Payload>, scale: real): real {
    if b.Some? then Ratio(scale, b.value.stamp) else 1.0
  }

  /** The shares are what reading the base now gives. */
  lemma RegretShareIsRead(base: Store, key: Key, a: nat)
    requires AllFit(base)
    ensures var b := Own(base, key); var p := ReadOwn(base, key);
            RegretShare(b, RatioOf(b, base.scale), a) ==
            if p.Some? && a < |p.value.regrets| then p.value.regrets[a] else 0
  {
    hide Ratio, Current, Round, Product, RegretShare;
    var b := Own(base, key);
    ShareIsProduct(b, RatioOf(b, base.scale), a);
    if b.Some? && a < |b.value.regrets| {
      RegretIsRounded(b.value, base.scale, a);
    }
  }

  lemma ShareIsProduct(b: Option<Payload>, ratio: real, a: nat)
    ensures RegretShare(b, ratio, a) ==
            if b.Some? && a < |b.value.regrets| then Round(Product(b.value.regrets[a], ratio)) else 0
  {
  }

  lemma SumShareIsRead(base: Store, key: Key, a: nat)
    requires AllFit(base)
    ensures var b := Own(base, key); var p := ReadOwn(base, key);
            StrategyShare(b, RatioOf(b, base.scale), a) ==
            if p.Some? && p.value.strategy.Some? && a < |p.value.strategy.value| then p.value.strategy.value[a] else 0.0
  {
    hide Ratio;
    var b := Own(base, key);
    if b.Some? && b.value.strategy.Some? && a < |b.value.regrets| {
      SumNow(b.value, base.scale, a);
    }
  }

  /** The base node a worker's node came from: the one it remembers, unless that is number 0 or stale. */
  function BaseNode(base: seq<Node>, n: Node): (i: Option<nat>)
    ensures i.Some? ==> i.value < |base|
  {
    if n.base.Some? && 0 < n.base.value < |base| then n.base else Find(base, n.key)
  }

  function MarkBase(s: Store, g: nat, link: Option<nat>): (r: Store)
    requires g < |s.nodes|
    ensures Shaped(s, r)
  {
    s.(nodes := s.nodes[g := s.nodes[g].(base := if link.Some? then link else s.nodes[g].base, isNew := link.None?)])
  }

  function LinkedPayload(base: Store, link: Option<nat>): Option<Payload>
    requires AllFit(base) && (link.Some? ==> link.value < |base.nodes|)
  {
    if link.Some? then Some(PayloadOf(base, base.nodes[link.value])) else None
  }

  /** One touched node turned into its difference from the base. */
  function DeltaEntry(s: Store, base: Store, idx: nat): (r: Store)
    requires AllFit(s) && AllFit(base)
    ensures Shaped(s, r)
  {
    if idx >= |s.nodes| then s
    else
      var link := BaseNode(base.nodes, s.nodes[idx]);
      var b, m := LinkedPayload(base, link), MarkBase(s, idx, link);
      var ratio := RatioOf(b, base.scale);
      MapCells(m, idx, LessRegret(b, ratio), LessSum(b, ratio), s.nodes[idx].actions)
  }

  function DeltaList(s: Store, base: Store, list: seq<nat>): (r: Store)
    requires AllFit(s) && AllFit(base)
    ensures Shaped(s, r) && AllFit(r)
  {
    if list == [] then s
    else
      var r := DeltaEntry(DeltaList(s, base, list[..|list| - 1]), base, list[|list| - 1]);
      ShapedFits(s, r);
      r
  }

  lemma DeltaEntryReplaces(s: Store, base: Store, idx: nat, p: Payload)
    requires Ok(s) && AllFit(base) && idx < |s.nodes| && p == PayloadOf(s, s.nodes[idx])
    ensures var b := LinkedPayload(base, BaseNode(base.nodes, s.nodes[idx]));
            Replaced(s, DeltaEntry(s, base, idx), idx, Less(p, b, RatioOf(b, base.scale)))
  {
    var link := BaseNode(base.nodes, s.nodes[idx]);
    var m, b := MarkBase(s, idx, link), LinkedPayload(base, link);
    var ratio := RatioOf(b, base.scale);
    EntryReplaces(s, idx, m.nodes[idx]);
    ShapedOk(s, m);
    MapCellsReplaces(m, idx, LessRegret(b, ratio), LessSum(b, ratio), |p.regrets|);
    ReplacedTwice(s, m, DeltaEntry(s, base, idx), idx, p, Less(p, b, ratio));
  }

  /** A payload less what the base has for its key. */
  function LessBase(p: Payload, base: Store, key: Key): (q: Payload)
    requires WholePayload(p) && AllFit(base)
    ensures WholePayload(q) && |q.regrets| == |p.regrets|
  {
    var b := Own(base, key);
    Less(p, b, RatioOf(b, base.scale))
  }

  ghost predicate MarkedNew(s: Store, base: seq<Node>, idx: nat) {
    idx < |s.nodes| ==> s.nodes[idx].isNew == Find(base, s.nodes[idx].key).None?
  }

  lemma DeltaEntryAtKey(s: Store, base: Store, idx: nat, key: Key)
    requires Ok(s) && AllFit(base) && LinksTrue(s, base.nodes)
    ensures var r := DeltaEntry(s, base, idx);
            && AllFit(r)
            && Own(r, key) == if idx < |s.nodes| && s.nodes[idx].key == key
                              then Some(LessBase(PayloadOf(s, s.nodes[idx]), base, key)) else Own(s, key)
  {
    if idx < |s.nodes| {
      var p := PayloadOf(s, s.nodes[idx]);
      DeltaEntryReplaces(s, base, idx, p);
      OwnReplaced(s, DeltaEntry(s, base, idx), idx, LessBase(p, base, s.nodes[idx].key), key);
    }
  }

  lemma DeltaEntryMarks(s: Store, base: Store, idx: nat, j: nat)
    requires AllFit(s) && AllFit(base) && LinksTrue(s, base.nodes)
    ensures var r := DeltaEntry(s, base, idx);
            && LinksTrue(r, base.nodes) && MarkedNew(r, base.nodes, idx)
            && (MarkedNew(s, base.nodes, j) ==> MarkedNew(r, base.nodes, j))
  {
  }

  /** A worker's store after its touched list was turned into differences. */
  lemma {:induction false} DeltaListAtKey(s: Store, base: Store, list: seq<nat>, key: Key)
    requires Ok(s) && AllFit(base) && Distinct(list) && LinksTrue(s, base.nodes)
    ensures LinksTrue(DeltaList(s, base, list), base.nodes)
    ensures Own(DeltaList(s, base, list), key) ==
            if Lists(s, list, key) then Some(LessBase(Own(s, key).value, base, key)) else Own(s, key)
  {
    if list != [] {
      var n := |list| - 1;
      DeltaListAtKey(s, base, list[..n], key);
      var m := DeltaList(s, base, list[..n]);
      ShapedOk(s, m);
      DeltaEntryAtKey(m, base, list[n], key);
      DeltaEntryMarks(m, base, list[n], 0);
      ListsNext(s, list, key);
      if list[n] < |s.nodes| {
        assert SamePlace(s.nodes[list[n]], m.nodes[list[n]]);
        FindIs(m, list[n]);
      }
    }
  }

  lemma {:induction false} DeltaListMarks(s: Store, base: Store, list: seq<nat>, j: nat)
    requires Ok(s) && AllFit(base) && LinksTrue(s, base.nodes)
    ensures LinksTrue(DeltaList(s, base, list), base.nodes)
    ensures j in list ==> MarkedNew(DeltaList(s, base, list), base.nodes, j)
  {
    if list != [] {
      var n := |list| - 1;
      DeltaListMarks(s, base, list[..n], j);
      DeltaEntryMarks(DeltaList(s, base, list[..n]), base, list[n], j);
      assert forall x :: x in list <==> x == list[n] || x in list[..n];
    }
  }

  // ----- creating what the base lacks -----

  /** Creates the key of a new node in the base, with room for its actions. */
  ghost function PrecreateEntry(s: Store, w: Store, idx: nat): (r: Store)
    requires Ok(s)
    ensures Ok(r) && r.scale == s.scale
  {
    if idx >= |w.nodes| || !w.nodes[idx].isNew then s
    else
      var n := w.nodes[idx];
      TouchFlat(s, None, n.key, n.actions, n.street);
      var t := Touch(s, None, n.key, n.actions, n.street);
      var g := Find(t.nodes, n.key);
      if g.None? then t
      else
        ShapedOk(t, MergeHint(t, g.value, n.street));
        MergeHint(t, g.value, n.street)
  }

  ghost function PrecreateList(s: Store, w: Store, list: seq<nat>): (r: Store)
    requires Ok(s)
    ensures Ok(r) && r.scale == s.scale
  {
    if list == [] then s else PrecreateEntry(PrecreateList(s, w, list[..|list| - 1]), w, list[|list| - 1])
  }

  ghost function PrecreateWorkers(s: Store, workers: seq<Worker>, k: nat): (r: Store)
    requires Ok(s) && k <= |workers|
    ensures Ok(r) && r.scale == s.scale
  {
    if k == 0 then s
    else PrecreateList(PrecreateWorkers(s, workers, k - 1), workers[k - 1].delta, workers[k - 1].touched)
  }

  /** What looking a key up for writing, with no base, leaves under it. */
  function Wanted(p: Option<Payload>, actions: nat, street: int, omitPostflop: bool, scale: real): Payload
    requires p.Some? ==> WholePayload(p.value)
  {
    if p.Some? then Extended(Current(p.value, scale), actions) else Blank(actions, street, omitPostflop, Mark(scale))
  }

  lemma OwnIsModel(s: Store, key: Key)
    requires Ok(s)
    ensures Own(s, key) == if key in Model(s) then Some(Model(s)[key]) else None
  {
  }

  lemma TouchAtKey(s: Store, want: Key, actions: nat, street: int, key: Key)
    requires Ok(s) && 1 <= actions <= MAX_ACTIONS
    ensures var t := Touch(s, None, want, actions, street);
            && Ok(t)
            && Own(t, key) ==
               if key == want then Some(Wanted(Own(s, key), actions, street, s.omitPostflop, s.scale)) else Own(s, key)
  {
    TouchFlat(s, None, want, actions, street);
    OwnIsModel(s, key);
    OwnIsModel(Touch(s, None, want, actions, street), key);
  }

  function Created(p: Option<Payload>, actions: nat, street: int, omitPostflop: bool, scale: real): Payload
    requires p.Some? ==> WholePayload(p.value)
  {
    HintStreet(Wanted(p, actions, street, omitPostflop, scale), street)
  }

  lemma PrecreateEntryAtKey(s: Store, w: Store, idx: nat, key: Key)
    requires Ok(s) && AllFit(w) && idx < |w.nodes| && w.nodes[idx].isNew
    ensures var n := w.nodes[idx];
            Own(PrecreateEntry(s, w, idx), key) ==
            if key == n.key then Some(Created(Own(s, key), n.actions, n.street, s.omitPostflop, s.scale))
            else Own(s, key)
  {
    var n := w.nodes[idx];
    assert Fits(w, n);
    TouchAtKey(s, n.key, n.actions, n.street, key);
    TouchAtKey(s, n.key, n.actions, n.street, n.key);
    var t := Touch(s, None, n.key, n.actions, n.street);
    var g := Find(t.nodes, n.key).value;
    MergeHintReplaces(t, g, n.street);
    OwnReplaced(t, MergeHint(t, g, n.street), g, HintStreet(PayloadOf(t, t.nodes[g]), n.street), key);
  }

  predicate AllZero(p: Payload) {
    && (forall a :: 0 <= a < |p.regrets| ==> p.regrets[a] == 0)
    && (p.strategy.Some? ==> forall a :: 0 <= a < |p.strategy.value| ==> p.strategy.value[a] == 0.0)
  }

  /** The base's own keys are as they were; keys created since hold zeros, no discount pending. */
  ghost predicate Prepared(base: Store, s: Store, key: Key)
    requires AllFit(base) && AllFit(s)
  {
    if Own(base, key).Some? then Own(s, key) == Own(base, key)
    else Own(s, key).Some? ==> AllZero(Own(s, key).value) && Mark(Own(s, key).value.stamp) == Mark(s.scale)
  }

  predicate RoomAt(s: Store, key: Key, actions: nat)
    requires AllFit(s)
  {
    Own(s, key).Some? && actions <= |Own(s, key).value.regrets|
  }

  lemma ZeroStaysZero(p: Payload, scale: real)
    requires WholePayload(p) && AllZero(p)
    ensures AllZero(Current(p, scale))
  {
    assert Round(0 as real * Ratio(scale, p.stamp)) == 0;
  }

  lemma CreatedIsZero(p: Option<Payload>, actions: nat, street: int, omitPostflop: bool, scale: real)
    requires p.Some? ==> WholePayload(p.value) && AllZero(p.value)
    ensures var q := Created(p, actions, street, omitPostflop, scale);
            && AllZero(q) && actions <= |q.regrets| && (p.Some? ==> |p.value.regrets| <= |q.regrets|)
            && Mark(q.stamp) == Mark(scale)
  {
    if p.Some? {
      ZeroStaysZero(p.value, scale);
    }
  }

  lemma PrecreateEntryKeepsRoom(s: Store, w: Store, idx: nat, key: Key, room: nat)
    requires Ok(s) && AllFit(w) && RoomAt(s, key, room)
    ensures RoomAt(PrecreateEntry(s, w, idx), key, room)
  {
    if idx < |w.nodes| && w.nodes[idx].isNew {
      PrecreateEntryAtKey(s, w, idx, key);
    }
  }

  lemma PrecreateEntryPrepares(base: Store, s: Store, w: Store, idx: nat, key: Key)
    requires Ok(base) && Ok(s) && AllFit(w) && MarkedNew(w, base.nodes, idx) && Prepared(base, s, key)
    ensures var r := PrecreateEntry(s, w, idx); var mine := idx < |w.nodes| && w.nodes[idx].key == key;
            && Prepared(base, r, key)
            && (Own(base, key).None? && mine ==> RoomAt(r, key, w.nodes[idx].actions))
            && (Own(r, key).Some? ==> Own(s, key).Some? || mine)
  {
    if idx < |w.nodes| && w.nodes[idx].isNew {
      var n := w.nodes[idx];
      PrecreateEntryAtKey(s, w, idx, key);
      if key == n.key {
        CreatedIsZero(Own(s, key), n.actions, n.street, s.omitPostflop, s.scale);
      }
    }
  }

  ghost predicate ListMarked(w: Store, base: seq<Node>, list: seq<nat>) {
    forall i :: 0 <= i < |list| ==> MarkedNew(w, base, list[i])
  }

  lemma {:induction false} PrecreateListKeepsRoom(s: Store, w: Store, list: seq<nat>, key: Key, room: nat)
    requires Ok(s) && AllFit(w) && RoomAt(s, key, room)
    ensures RoomAt(PrecreateList(s, w, list), key, room)
  {
    if list != [] {
      PrecreateListKeepsRoom(s, w, list[..|list| - 1], key, room);
      PrecreateEntryKeepsRoom(PrecreateList(s, w, list[..|list| - 1]), w, list[|list| - 1], key, room);
    }
  }

  lemma {:induction false} PrecreateListPrepares(base: Store, s: Store, w: Store, list: seq<nat>, key: Key)
    requires Ok(base) && Ok(s) && Ok(w) && Distinct(list) && ListMarked(w, base.nodes, list) && Prepared(base, s, key)
    ensures var r := PrecreateList(s, w, list);
            && Prepared(base, r, key)
            && (Own(base, key).None? && Lists(w, list, key) ==> RoomAt(r, key, |Own(w, key).value.regrets|))
            && (Own(r, key).Some? ==> Own(s, key).Some? || Lists(w, list, key))
  {
    if list != [] {
      var n := |list| - 1;
      PrecreateListPrepares(base, s, w, list[..n], key);
      var m := PrecreateList(s, w, list[..n]);
      ListsNext(w, list, key);
      assert MarkedNew(w, base.nodes, list[n]);
      PrecreateEntryPrepares(base, m, w, list[n], key);
      if Own(base, key).None? && Lists(w, list[..n], key) {
        PrecreateEntryKeepsRoom(m, w, list[n], key, |Own(w, key).value.regrets|);
      }
    }
  }

  ghost predicate AllMarked(base: Store, workers: seq<Worker>) {
    forall j :: 0 <= j < |workers| ==> ListMarked(workers[j].delta, base.nodes, workers[j].touched)
  }

  lemma {:induction false} PrecreateKeepsPrepared(base: Store, workers: seq<Worker>, k: nat, key: Key)
    requires Ok(base) && Gathered(workers) && k <= |workers| && AllMarked(base, workers)
    ensures Prepared(base, PrecreateWorkers(base, workers, k), key)
  {
    hide PrecreateEntry, PrecreateList, Find, Fits, Apart, MarkedNew;
    if k > 0 {
      PrecreateKeepsPrepared(base, workers, k - 1, key);
      PrecreateListPrepares(base, PrecreateWorkers(base, workers, k - 1), workers[k - 1].delta, workers[k - 1].touched,
                            key);
    }
  }

  lemma PrecreateNextKeepsRoom(base: Store, workers: seq<Worker>, k: nat, key: Key, room: nat)
    requires Ok(base) && k < |workers| && AllFit(workers[k].delta)
    requires RoomAt(PrecreateWorkers(base, workers, k), key, room)
    ensures RoomAt(PrecreateWorkers(base, workers, k + 1), key, room)
  {
    PrecreateListKeepsRoom(PrecreateWorkers(base, workers, k), workers[k].delta, workers[k].touched, key, room);
  }

  lemma PrecreateKeepsRoom(base: Store, workers: seq<Worker>, j: nat, k: nat, key: Key, room: nat)
    requires Ok(base) && AllDeltasFit(workers) && j <= k <= |workers|
    requires RoomAt(PrecreateWorkers(base, workers, j), key, room)
    ensures RoomAt(PrecreateWorkers(base, workers, k), key, room)
  {
    hide PrecreateEntry, PrecreateList, Own, Find, Fits, Apart;
    for i := j to k
      invariant RoomAt(PrecreateWorkers(base, workers, i), key, room)
    {
      PrecreateNextKeepsRoom(base, workers, i, key, room);
    }
  }

  /** A key the base lacks gets room for every worker that brings it. */
  lemma PrecreateMakesRoom(base: Store, workers: seq<Worker>, i: nat, key: Key)
    requires Ok(base) && Gathered(workers) && i < |workers| && AllMarked(base, workers)
    requires Own(base, key).None? && Brings(workers[i], key).Some?
    ensures RoomAt(PrecreateWorkers(base, workers, |workers|), key, |Brings(workers[i], key).value.regrets|)
  {
    var w := workers[i];
    PrecreateKeepsPrepared(base, workers, i, key);
    PrecreateListPrepares(base, PrecreateWorkers(base, workers, i), w.delta, w.touched, key);
    PrecreateKeepsRoom(base, workers, i + 1, |workers|, key, |Brings(w, key).value.regrets|);
  }

  /** Only keys some worker brings are created. */
  lemma {:induction false} PrecreateOnlyBrought(base: Store, workers: seq<Worker>, k: nat, key: Key) returns (i: nat)
    requires Ok(base) && Gathered(workers) && k <= |workers| && AllMarked(base, workers)
    requires Own(base, key).None? && Own(PrecreateWorkers(base, workers, k), key).Some?
    ensures i < k && Brings(workers[i], key).Some?
  {
    hide PrecreateEntry, PrecreateList, Find, Fits, Apart, MarkedNew;
    if k == 0 {
      assert false;
    } else {
      i := k - 1;
      var w, m := workers[i], PrecreateWorkers(base, workers, i);
      PrecreateKeepsPrepared(base, workers, i, key);
      PrecreateListPrepares(base, m, w.delta, w.touched, key);
      if Own(m, key).Some? {
        i := PrecreateOnlyBrought(base, workers, i, key);
      }
    }
  }

  // ----- the round trip -----

  /** The workers as training leaves them: overlays of the base and the nodes they touched. */
  ghost predicate Trained(base: Store, workers: seq<Worker>) {
    && Ok(base) && Gathered(workers)
    && (forall i :: 0 <= i < |workers| ==> LinksTrue(workers[i].delta, base.nodes))
    && forall i :: 0 <= i < |workers| ==> RoomInBase(base.nodes, workers[i].delta)
  }

  /** No worker has more actions than the base under a key the base has. */
  ghost predicate RoomInBase(base: seq<Node>, w: Store) {
    forall idx :: 0 <= idx < |w.nodes| ==> HasRoom(base, w, idx)
  }

  ghost function DeltasOf(base: Store, workers: seq<Worker>): (d: seq<Worker>)
    requires AllFit(base) && AllDeltasFit(workers)
    ensures |d| == |workers|
    ensures forall i :: 0 <= i < |workers| ==>
              d[i] == Worker(DeltaList(workers[i].delta, base, workers[i].touched), workers[i].touched)
  {
    seq(|workers|, i requires 0 <= i < |workers| =>
      Worker(DeltaList(workers[i].delta, base, workers[i].touched), workers[i].touched))
  }

  lemma DeltasAreMarked(base: Store, workers: seq<Worker>)
    requires Trained(base, workers)
    ensures Gathered(DeltasOf(base, workers)) && AllMarked(base, DeltasOf(base, workers))
  {
    var deltas := DeltasOf(base, workers);
    forall j | 0 <= j < |deltas|
      ensures Ok(deltas[j].delta) && ListMarked(deltas[j].delta, base.nodes, deltas[j].touched)
    {
      var w := workers[j];
      ShapedOk(w.delta, deltas[j].delta);
      forall i | 0 <= i < |w.touched|
        ensures MarkedNew(deltas[j].delta, base.nodes, w.touched[i])
      {
        DeltaListMarks(w.delta, base, w.touched, w.touched[i]);
      }
    }
  }

  /** A worker's difference for a key. */
  function Difference(base: Store, w: Worker, key: Key): (d: Option<Payload>)
    requires AllFit(base) && AllFit(w.delta)
    ensures d.Some? ==> WholePayload(d.value)
  {
    if Brings(w, key).Some? then Some(LessBase(Brings(w, key).value, base, key)) else None
  }

  lemma DeltaBrings(base: Store, workers: seq<Worker>, i: nat, key: Key)
    requires Trained(base, workers) && i < |workers|
    ensures Brings(DeltasOf(base, workers)[i], key) == Difference(base, workers[i], key)
  {
    var w := workers[i];
    DeltaListAtKey(w.delta, base, w.touched, key);
    ShapedFind(w.delta, DeltaList(w.delta, base, w.touched), key);
  }

  lemma RoomForEntry(base: Store, workers: seq<Worker>, i: nat, pos: nat)
    requires Trained(base, workers) && i < |workers| && pos < |workers[i].touched|
    requires Gathered(DeltasOf(base, workers)) && AllMarked(base, DeltasOf(base, workers))
    ensures var deltas := DeltasOf(base, workers);
            HasRoom(PrecreateWorkers(base, deltas, |deltas|).nodes, deltas[i].delta, workers[i].touched[pos])
  {
    var deltas := DeltasOf(base, workers);
    var w, d, idx := workers[i].delta, deltas[i].delta, workers[i].touched[pos];
    if idx < |w.nodes| {
      var key := w.nodes[idx].key;
      assert SamePlace(w.nodes[idx], d.nodes[idx]) && HasRoom(base.nodes, w, idx);
      FindIs(d, idx);
      assert Lists(d, deltas[i].touched, key);
      PrecreateKeepsPrepared(base, deltas, |deltas|, key);
      if Own(base, key).None? {
        PrecreateMakesRoom(base, deltas, i, key);
      }
    }
  }

  /** Once the missing keys are created, every difference has room in the base. */
  lemma RoomForAll(base: Store, workers: seq<Worker>)
    requires Trained(base, workers)
    ensures var deltas := DeltasOf(base, workers);
            && Gathered(deltas) && Mergeable(PrecreateWorkers(base, deltas, |deltas|), deltas)
  {
    var deltas := DeltasOf(base, workers);
    DeltasAreMarked(base, workers);
    forall i | 0 <= i < |deltas|
      ensures AllHaveRoom(PrecreateWorkers(base, deltas, |deltas|).nodes, deltas[i].delta, deltas[i].touched)
    {
      forall pos | 0 <= pos < |deltas[i].touched|
        ensures HasRoom(PrecreateWorkers(base, deltas, |deltas|).nodes, deltas[i].delta, deltas[i].touched[pos])
      {
        RoomForEntry(base, workers, i, pos);
      }
    }
  }

  /** Differences taken, missing keys created, differences merged. */
  ghost function MergedBack(base: Store, workers: seq<Worker>, add: Adder): (r: Store)
    requires Trained(base, workers)
    ensures AllFit(r) && r.scale == base.scale
  {
    var deltas := DeltasOf(base, workers);
    RoomForAll(base, workers);
    MergeWorkers(PrecreateWorkers(base, deltas, |deltas|), deltas, |deltas|, add)
  }

  function BaseRegret(base: Store, key: Key, a: nat): int
    requires AllFit(base)
  {
    if Own(base, key).Some? && a < |Own(base, key).value.regrets| then Own(base, key).value.regrets[a] else 0
  }

  /** Adds up, with saturation and in worker order, what each worker that touched the key changed. */
  ghost function RegretFold(base: Store, workers: seq<Worker>, k: nat, key: Key, a: nat): int
    requires AllFit(base) && AllDeltasFit(workers) && k <= |workers|
  {
    if k == 0 then BaseRegret(base, key, a)
    else
      var r, d := RegretFold(base, workers, k - 1, key, a), Difference(base, workers[k - 1], key);
      if d.Some? && a < |d.value.regrets| then Clamp(r + d.value.regrets[a]) else r
  }

  lemma PlusAt(p: Payload, d: Option<Payload>, add: Adder, a: nat)
    requires WholePayload(p) && (d.Some? ==> Whole2(p, d.value)) && a < |p.regrets|
    ensures PlusMaybe(p, d, add).regrets[a] ==
            if d.Some? && a < |d.value.regrets| then Clamp(p.regrets[a] + d.value.regrets[a]) else p.regrets[a]
  {
    if d.Some? {
      PlusActionsAt(HintStreet(p, d.value.street), d.value, |d.value.regrets|, add, a);
    }
  }

  ghost predicate AreDifferences(base: Store, workers: seq<Worker>, deltas: seq<Worker>, key: Key)
    requires AllFit(base) && AllDeltasFit(workers) && AllDeltasFit(deltas)
  {
    |deltas| == |workers| &&
    forall i :: 0 <= i < |workers| ==> Brings(deltas[i], key) == Difference(base, workers[i], key)
  }

  /** One more worker's difference, on plain values. */
  lemma FoldRegretNext(q: Payload, d: Option<Payload>, add: Adder, a: nat, r: int)
    requires WholePayload(q) && (d.Some? ==> Whole2(q, d.value)) && a < |q.regrets| && q.regrets[a] == r
    ensures PlusMaybe(q, d, add).regrets[a] ==
            if d.Some? && a < |d.value.regrets| then Clamp(r + d.value.regrets[a]) else r
  {
    PlusAt(q, d, add, a);
  }

  lemma {:induction false} FoldedRegret(base: Store, workers: seq<Worker>, deltas: seq<Worker>, k: nat, key: Key,
                                        a: nat,
                                        p: Payload, add: Adder)
    requires AllFit(base) && AllDeltasFit(workers) && AllDeltasFit(deltas) && AreDifferences(base, workers, deltas, key)
    requires k <= |workers| && AllBringFit(p, deltas, k, key) && a < |p.regrets|
    requires p.regrets[a] == BaseRegret(base, key, a)
    ensures Folded(p, deltas, k, key, add).regrets[a] == RegretFold(base, workers, k, key, a)
  {
    hide AllFit, Own, Brings, PlusMaybe, Clamp, LessBase;
    if k > 0 {
      FoldedRegret(base, workers, deltas, k - 1, key, a, p, add);
      var q, d := Folded(p, deltas, k - 1, key, add), Difference(base, workers[k - 1], key);
      assert BringsFit(p, deltas[k - 1], key) && Brings(deltas[k - 1], key) == d;
      FoldRegretNext(q, d, add, a, RegretFold(base, workers, k - 1, key, a));
    }
  }

  lemma BringsAlike(base: Store, workers: seq<Worker>, i: nat, key: Key)
    requires Trained(base, workers) && i < |workers| && Gathered(DeltasOf(base, workers))
    ensures Brings(DeltasOf(base, workers)[i], key).Some? <==> Brings(workers[i], key).Some?
  {
    DeltaBrings(base, workers, i, key);
  }

  /** The keys after a round trip: the base's, and those some worker touched. */
  lemma RoundTripKeys(base: Store, workers: seq<Worker>, add: Adder, key: Key)
    requires Trained(base, workers)
    ensures Own(MergedBack(base, workers, add), key).Some? <==>
            Own(base, key).Some? || exists i :: 0 <= i < |workers| && Brings(workers[i], key).Some?
  {
    var deltas := DeltasOf(base, workers);
    var s := PrecreateWorkers(base, deltas, |deltas|);
    DeltasAreMarked(base, workers);
    RoomForAll(base, workers);
    MergeAddsNoKey(s, deltas, key, add);
    PrecreateKeepsPrepared(base, deltas, |deltas|, key);
    if Own(base, key).None? && Own(s, key).Some? {
      var i := PrecreateOnlyBrought(base, deltas, |deltas|, key);
      BringsAlike(base, workers, i, key);
    }
    if Own(base, key).None? && exists i :: 0 <= i < |workers| && Brings(workers[i], key).Some? {
      var i :| 0 <= i < |workers| && Brings(workers[i], key).Some?;
      BringsAlike(base, workers, i, key);
      PrecreateMakesRoom(base, deltas, i, key);
    }
  }

  lemma PreparedRegret(base: Store, s: Store, key: Key, a: nat)
    requires AllFit(base) && AllFit(s) && Prepared(base, s, key) && Own(s, key).Some? && a < |Own(s, key).value.regrets|
    ensures Own(s, key).value.regrets[a] == BaseRegret(base, key, a)
  {
  }

  /** What the merge leaves under a key: the fold of the differences over what the creation left there. */
  lemma MergedFolds(base: Store, workers: seq<Worker>, add: Adder, key: Key) returns (p: Payload)
    requires Trained(base, workers) && Own(MergedBack(base, workers, add), key).Some?
    ensures var deltas := DeltasOf(base, workers); var s := PrecreateWorkers(base, deltas, |deltas|);
            && Own(s, key) == Some(p) && Prepared(base, s, key)
            && AllDeltasFit(deltas) && AreDifferences(base, workers, deltas, key)
            && AllBringFit(p, deltas, |deltas|, key)
            && Own(MergedBack(base, workers, add), key) == Some(Folded(p, deltas, |deltas|, key, add))
  {
    var deltas := DeltasOf(base, workers);
    var s := PrecreateWorkers(base, deltas, |deltas|);
    DeltasAreMarked(base, workers);
    RoomForAll(base, workers);
    MergeAddsNoKey(s, deltas, key, add);
    PrecreateKeepsPrepared(base, deltas, |deltas|, key);
    p := Own(s, key).value;
    MergeWorkersAtKey(s, deltas, |deltas|, key, p, add);
    forall i | 0 <= i < |workers|
      ensures Brings(deltas[i], key) == Difference(base, workers[i], key)
    {
      DeltaBrings(base, workers, i, key);
    }
  }

  /**
   After a round trip each regret is the base's plus what every worker that
   touched the key changed, worker by worker.
   */
  lemma OverlayRoundTrip(base: Store, workers: seq<Worker>, add: Adder, key: Key, a: nat)
    requires Trained(base, workers) && Own(MergedBack(base, workers, add), key).Some?
    requires a < |Own(MergedBack(base, workers, add), key).value.regrets|
    ensures Own(MergedBack(base, workers, add), key).value.regrets[a] ==
            RegretFold(base, workers, |workers|, key, a)
  {
    var deltas := DeltasOf(base, workers);
    var p := MergedFolds(base, workers, add, key);
    PreparedRegret(base, PrecreateWorkers(base, deltas, |deltas|), key, a);
    FoldedRegret(base, workers, deltas, |workers|, key, a, p, add);
  }

  lemma {:induction false} UntouchedFold(base: Store, workers: seq<Worker>, k: nat, key: Key, a: nat)
    requires AllFit(base) && AllDeltasFit(workers) && k <= |workers|
    requires forall j :: 0 <= j < k ==> Brings(workers[j], key).None?
    ensures RegretFold(base, workers, k, key, a) == BaseRegret(base, key, a)
  {
    if k > 0 {
      UntouchedFold(base, workers, k - 1, key, a);
    }
  }

  /** A key one worker touched gets that worker's change and no other. */
  lemma {:induction false} SoleFold(base: Store, workers: seq<Worker>, k: nat, i: nat, key: Key, a: nat)
    requires AllFit(base) && AllDeltasFit(workers) && i < k <= |workers|
    requires forall j :: 0 <= j < k && j != i ==> Brings(workers[j], key).None?
    requires Brings(workers[i], key).Some? && a < |Brings(workers[i], key).value.regrets|
    ensures RegretFold(base, workers, k, key, a) ==
            Clamp(BaseRegret(base, key, a) + LessBase(Brings(workers[i], key).value, base, key).regrets[a])
  {
    if i == k - 1 {
      UntouchedFold(base, workers, i, key, a);
    } else {
      SoleFold(base, workers, k - 1, i, key, a);
    }
  }

  predicate InRange(v: int) {
    INT_MIN <= v <= INT_MAX
  }

  /** One worker, and no other, touched the key. */
  ghost predicate Sole(workers: seq<Worker>, i: nat, key: Key)
    requires AllDeltasFit(workers)
  {
    && i < |workers| && Brings(workers[i], key).Some?
    && forall j :: 0 <= j < |workers| && j != i ==> Brings(workers[j], key).None?
  }

  /** What the worker brought fits under the merged key. */
  lemma MergedHolds(base: Store, workers: seq<Worker>, add: Adder, i: nat, key: Key) returns (p: Payload)
    requires Trained(base, workers) && i < |workers| && Brings(workers[i], key).Some?
    ensures Own(MergedBack(base, workers, add), key) == Some(p)
    ensures WholePayload(p) && |Brings(workers[i], key).value.regrets| <= |p.regrets|
  {
    RoundTripKeys(base, workers, add, key);
    var q := MergedFolds(base, workers, add, key);
    var deltas := DeltasOf(base, workers);
    assert BringsFit(q, deltas[i], key) && Brings(deltas[i], key) == Difference(base, workers[i], key);
    p := Own(MergedBack(base, workers, add), key).value;
  }

  /** A key of the base keeps its sums, or its lack of them. */
  lemma MergedKeepsSums(base: Store, workers: seq<Worker>, add: Adder, key: Key)
    requires Trained(base, workers) && Own(MergedBack(base, workers, add), key).Some? && Own(base, key).Some?
    ensures Own(MergedBack(base, workers, add), key).value.strategy.Some? == Own(base, key).value.strategy.Some?
  {
    var _ := MergedFolds(base, workers, add, key);
  }

  /** The base's regret as the difference was taken from it. */
  function SharedRegret(base: Store, key: Key, a: nat): int
    requires AllFit(base)
  {
    RegretShare(Own(base, key), RatioOf(Own(base, key), base.scale), a)
  }

  lemma WrapOff(v: int)
    requires 2 * INT_MIN < v < -2 * INT_MIN
    ensures Wrap(v) == if v > INT_MAX then v - 0x1_0000_0000 else if v < INT_MIN then v + 0x1_0000_0000 else v
  {
  }

  lemma TrainedFits(base: Store, workers: seq<Worker>)
    requires Trained(base, workers)
    ensures AllFit(base) && AllDeltasFit(workers)
  {
  }

  lemma SoleChange(base: Store, p: Payload, key: Key, a: nat)
    requires AllFit(base) && WholePayload(p) && a < |p.regrets|
    ensures LessBase(p, base, key).regrets[a] == Wrap(p.regrets[a] - SharedRegret(base, key, a))
  {
  }

  /** When a value returns from its own difference: held is added to, share was subtracted. */
  predicate Returns(held: int, share: int, mine: int) {
    && InRange(mine - share)
    && (share == held || (share < held && mine == INT_MAX) || (held < share && mine == INT_MIN))
  }

  lemma ReturnsIff(held: int, share: int, mine: int)
    requires InRange(held) && InRange(share) && InRange(mine)
    ensures Clamp(held + Wrap(mine - share)) == mine <==> Returns(held, share, mine)
  {
    WrapOff(mine - share);
  }

  lemma SoleEnds(base: Store, workers: seq<Worker>, i: nat, key: Key, a: nat)
    requires AllFit(base) && AllDeltasFit(workers) && Sole(workers, i, key)
    requires a < |Brings(workers[i], key).value.regrets|
    requires InRange(Brings(workers[i], key).value.regrets[a])
    requires InRange(BaseRegret(base, key, a)) && InRange(SharedRegret(base, key, a))
    ensures var mine := Brings(workers[i], key).value.regrets[a];
            RegretFold(base, workers, |workers|, key, a) == mine <==>
            Returns(BaseRegret(base, key, a), SharedRegret(base, key, a), mine)
  {
    SoleFold(base, workers, |workers|, i, key, a);
    SoleChange(base, Brings(workers[i], key).value, key, a);
    ReturnsIff(BaseRegret(base, key, a), SharedRegret(base, key, a), Brings(workers[i], key).value.regrets[a]);
  }

  /**
   A regret only one worker touched ends at exactly that worker's value, if and
   only if its change fits 32 bits and the base's regret had no discount pending
   that changed it, or the merge saturates on the worker's value.
   */
  lemma SoleWorkerWins(base: Store, workers: seq<Worker>, add: Adder, i: nat, key: Key, a: nat) returns (p: Payload)
    requires Trained(base, workers) && Sole(workers, i, key) && a < |Brings(workers[i], key).value.regrets|
    requires InRange(Brings(workers[i], key).value.regrets[a])
    requires InRange(BaseRegret(base, key, a)) && InRange(SharedRegret(base, key, a))
    ensures Own(MergedBack(base, workers, add), key) == Some(p) && a < |p.regrets|
    ensures var mine := Brings(workers[i], key).value.regrets[a];
            p.regrets[a] == mine <==> Returns(BaseRegret(base, key, a), SharedRegret(base, key, a), mine)
  {
    TrainedFits(base, workers);
    assert i < |workers| && Brings(workers[i], key).Some?;
    hide Ok, AllFit, AllDeltasFit, Own, Brings, MergedBack, SharedRegret, BaseRegret, RegretFold, LessBase;
    hide Returns, Clamp, Wrap, Sole;
    p := MergedHolds(base, workers, add, i, key);
    OverlayRoundTrip(base, workers, add, key, a);
    SoleEnds(base, workers, i, key, a);
  }

  /** A discount never takes a regret out of range. */
  lemma ShareInRange(r: int, ratio: real)
    requires InRange(r) && 0.0 <= ratio <= 1.0
    ensures InRange(Round(r as real * ratio))
  {
    if r >= 0 {
      PartOfWhole(r as real, ratio);
    } else {
      PartOfWhole((-r) as real, ratio);
      assert r as real * ratio == -((-r) as real * ratio);
    }
  }

  lemma PartOfWhole(x: real, ratio: real)
    requires 0.0 <= x && 0.0 <= ratio <= 1.0
    ensures 0.0 <= x * ratio <= x
  {
    var rest := 1.0 - ratio;
    assert 0.0 <= x * rest && x * rest == x - x * ratio;
  }

  /** So a base whose scale only went down never breaks the theorem's range condition. */
  lemma SharedInRange(base: Store, key: Key, a: nat)
    requires AllFit(base) && InRange(BaseRegret(base, key, a)) && RatioOf(Own(base, key), base.scale) <= 1.0
    ensures InRange(SharedRegret(base, key, a))
  {
    if Own(base, key).Some? && a < |Own(base, key).value.regrets| {
      var r, ratio := BaseRegret(base, key, a), RatioOf(Own(base, key), base.scale);
      assert 0.0 <= ratio && SharedRegret(base, key, a) == Round(r as real * ratio);
      hide Round, Ratio, SharedRegret;
      ShareInRange(r, ratio);
    }
  }

  /** With no discount pending on the key, only the change has to fit. */
  lemma NothingPendingReturns(base: Store, key: Key, a: nat, mine: int)
    requires AllFit(base) && RatioOf(Own(base, key), base.scale) == 1.0
    ensures Returns(BaseRegret(base, key, a), SharedRegret(base, key, a), mine) <==>
            InRange(mine - BaseRegret(base, key, a))
  {
    RoundWhole(BaseRegret(base, key, a));
  }

  // ----- strategy sums -----

  function BaseSum(base: Store, key: Key, a: nat): real
    requires AllFit(base)
  {
    StrategyShare(Own(base, key), 1.0, a)
  }

  ghost function SumFold(base: Store, workers: seq<Worker>, k: nat, key: Key, a: nat, add: Adder): real
    requires AllFit(base) && AllDeltasFit(workers) && k <= |workers|
  {
    if k == 0 then BaseSum(base, key, a)
    else
      var x, d := SumFold(base, workers, k - 1, key, a, add), Difference(base, workers[k - 1], key);
      if d.Some? && d.value.strategy.Some? && a < |d.value.regrets| then add(x, d.value.strategy.value[a]) else x
  }

  lemma PlusSumAt(p: Payload, d: Option<Payload>, add: Adder, a: nat)
    requires WholePayload(p) && (d.Some? ==> Whole2(p, d.value)) && a < |p.regrets| && p.strategy.Some?
    ensures PlusMaybe(p, d, add).strategy.value[a] ==
            if d.Some? && d.value.strategy.Some? && a < |d.value.regrets|
            then add(p.strategy.value[a], d.value.strategy.value[a])
            else p.strategy.value[a]
  {
    if d.Some? {
      PlusActionsAt(HintStreet(p, d.value.street), d.value, |d.value.regrets|, add, a);
    }
  }

  lemma FoldSumNext(q: Payload, d: Option<Payload>, add: Adder, a: nat, x: real)
    requires WholePayload(q) && (d.Some? ==> Whole2(q, d.value)) && a < |q.regrets|
    requires q.strategy.Some? && q.strategy.value[a] == x
    ensures PlusMaybe(q, d, add).strategy.value[a] ==
            if d.Some? && d.value.strategy.Some? && a < |d.value.regrets| then add(x, d.value.strategy.value[a]) else x
  {
    PlusSumAt(q, d, add, a);
  }

  lemma {:induction false} FoldedSum(base: Store, workers: seq<Worker>, deltas: seq<Worker>, k: nat, key: Key, a: nat,
                                     p: Payload, add: Adder)
    requires AllFit(base) && AllDeltasFit(workers) && AllDeltasFit(deltas) && AreDifferences(base, workers, deltas, key)
    requires k <= |workers| && AllBringFit(p, deltas, k, key) && a < |p.regrets|
    requires p.strategy.Some? && p.strategy.value[a] == BaseSum(base, key, a)
    ensures Folded(p, deltas, k, key, add).strategy.value[a] == SumFold(base, workers, k, key, a, add)
  {
    hide AllFit, Own, Brings, PlusMaybe, LessBase;
    if k > 0 {
      FoldedSum(base, workers, deltas, k - 1, key, a, p, add);
      var q, d := Folded(p, deltas, k - 1, key, add), Difference(base, workers[k - 1], key);
      assert BringsFit(p, deltas[k - 1], key) && Brings(deltas[k - 1], key) == d;
      FoldSumNext(q, d, add, a, SumFold(base, workers, k - 1, key, a, add));
    }
  }

  lemma PreparedSum(base: Store, s: Store, key: Key, a: nat)
    requires AllFit(base) && AllFit(s) && Prepared(base, s, key) && Own(s, key).Some? && a < |Own(s, key).value.regrets|
    requires Own(s, key).value.strategy.Some?
    ensures Own(s, key).value.strategy.value[a] == BaseSum(base, key, a)
  {
  }

  /** The same round trip for strategy sums, whatever the rounding of their additions. */
  lemma OverlaySumsRoundTrip(base: Store, workers: seq<Worker>, add: Adder, key: Key, a: nat)
    requires Trained(base, workers) && Own(MergedBack(base, workers, add), key).Some?
    requires a < |Own(MergedBack(base, workers, add), key).value.regrets|
    requires Own(MergedBack(base, workers, add), key).value.strategy.Some?
    ensures Own(MergedBack(base, workers, add), key).value.strategy.value[a] ==
            SumFold(base, workers, |workers|, key, a, add)
  {
    var deltas := DeltasOf(base, workers);
    var p := MergedFolds(base, workers, add, key);
    PreparedSum(base, PrecreateWorkers(base, deltas, |deltas|), key, a);
    FoldedSum(base, workers, deltas, |workers|, key, a, p, add);
  }

  lemma {:induction false} UntouchedSum(base: Store, workers: seq<Worker>, k: nat, key: Key, a: nat, add: Adder)
    requires AllFit(base) && AllDeltasFit(workers) && k <= |workers|
    requires forall j :: 0 <= j < k ==> Brings(workers[j], key).None?
    ensures SumFold(base, workers, k, key, a, add) == BaseSum(base, key, a)
  {
    if k > 0 {
      UntouchedSum(base, workers, k - 1, key, a, add);
    }
  }

  lemma {:induction false} SoleSum(base: Store, workers: seq<Worker>, k: nat, i: nat, key: Key, a: nat, add: Adder)
    requires AllFit(base) && AllDeltasFit(workers) && i < k <= |workers|
    requires forall j :: 0 <= j < k && j != i ==> Brings(workers[j], key).None?
    requires Brings(workers[i], key).Some? && a < |Brings(workers[i], key).value.regrets|
    requires Brings(workers[i], key).value.strategy.Some?
    ensures SumFold(base, workers, k, key, a, add) ==
            add(BaseSum(base, key, a), Difference(base, workers[i], key).value.strategy.value[a])
  {
    if i == k - 1 {
      UntouchedSum(base, workers, i, key, a, add);
    } else {
      SoleSum(base, workers, k - 1, i, key, a, add);
    }
  }

  function BaseRatio(base: Store, key: Key): real
    requires AllFit(base)
  {
    RatioOf(Own(base, key), base.scale)
  }

  lemma ShareScales(b: Option<Payload>, ratio: real, a: nat)
    ensures StrategyShare(b, ratio, a) == StrategyShare(b, 1.0, a) * ratio
  {
  }

  lemma SoleDifference(base: Store, w: Worker, key: Key, a: nat)
    requires AllFit(base) && AllFit(w.delta) && Brings(w, key).Some? && a < |Brings(w, key).value.regrets|
    requires Brings(w, key).value.strategy.Some?
    ensures Difference(base, w, key).value.strategy.value[a] ==
            Brings(w, key).value.strategy.value[a] - BaseSum(base, key, a) * BaseRatio(base, key)
  {
    ShareScales(Own(base, key), BaseRatio(base, key), a);
  }

  const EXACT: Adder := (x, d) => x + d

  lemma ExactOnlyIf(x: real, y: real, ratio: real)
    ensures x + (y - x * ratio) == y <==> ratio == 1.0 || x == 0.0
  {
    assert x + (y - x * ratio) - y == x * (1.0 - ratio);
  }

  lemma ReadsOnlyIf(x: real, y: real, ratio: real)
    ensures (x + (y - x * ratio)) * ratio == y <==> ratio == 1.0 || y == x * ratio
  {
    var z := x * ratio;
    assert (x + (y - z)) * ratio - y == (1.0 - ratio) * (z - y) by {
      assert (x + (y - z)) * ratio == x * ratio + (y - z) * ratio;
      assert (1.0 - ratio) * (z - y) == z - y - ratio * (z - y);
    }
    ProductIsZero(1.0 - ratio, z - y);
  }

  lemma ProductIsZero(u: real, v: real)
    ensures u * v == 0.0 <==> u == 0.0 || v == 0.0
  {
  }

  lemma PreparedStamp(base: Store, s: Store, key: Key)
    requires AllFit(base) && AllFit(s) && Prepared(base, s, key) && Own(s, key).Some? && s.scale == base.scale
    ensures Ratio(base.scale, Own(s, key).value.stamp) == BaseRatio(base, key)
  {
    if Own(base, key).None? {
      NothingPending(base.scale, Own(s, key).value.stamp);
    }
  }

  /** The merge leaves a key the discount that was pending on it. */
  lemma MergedStamp(base: Store, workers: seq<Worker>, add: Adder, key: Key)
    requires Trained(base, workers) && Own(MergedBack(base, workers, add), key).Some?
    ensures Ratio(base.scale, Own(MergedBack(base, workers, add), key).value.stamp) == BaseRatio(base, key)
  {
    TrainedFits(base, workers);
    var deltas := DeltasOf(base, workers);
    var s := PrecreateWorkers(base, deltas, |deltas|);
    hide Ok, AllFit, AllDeltasFit, Own, Prepared, BaseRatio, Ratio, AllBringFit, AreDifferences, PrecreateWorkers;
    var p := MergedFolds(base, workers, add, key);
    PreparedStamp(base, s, key);
  }

  lemma MergedReads(base: Store, p: Payload, key: Key, a: nat)
    requires AllFit(base) && WholePayload(p) && p.strategy.Some? && a < |p.regrets|
    requires Ratio(base.scale, p.stamp) == BaseRatio(base, key)
    ensures Current(p, base.scale).strategy.value[a] == p.strategy.value[a] * BaseRatio(base, key)
  {
    SumNow(p, base.scale, a);
  }

  /** When a sum ends, and when it reads, as the worker left it. */
  predicate SumReturns(end: real, mine: real, x: real, ratio: real) {
    && (end == mine <==> ratio == 1.0 || x == 0.0)
    && (end * ratio == mine <==> ratio == 1.0 || mine == x * ratio)
  }

  lemma SumReturnsIff(end: real, mine: real, x: real, ratio: real)
    requires end == x + (mine - x * ratio)
    ensures SumReturns(end, mine, x, ratio)
  {
    ExactOnlyIf(x, mine, ratio);
    ReadsOnlyIf(x, mine, ratio);
  }

  lemma SoleSumIs(base: Store, workers: seq<Worker>, i: nat, key: Key, a: nat)
    requires AllFit(base) && AllDeltasFit(workers) && Sole(workers, i, key)
    requires a < |Brings(workers[i], key).value.regrets| && Brings(workers[i], key).value.strategy.Some?
    ensures SumFold(base, workers, |workers|, key, a, EXACT) ==
            BaseSum(base, key, a)
            + (Brings(workers[i], key).value.strategy.value[a] - BaseSum(base, key, a) * BaseRatio(base, key))
  {
    SoleSum(base, workers, |workers|, i, key, a, EXACT);
    SoleDifference(base, workers[i], key, a);
  }

  lemma SoleSumEnds(base: Store, workers: seq<Worker>, i: nat, key: Key, a: nat)
    requires AllFit(base) && AllDeltasFit(workers) && Sole(workers, i, key)
    requires a < |Brings(workers[i], key).value.regrets| && Brings(workers[i], key).value.strategy.Some?
    ensures SumReturns(SumFold(base, workers, |workers|, key, a, EXACT),
                       Brings(workers[i], key).value.strategy.value[a], BaseSum(base, key, a), BaseRatio(base, key))
  {
    hide SumReturns, BaseSum, BaseRatio, SumFold, StrategyShare, Ratio, RatioOf;
    SoleSumIs(base, workers, i, key, a);
    SumReturnsIff(SumFold(base, workers, |workers|, key, a, EXACT),
                  Brings(workers[i], key).value.strategy.value[a], BaseSum(base, key, a), BaseRatio(base, key));
  }

  /**
   In exact arithmetic, a sum only one worker touched ends at that worker's value
   if and only if no discount was pending on the base's sum or the sum was zero:
   the difference is taken from the discounted sum but added to the raw one. It
   reads as that value if and only if no discount was pending or the worker left
   the sum as it read it.
   */
  lemma SoleSumIsExact(base: Store, workers: seq<Worker>, i: nat, key: Key, a: nat) returns (p: Payload)
    requires Trained(base, workers) && Sole(workers, i, key) && a < |Brings(workers[i], key).value.regrets|
    requires Brings(workers[i], key).value.strategy.Some?
    ensures Own(MergedBack(base, workers, EXACT), key) == Some(p) && WholePayload(p) && a < |p.regrets|
    ensures p.strategy.Some? ==>
              && Current(p, base.scale).strategy.value[a] == p.strategy.value[a] * BaseRatio(base, key)
              && SumReturns(p.strategy.value[a], Brings(workers[i], key).value.strategy.value[a],
                            BaseSum(base, key, a), BaseRatio(base, key))
  {
    TrainedFits(base, workers);
    assert i < |workers| && Brings(workers[i], key).Some?;
    hide Ok, AllFit, AllDeltasFit, Own, Brings, MergedBack, SumFold, BaseSum, BaseRatio, Ratio, SumReturns, Sole;
    p := MergedHolds(base, workers, EXACT, i, key);
    if p.strategy.Some? {
      OverlaySumsRoundTrip(base, workers, EXACT, key, a);
      SoleSumEnds(base, workers, i, key, a);
      MergedStamp(base, workers, EXACT, key);
      MergedReads(base, p, key, a);
    }
  }
}
