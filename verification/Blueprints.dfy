/**
 The infoset store as an object: a node table and two bump arenas updated in
 place, an open-addressed index over arrays, a running discount scale, and an
 optional base that an overlay reads through and copies from.
 */
module Blueprints {
  import opened Options
  import opened Sequences
  import opened Arenas
  import opened Stores
  import opened KeyIndexes

  const INIT_INDEX := 8192

  function KeysOf(nodes: seq<Node>): (keys: seq<Arenas.Key>)
    ensures |keys| == |nodes|
    ensures forall i :: 0 <= i < |nodes| ==> keys[i] == nodes[i].key
  {
    seq(|nodes|, i requires 0 <= i < |nodes| => nodes[i].key)
  }

  /** The index maps each node's key to the node's number. */
  ghost predicate Indexed(nodes: seq<Node>, contents: map<Arenas.Key, nat>, used: nat) {
    Distinct(KeysOf(nodes)) && Positions(contents, KeysOf(nodes)) && used == |nodes|
  }

  lemma IndexedAppend(nodes: seq<Node>, contents: map<Arenas.Key, nat>, used: nat, n: Node)
    requires Indexed(nodes, contents, used) && n.key !in KeysOf(nodes)
    ensures n.key !in contents && Indexed(nodes + [n], contents[n.key := |nodes|], used + 1)
  {
    assert KeysOf(nodes + [n]) == KeysOf(nodes) + [n.key];
  }

  lemma IndexedUpdate(nodes: seq<Node>, contents: map<Arenas.Key, nat>, used: nat, i: nat, n: Node)
    requires Indexed(nodes, contents, used) && i < |nodes| && n.key == nodes[i].key
    ensures Indexed(nodes[i := n], contents, used)
  {
    assert KeysOf(nodes[i := n]) == KeysOf(nodes);
  }

  lemma {:induction false} FindAbsent(nodes: seq<Node>, key: Arenas.Key)
    requires forall i :: 0 <= i < |nodes| ==> nodes[i].key != key
    ensures Find(nodes, key) == None
  {
    if nodes != [] {
      FindAbsent(nodes[..|nodes| - 1], key);
    }
  }

  /** The index agrees with a search through the nodes. */
  lemma IndexFinds(nodes: seq<Node>, contents: map<Arenas.Key, nat>, used: nat, key: Arenas.Key)
    requires Indexed(nodes, contents, used)
    ensures Find(nodes, key) == if key in contents then Some(contents[key]) else None
  {
    var keys := KeysOf(nodes);
    if key in contents {
      assert keys[contents[key]] == key;
      if Find(nodes, key).Some? {
        assert keys[Find(nodes, key).value] == key;
      }
    } else {
      forall i | 0 <= i < |nodes|
        ensures nodes[i].key != key
      {
        assert keys[i] in contents;
      }
      FindAbsent(nodes, key);
    }
  }

  lemma EmptyIsKept(omitPostflop: bool)
    ensures Indexed([], map[], 0) && Ok(Store([], [], [], omitPostflop, 1.0))
  {
    assert KeysOf([]) == [];
  }

  /** A regret cell of a node after a sync: the nearest integer to the exact product, halves away from zero. */
  ghost predicate SyncedCell(s: Store, i: nat, a: nat, regrets: seq<int>)
    requires i < |s.nodes|
  {
    var at := s.nodes[i].regretAt + a;
    at < |s.regrets| == |regrets| && NearestAway(Product(s.regrets[at], Ratio(s.scale, s.nodes[i].stamp)), regrets[at])
  }

  lemma EveryCellSyncs(s: Store, i: nat)
    requires i < |s.nodes| && Fits(s, s.nodes[i])
    ensures Ok(s) ==> forall a :: 0 <= a < s.nodes[i].actions ==> SyncedCell(s, i, a, SyncNode(s, i).regrets)
  {
    if Ok(s) {
      forall a | 0 <= a < s.nodes[i].actions
        ensures SyncedCell(s, i, a, SyncNode(s, i).regrets)
      {
        SyncRounds(s, i, a);
      }
    }
  }

  class Blueprint {
    var nodes: seq<Node>
    var regrets: seq<int>
    var strategies: seq<real>
    const index: KeyIndex
    var omitPostflop: bool
    var scale: real
    var base: Blueprint?
    ghost var Repr: set<object>

    /** The value this store holds, its base left aside. */
    ghost function View(): Store
      reads this
    {
      Store(nodes, regrets, strategies, omitPostflop, scale)
    }

    /** The index is sound and finds every node. */
    ghost predicate Kept()
      reads this, Repr
    {
      && this in Repr && index in Repr && index.Repr <= Repr && this !in index.Repr
      && index.Valid() && Indexed(nodes, index.Contents, index.used)
    }

    ghost predicate Valid()
      reads this, Repr, if base != null then {base} + base.Repr else {}
    {
      Kept() && (base != null ==> base.base == null && base.Kept() && Repr !! base.Repr)
    }

    ghost function BaseView(): Option<Store>
      reads this, base
    {
      if base == null then None else Some(base.View())
    }

    /** An empty store with the initial index capacity. */
    constructor (mix: Arenas.Key -> nat)
      ensures Valid() && base == null && View() == Store([], [], [], false, 1.0) && fresh(Repr)
    {
      nodes, regrets, strategies := [], [], [];
      index := new KeyIndex(mix, INIT_INDEX);
      omitPostflop := false;
      scale := 1.0;
      base := null;
      new;
      Repr := {this} + index.Repr;
      EmptyIsKept(omitPostflop);
    }

    /** The number of the node with a key, if this store itself has one. */
    method FindOwn(key: Arenas.Key) returns (i: Option<nat>)
      requires Kept()
      ensures i == Find(nodes, key)
    {
      var slot, found := index.FindSlot(key);
      i := if found then Some(index.vals[slot] - 1) else None;
      IndexFinds(nodes, index.Contents, index.used, key);
    }

    method PutRegret(i: nat, a: nat, v: int)
      requires i < |nodes| && Fits(View(), nodes[i]) && a < nodes[i].actions
      modifies this`regrets
      ensures View() == SetRegret(old(View()), i, a, v)
    {
      regrets := regrets[nodes[i].regretAt + a := v];
    }

    method PutStrategy(i: nat, a: nat, x: real)
      requires i < |nodes| && Fits(View(), nodes[i]) && a < nodes[i].actions && nodes[i].strategyAt.Some?
      modifies this`strategies
      ensures View() == SetStrategy(old(View()), i, a, x)
    {
      strategies := strategies[nodes[i].strategyAt.value + a := x];
    }

    method ScaleCell(i: nat, a: nat, ratio: real)
      requires i < |nodes| && Fits(View(), nodes[i]) && a < nodes[i].actions
      modifies this`regrets, this`strategies
      ensures View() == MapCell(old(View()), i, ScaleRegret(ratio), ScaleSum(ratio), a)
    {
      var r := regrets[nodes[i].regretAt + a];
      var v := Round(r as real * ratio);
      assert v == ScaleRegret(ratio)(a, r);
      PutRegret(i, a, v);
      if nodes[i].strategyAt.Some? {
        var x := strategies[nodes[i].strategyAt.value + a];
        var y := x * ratio;
        assert y == ScaleSum(ratio)(a, x);
        PutStrategy(i, a, y);
      }
    }

    /** Rewrites each action of a node by a ratio. */
    method ScaleCells(i: nat, ratio: real)
      requires i < |nodes| && Fits(View(), nodes[i])
      modifies this`regrets, this`strategies
      ensures View() == MapCells(old(View()), i, ScaleRegret(ratio), ScaleSum(ratio), nodes[i].actions)
    {
      for a := 0 to nodes[i].actions
        invariant View() == MapCells(old(View()), i, ScaleRegret(ratio), ScaleSum(ratio), a)
      {
        ScaleCell(i, a, ratio);
      }
    }

    /** Applies a node's pending discount. */
    method Sync(i: nat)
      requires Kept() && i < |nodes| && Fits(View(), nodes[i])
      modifies this`nodes, this`regrets, this`strategies
      ensures Kept() && View() == SyncNode(old(View()), i)
      ensures Ok(old(View())) ==>
                forall a :: 0 <= a < old(nodes)[i].actions ==>
                  SyncedCell(old(View()), i, a, regrets)
    {
      if Mark(nodes[i].stamp) == Mark(scale) {
        EveryCellSyncs(View(), i);
        return;
      }
      EveryCellSyncs(View(), i);
      ScaleCells(i, Ratio(scale, nodes[i].stamp));
      SetNode(i, nodes[i].(stamp := Mark(scale)));
    }

    /** Applies what is pending on every node. */
    method SyncEvery()
      requires Kept() && Ok(View())
      modifies this`nodes, this`regrets, this`strategies
      ensures Kept() && View() == SyncAll(old(View()), |nodes|)
    {
      ghost var s := View();
      for i := 0 to |nodes|
        invariant Kept() && |nodes| == |s.nodes| && View() == SyncAll(s, i)
      {
        Sync(i);
      }
    }

    method SetScale(x: real)
      requires Kept()
      modifies this`scale
      ensures Kept() && View() == old(View()).(scale := x)
    {
      scale := x;
    }

    method LowerScale(factor: real)
      requires Kept() && 0.0 < factor < 1.0
      modifies this`scale
      ensures Kept() && View() == old(View()).(scale := Lowered(old(scale), factor))
    {
      scale := Mark(scale) * factor;
    }

    method Rescale()
      requires Kept() && Ok(View())
      modifies this`scale, this`nodes, this`regrets, this`strategies
      ensures Kept() && View() == SyncAll(old(View()), |old(nodes)|).(scale := 1.0)
    {
      hide SyncAll;
      SyncEvery();
      SetScale(1.0);
    }

    /** A discount event: only the scale, unless it has become too small. */
    method ApplyDiscount(factor: real)
      requires Kept() && Ok(View())
      modifies this`scale, this`nodes, this`regrets, this`strategies
      ensures Kept() && View() == Discounted(old(View()), factor)
    {
      hide Fits, Apart, SyncAll;
      if factor <= 0.0 || factor >= 1.0 {
        return;
      }
      ScaleOk(View(), Lowered(scale, factor));
      LowerScale(factor);
      if scale < RESCALE_BELOW {
        Rescale();
      }
    }

    /** Reads a key of this store, applying what is pending on it. */
    method LookOwn(key: Arenas.Key) returns (p: Option<Payload>)
      requires Kept() && Ok(View())
      modifies this`nodes, this`regrets, this`strategies
      ensures Kept() && View() == Looked(old(View()), key) && p == ReadOwn(old(View()), key)
    {
      p := None;
      var i := FindOwn(key);
      if i.Some? {
        SyncReplaces(View(), i.value);
        Sync(i.value);
        p := Some(PayloadOf(Store(nodes, regrets, strategies, omitPostflop, scale), nodes[i.value]));
      }
    }

    ghost function BaseRepr(): set<object>
      reads this, base
    {
      if base == null then {} else base.Repr
    }

    method LookHere(key: Arenas.Key) returns (p: Option<Payload>)
      requires Ready()
      modifies this`nodes, this`regrets, this`strategies
      ensures Valid() && BaseView() == old(BaseView())
      ensures View() == Looked(old(View()), key) && p == ReadOwn(old(View()), key)
    {
      p := LookOwn(key);
    }

    method LookThrough(key: Arenas.Key) returns (p: Option<Payload>)
      requires Ready() && base != null
      modifies base.Repr
      ensures Valid() && View() == old(View())
      ensures BaseView() == Some(Looked(old(base.View()), key)) && p == ReadOwn(old(base.View()), key)
    {
      p := base.LookOwn(key);
    }

    method LookAt(key: Arenas.Key, found: Option<nat>) returns (p: Option<Payload>)
      requires Ready() && found == Find(nodes, key)
      modifies Repr, BaseRepr()
      ensures Valid() && base == old(base) && p == Read(old(View()), old(BaseView()), key)
      ensures Overlay(View(), BaseView()) == LookedThrough(Overlay(old(View()), old(BaseView())), key)
    {
      if found.None? && base != null {
        p := LookThrough(key);
      } else {
        p := LookHere(key);
      }
    }

    /** Reads through to the base while there is no local copy. */
    method Lookup(key: Arenas.Key) returns (p: Option<Payload>)
      requires Ready()
      modifies Repr, BaseRepr()
      ensures Valid() && base == old(base) && p == Read(old(View()), old(BaseView()), key)
      ensures Overlay(View(), BaseView()) == LookedThrough(Overlay(old(View()), old(BaseView())), key)
    {
      ghost var own, theirs := View(), BaseView();
      var i := FindOwn(key);
      assert Ready() && View() == own && BaseView() == theirs;
      p := LookAt(key, i);
    }

    method CollectKeys() returns (keys: seq<Arenas.Key>)
      ensures keys == KeysOf(nodes)
    {
      keys := [];
      for i := 0 to |nodes|
        invariant keys == KeysOf(nodes)[..i]
      {
        keys := keys + [nodes[i].key];
      }
    }

    /** Doubles the index before an insertion that would break the load rule. */
    method EnsureIndexRoom()
      requires Kept()
      modifies this`Repr, index
      ensures Kept() && RoomFor(index.used + 1, index.keys.Length) && fresh(Repr - old(Repr))
    {
      if !RoomFor(index.used + 1, index.keys.Length) {
        var keys := CollectKeys();
        index.EnsureRoom(keys);
        Repr := Repr + index.Repr;
      }
    }

    /** Bumps both arenas for a payload and copies it in. */
    method Allocate(p: Payload) returns (regretAt: nat, strategyAt: Option<nat>)
      modifies this`regrets, this`strategies
      ensures regretAt == |old(regrets)| && regrets == old(regrets) + p.regrets
      ensures strategyAt == if p.strategy.Some? then Some(|old(strategies)|) else None
      ensures strategies == if p.strategy.Some? then old(strategies) + p.strategy.value else old(strategies)
    {
      regretAt := |regrets|;
      regrets := regrets + p.regrets;
      strategyAt := None;
      if p.strategy.Some? {
        strategyAt := Some(|strategies|);
        strategies := strategies + p.strategy.value;
      }
    }

    /** A node at the end of the table, entered in the index. */
    method AddNode(n: Node)
      requires Kept() && n.key !in KeysOf(nodes) && RoomFor(index.used + 1, index.keys.Length)
      modifies this`nodes, index.Repr
      ensures Kept() && nodes == old(nodes) + [n]
    {
      IndexedAppend(nodes, index.Contents, index.used, n);
      index.Enter(n.key, |nodes|);
      nodes := nodes + [n];
    }

    /** Room in the index, room in the arenas, then the node and its index entry. */
    method AppendNode(key: Arenas.Key, p: Payload, from: Option<nat>)
      requires Kept() && WholePayload(p) && key !in KeysOf(nodes)
      modifies Repr
      ensures Kept() && View() == Append(old(View()), key, p, from) && fresh(Repr - old(Repr)) && base == old(base)
    {
      ghost var s := View();
      EnsureIndexRoom();
      assert View() == s;
      var regretAt, strategyAt := Allocate(p);
      assert nodes == s.nodes && regrets == s.regrets + p.regrets && omitPostflop == s.omitPostflop && scale == s.scale;
      AddNode(Node(key, regretAt, strategyAt, |p.regrets|, p.street, from, false, p.stamp));
    }

    /** Overwrites a node's entry, its key kept. */
    method SetNode(i: nat, n: Node)
      requires Kept() && i < |nodes| && n.key == nodes[i].key
      modifies this`nodes
      ensures Kept() && nodes == old(nodes)[i := n]
    {
      IndexedUpdate(nodes, index.Contents, index.used, i, n);
      nodes := nodes[i := n];
    }

    method MoveNode(i: nat, p: Payload)
      requires Kept() && i < |nodes|
      modifies this`nodes, this`regrets, this`strategies
      ensures Kept() && View() == Moved(old(View()), i, p)
    {
      var regretAt, strategyAt := Allocate(p);
      SetNode(i, nodes[i].(regretAt := regretAt, strategyAt := strategyAt, actions := |p.regrets|));
    }

    /** Makes room for n actions, moving the node to the end of the arenas if it must. */
    method GrowNode(i: nat, n: nat)
      requires Kept() && i < |nodes| && Fits(View(), nodes[i])
      modifies this`nodes, this`regrets, this`strategies
      ensures Kept() && View() == Grow(old(View()), i, n)
    {
      if n > nodes[i].actions {
        var p := Extended(PayloadOf(Store(nodes, regrets, strategies, omitPostflop, scale), nodes[i]), n);
        MoveNode(i, p);
      }
    }

    /** What this store holds now for a key, with room for n actions. */
    method CopyOut(key: Arenas.Key, n: nat) returns (p: Option<Payload>, i: Option<nat>)
      requires Kept() && AllFit(View()) && 1 <= n <= MAX_ACTIONS
      ensures i == Find(nodes, key)
      ensures p == if ReadOwn(View(), key).Some? then Some(Extended(ReadOwn(View(), key).value, n)) else None
    {
      i := FindOwn(key);
      p := None;
      if i.Some? {
        var held := PayloadOf(Store(nodes, regrets, strategies, omitPostflop, scale), nodes[i.value]);
        p := Some(Extended(Current(held, scale), n));
      }
    }

    /** The payload of a new node: the base's, if it has the key, or zeros. */
    method StartPayload(key: Arenas.Key, n: nat, street: int) returns (p: Payload, from: Option<nat>)
      requires Valid() && (base != null ==> AllFit(base.View())) && 1 <= n <= MAX_ACTIONS
      ensures p == Fresh(View(), BaseView(), key, n, street) && from == BaseIndex(BaseView(), key)
    {
      from := None;
      p := Blank(n, street, omitPostflop, Mark(scale));
      if base != null {
        var copy, i := base.CopyOut(key, n);
        from := i;
        if copy.Some? {
          p := copy.value.(stamp := Mark(scale));
        }
      }
    }

    method Create(key: Arenas.Key, n: nat, street: int)
      requires Valid() && (base != null ==> AllFit(base.View())) && 1 <= n <= MAX_ACTIONS && key !in KeysOf(nodes)
      modifies Repr
      ensures Valid() && fresh(Repr - old(Repr)) && base == old(base) && BaseView() == old(BaseView())
      ensures View() == Append(old(View()), key, Fresh(old(View()), old(BaseView()), key, n, street),
                               BaseIndex(old(BaseView()), key))
    {
      var p, from := StartPayload(key, n, street);
      AppendNode(key, p, from);
    }

    ghost predicate Ready()
      reads this, Repr, if base != null then {base} + base.Repr else {}
    {
      Valid() && Ok(View()) && (base != null ==> Ok(base.View()))
    }

    method Refresh(i: nat, n: nat)
      requires Kept() && i < |nodes| && Fits(View(), nodes[i]) && 1 <= n <= MAX_ACTIONS
      modifies this`nodes, this`regrets, this`strategies
      ensures Kept() && View() == Refreshed(old(View()), i, n)
    {
      GrowFits(View(), i, n);
      GrowNode(i, n);
      Sync(i);
    }

    method RefreshOwn(i: nat, n: nat)
      requires Ready() && i < |nodes| && 1 <= n <= MAX_ACTIONS
      modifies Repr
      ensures Valid() && fresh(Repr - old(Repr)) && base == old(base) && BaseView() == old(BaseView())
      ensures View() == Refreshed(old(View()), i, n)
    {
      Refresh(i, n);
    }

    method TouchFound(key: Arenas.Key, i: nat, actions: int, street: int)
      requires Ready() && Find(nodes, key) == Some(i)
      modifies Repr
      ensures Valid() && fresh(Repr - old(Repr)) && base == old(base) && BaseView() == old(BaseView())
      ensures View() == Touch(old(View()), old(BaseView()), key, actions, street)
    {
      hide Touch, Refreshed, Valid, Kept;
      TouchFinds(View(), BaseView(), key, i, actions, street);
      RefreshOwn(i, ClampActions(actions));
    }

    method TouchMissing(key: Arenas.Key, actions: int, street: int)
      requires Ready() && Find(nodes, key).None?
      modifies Repr
      ensures Valid() && fresh(Repr - old(Repr)) && base == old(base) && BaseView() == old(BaseView())
      ensures View() == Touch(old(View()), old(BaseView()), key, actions, street)
    {
      Create(key, ClampActions(actions), street);
    }

    method FindReady(key: Arenas.Key) returns (i: Option<nat>)
      requires Ready()
      ensures Ready() && View() == old(View()) && BaseView() == old(BaseView()) && i == Find(nodes, key)
    {
      i := FindOwn(key);
    }

    method TouchAt(key: Arenas.Key, found: Option<nat>, actions: int, street: int)
      requires Ready() && found == Find(nodes, key)
      modifies Repr
      ensures Valid() && fresh(Repr - old(Repr)) && base == old(base) && BaseView() == old(BaseView())
      ensures View() == Touch(old(View()), old(BaseView()), key, actions, street)
    {
      hide Touch, Valid, Kept, Ready;
      if found.Some? {
        TouchFound(key, found.value, actions, street);
      } else {
        TouchMissing(key, actions, street);
      }
    }

    /** Finds a key's node with room for its actions, or creates it; the base is only read. */
    method GetForWrite(key: Arenas.Key, actions: int, street: int) returns (i: nat)
      requires Ready()
      modifies Repr
      ensures Valid() && fresh(Repr - old(Repr)) && base == old(base) && BaseView() == old(BaseView())
      ensures View() == Touch(old(View()), old(BaseView()), key, actions, street)
      ensures i == if Find(old(nodes), key).Some? then Find(old(nodes), key).value else |old(nodes)|
    {
      hide Touch, Valid, Kept, Ready;
      var found := FindReady(key);
      i := if found.Some? then found.value else |nodes|;
      TouchAt(key, found, actions, street);
    }

    method ClearOwn()
      requires Kept()
      modifies this`nodes, this`regrets, this`strategies, this`scale, index.Repr
      ensures Kept() && View() == Reset(old(View())) && Repr == old(Repr)
    {
      index.ClearSparse();
      nodes, regrets, strategies, scale := [], [], [], 1.0;
      EmptyIsKept(omitPostflop);
    }

    /** Empties the store through the used slots of its index and lets go of the base. */
    method ResetSparse()
      requires Valid()
      modifies this, index.Repr
      ensures Valid() && base == null && View() == Reset(old(View())) && Repr == old(Repr)
    {
      ClearOwn();
      base := null;
    }

    /** How a worker starts a training task: emptied, and attached to the base. */
    method AttachTo(b: Blueprint)
      requires Valid() && b.Kept() && b.base == null && Repr !! b.Repr
      modifies this, index.Repr
      ensures Valid() && base == b && Repr == old(Repr)
      ensures View() == Reset(old(View())).(omitPostflop := b.omitPostflop) && BaseView() == Some(old(b.View()))
    {
      ResetSparse();
      base := b;
      omitPostflop := b.omitPostflop;
    }
  }
}
