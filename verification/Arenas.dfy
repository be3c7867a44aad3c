/**
 The infoset store's memory as a value: a node table over two bump arenas. Each
 node owns a region of the regret arena, perhaps one of the strategy arena, and a
 stamp saying at which discount scale it was last brought up to date. A store
 stands for a map from keys to payloads; each change of memory is stated as a
 change of that map.
 */
module Arenas {
  import opened Options

  type Key = nat

  const MAX_ACTIONS := 16
  const NO_STREET := 255

  datatype Node = Node(
    key: Key, regretAt: nat, strategyAt: Option<nat>, actions: nat, street: int, base: Option<nat>, isNew: bool,
    stamp: real)

  datatype Store = Store(
    nodes: seq<Node>, regrets: seq<int>, strategies: seq<real>, omitPostflop: bool, scale: real)

  /** What a node holds for its infoset. */
  datatype Payload = Payload(street: int, regrets: seq<int>, strategy: Option<seq<real>>, stamp: real)

  // ----- what a store stands for -----

  predicate RegretsFit(s: Store, n: Node) {
    1 <= n.actions <= MAX_ACTIONS && n.regretAt + n.actions <= |s.regrets|
  }

  predicate StrategyFits(s: Store, n: Node) {
    n.strategyAt.Some? ==> n.strategyAt.value + n.actions <= |s.strategies|
  }

  predicate Fits(s: Store, n: Node) {
    RegretsFit(s, n) && StrategyFits(s, n)
  }

  predicate RegionsApart(a: nat, n: nat, b: nat, m: nat) {
    a + n <= b || b + m <= a
  }

  /** Two nodes have different keys and share no arena cell. */
  predicate Apart(n: Node, m: Node) {
    && n.key != m.key
    && RegionsApart(n.regretAt, n.actions, m.regretAt, m.actions)
    && (n.strategyAt.Some? && m.strategyAt.Some? ==>
          RegionsApart(n.strategyAt.value, n.actions, m.strategyAt.value, m.actions))
  }

  function LiveRegrets(nodes: seq<Node>): nat {
    if nodes == [] then 0 else LiveRegrets(nodes[..|nodes| - 1]) + nodes[|nodes| - 1].actions
  }

  function LiveStrategies(nodes: seq<Node>): nat {
    if nodes == [] then 0
    else
      var n := nodes[|nodes| - 1];
      LiveStrategies(nodes[..|nodes| - 1]) + if n.strategyAt.Some? then n.actions else 0
  }

  ghost predicate AllFit(s: Store) {
    forall i :: 0 <= i < |s.nodes| ==> Fits(s, s.nodes[i])
  }

  ghost predicate Ok(s: Store) {
    && AllFit(s)
    && (forall i, j {:trigger Apart(s.nodes[i], s.nodes[j])} ::
          0 <= i < |s.nodes| && 0 <= j < |s.nodes| && i != j ==> Apart(s.nodes[i], s.nodes[j]))
    && LiveRegrets(s.nodes) <= |s.regrets| && LiveStrategies(s.nodes) <= |s.strategies|
  }

  function PayloadOf(s: Store, n: Node): (p: Payload)
    requires Fits(s, n)
    ensures |p.regrets| == n.actions
    ensures p.strategy.Some? ==> |p.strategy.value| == n.actions
  {
    Payload(n.street, s.regrets[n.regretAt..n.regretAt + n.actions],
            if n.strategyAt.None? then None
            else Some(s.strategies[n.strategyAt.value..n.strategyAt.value + n.actions]),
            n.stamp)
  }

  /** Index of the node with a key. */
  function Find(nodes: seq<Node>, key: Key): (i: Option<nat>)
    ensures i.Some? ==> i.value < |nodes| && nodes[i.value].key == key
    ensures i.None? ==> forall j :: 0 <= j < |nodes| ==> nodes[j].key != key
  {
    if nodes == [] then None
    else if nodes[|nodes| - 1].key == key then Some(|nodes| - 1)
    else Find(nodes[..|nodes| - 1], key)
  }

  lemma FindIs(s: Store, i: nat)
    requires Ok(s) && i < |s.nodes|
    ensures Find(s.nodes, s.nodes[i].key) == Some(i)
  {
    forall j | 0 <= j < |s.nodes| && j != i
      ensures s.nodes[j].key != s.nodes[i].key
    {
      assert Apart(s.nodes[i], s.nodes[j]);
    }
  }

  lemma {:induction false} FindSameKeys(nodes: seq<Node>, other: seq<Node>, key: Key)
    requires |nodes| == |other| && forall i :: 0 <= i < |nodes| ==> nodes[i].key == other[i].key
    ensures Find(nodes, key) == Find(other, key)
  {
    if nodes != [] && nodes[|nodes| - 1].key != key {
      FindSameKeys(nodes[..|nodes| - 1], other[..|other| - 1], key);
    }
  }

  predicate WholePayload(p: Payload) {
    1 <= |p.regrets| <= MAX_ACTIONS && (p.strategy.Some? ==> |p.strategy.value| == |p.regrets|)
  }

  ghost predicate Whole(m: map<Key, Payload>) {
    forall k :: k in m ==> WholePayload(m[k])
  }

  /** The map a store stands for. */
  ghost function Model(s: Store): (m: map<Key, Payload>)
    requires Ok(s)
    ensures forall k :: k in m <==> Find(s.nodes, k).Some?
    ensures forall k :: k in m ==> m[k] == PayloadOf(s, s.nodes[Find(s.nodes, k).value])
    ensures Whole(m)
  {
    var keys := set i | 0 <= i < |s.nodes| :: s.nodes[i].key;
    assert forall k :: Find(s.nodes, k).Some? ==> s.nodes[Find(s.nodes, k).value].key in keys;
    map k | k in keys && Find(s.nodes, k).Some? :: PayloadOf(s, s.nodes[Find(s.nodes, k).value])
  }

  lemma SameEntries<K, V>(m: map<K, V>, n: map<K, V>)
    requires forall k :: k in m <==> k in n
    requires forall k :: k in m && k in n ==> m[k] == n[k]
    ensures m == n
  {
  }

  // ----- growing payloads -----

  function Zeros(n: nat): (z: seq<int>)
    ensures |z| == n && forall i :: 0 <= i < n ==> z[i] == 0
  {
    seq(n, _ => 0)
  }

  function RealZeros(n: nat): (z: seq<real>)
    ensures |z| == n && forall i :: 0 <= i < n ==> z[i] == 0.0
  {
    seq(n, _ => 0.0)
  }

  function Max(a: nat, b: nat): nat {
    if a > b then a else b
  }

  function ClampActions(n: int): (r: nat)
    ensures 1 <= r <= MAX_ACTIONS
  {
    if n < 1 then 1 else if n > MAX_ACTIONS then MAX_ACTIONS else n
  }

  function ShouldHaveStrategy(omitPostflop: bool, street: int): bool {
    !(0 < street <= 3 && omitPostflop)
  }

  /** A payload with room for n actions, new ones at zero. */
  function Extended(p: Payload, n: nat): (q: Payload)
    requires p.strategy.Some? ==> |p.strategy.value| == |p.regrets|
    ensures |q.regrets| == Max(|p.regrets|, n)
  {
    if n <= |p.regrets| then p
    else
      p.(regrets := p.regrets + Zeros(n - |p.regrets|),
         strategy := if p.strategy.None? then None else Some(p.strategy.value + RealZeros(n - |p.regrets|)))
  }

  function Blank(actions: nat, street: int, omitPostflop: bool, stamp: real): Payload {
    Payload(if street >= 0 then street else NO_STREET, Zeros(actions),
            if ShouldHaveStrategy(omitPostflop, street) then Some(RealZeros(actions)) else None, stamp)
  }

  // ----- changes of memory -----

  /** Puts a payload at the end of the arenas under a new node. */
  function Append(s: Store, key: Key, p: Payload, base: Option<nat>): Store {
    s.(nodes := s.nodes + [Node(key, |s.regrets|, if p.strategy.Some? then Some(|s.strategies|) else None,
                                |p.regrets|, p.street, base, false, p.stamp)],
       regrets := s.regrets + p.regrets,
       strategies := if p.strategy.Some? then s.strategies + p.strategy.value else s.strategies)
  }

  /** Gives a node a new payload at the end of the arenas; its old regions go dead. */
  function Moved(s: Store, i: nat, p: Payload): Store
    requires i < |s.nodes|
  {
    s.(nodes := s.nodes[i := s.nodes[i].(regretAt := |s.regrets|, actions := |p.regrets|,
                                         strategyAt := if p.strategy.Some? then Some(|s.strategies|) else None)],
       regrets := s.regrets + p.regrets,
       strategies := if p.strategy.Some? then s.strategies + p.strategy.value else s.strategies)
  }

  /** Moves a node to the end of the arenas, with room for n actions. */
  function Grow(s: Store, i: nat, n: nat): Store
    requires i < |s.nodes| && Fits(s, s.nodes[i])
  {
    if n <= s.nodes[i].actions then s else Moved(s, i, Extended(PayloadOf(s, s.nodes[i]), n))
  }

  function SetRegret(s: Store, i: nat, a: nat, v: int): Store
    requires i < |s.nodes| && Fits(s, s.nodes[i]) && a < s.nodes[i].actions
  {
    s.(regrets := s.regrets[s.nodes[i].regretAt + a := v])
  }

  function SetStrategy(s: Store, i: nat, a: nat, x: real): Store
    requires i < |s.nodes| && Fits(s, s.nodes[i]) && a < s.nodes[i].actions && s.nodes[i].strategyAt.Some?
  {
    s.(strategies := s.strategies[s.nodes[i].strategyAt.value + a := x])
  }

  /** The nodes have one key and one place; hints, stamps and base marks may differ. */
  predicate SamePlace(n: Node, m: Node) {
    n.key == m.key && n.regretAt == m.regretAt && n.strategyAt == m.strategyAt && n.actions == m.actions
  }

  predicate Shaped(s: Store, r: Store) {
    && |r.nodes| == |s.nodes| && |r.regrets| == |s.regrets| && |r.strategies| == |s.strategies|
    && r.omitPostflop == s.omitPostflop && r.scale == s.scale
    && forall i :: 0 <= i < |s.nodes| ==> SamePlace(s.nodes[i], r.nodes[i])
  }

  lemma ShapedFits(s: Store, r: Store)
    requires AllFit(s) && Shaped(s, r)
    ensures AllFit(r)
  {
    assert forall i :: 0 <= i < |s.nodes| ==> Fits(s, s.nodes[i]) ==> Fits(r, r.nodes[i]);
  }

  lemma ShapedFind(s: Store, r: Store, key: Key)
    requires Shaped(s, r)
    ensures Find(r.nodes, key) == Find(s.nodes, key)
  {
    FindSameKeys(r.nodes, s.nodes, key);
  }

  lemma {:induction false} ShapedLive(nodes: seq<Node>, other: seq<Node>)
    requires |nodes| == |other| && forall i :: 0 <= i < |nodes| ==> SamePlace(nodes[i], other[i])
    ensures LiveRegrets(other) == LiveRegrets(nodes) && LiveStrategies(other) == LiveStrategies(nodes)
  {
    if nodes != [] {
      ShapedLive(nodes[..|nodes| - 1], other[..|other| - 1]);
    }
  }

  lemma ShapedOk(s: Store, r: Store)
    requires Ok(s) && Shaped(s, r)
    ensures Ok(r)
  {
    ShapedFits(s, r);
    ShapedLive(s.nodes, r.nodes);
    forall i, j | 0 <= i < |s.nodes| && 0 <= j < |s.nodes| && i != j
      ensures Apart(r.nodes[i], r.nodes[j])
    {
      assert Apart(s.nodes[i], s.nodes[j]);
    }
  }

  // ----- one node's payload changes -----

  /** From s to r only node g's payload changed, to q. */
  ghost predicate Replaced(s: Store, r: Store, g: nat, q: Payload) {
    && AllFit(s) && AllFit(r) && Shaped(s, r) && g < |s.nodes| && PayloadOf(r, r.nodes[g]) == q
    && forall j {:trigger PayloadOf(r, r.nodes[j])} ::
         0 <= j < |s.nodes| && j != g ==> PayloadOf(r, r.nodes[j]) == PayloadOf(s, s.nodes[j])
  }

  lemma SameReplaced(s: Store, g: nat)
    requires AllFit(s) && g < |s.nodes|
    ensures Replaced(s, s, g, PayloadOf(s, s.nodes[g]))
  {
  }

  /** A node's entry may change in its hint, its stamp and its base mark. */
  lemma EntryReplaces(s: Store, g: nat, n: Node)
    requires AllFit(s) && g < |s.nodes| && SamePlace(s.nodes[g], n)
    ensures Replaced(s, s.(nodes := s.nodes[g := n]), g,
                     PayloadOf(s, s.nodes[g]).(street := n.street, stamp := n.stamp))
  {
    ShapedFits(s, s.(nodes := s.nodes[g := n]));
  }

  lemma ReplacedTwice(s: Store, m: Store, r: Store, g: nat, p: Payload, q: Payload)
    requires Replaced(s, m, g, p) && Replaced(m, r, g, q)
    ensures Replaced(s, r, g, q)
  {
  }

  /** Replacing a payload is an update of the map. */
  lemma {:induction false} ReplacedModel(s: Store, r: Store, g: nat, q: Payload)
    requires Ok(s) && Replaced(s, r, g, q)
    ensures Ok(r) && s.nodes[g].key in Model(s) && Model(s)[s.nodes[g].key] == PayloadOf(s, s.nodes[g])
    ensures Model(r) == Model(s)[s.nodes[g].key := q]
  {
    ShapedOk(s, r);
    FindIs(s, g);
    forall k
      ensures Find(r.nodes, k) == Find(s.nodes, k)
    {
      ShapedFind(s, r, k);
    }
    SameEntries(Model(r), Model(s)[s.nodes[g].key := q]);
  }

  lemma WriteRegretAt(s: Store, i: nat, a: nat, v: int, j: nat)
    requires Ok(s) && i < |s.nodes| && j < |s.nodes| && a < s.nodes[i].actions
    ensures var r := SetRegret(s, i, a, v); var p := PayloadOf(s, s.nodes[j]);
            && Fits(r, s.nodes[j])
            && PayloadOf(r, s.nodes[j]) == if j == i then p.(regrets := p.regrets[a := v]) else p
  {
    var r, n := SetRegret(s, i, a, v), s.nodes[j];
    assert j != i ==> Apart(s.nodes[i], s.nodes[j]);
    var slice := s.regrets[n.regretAt..n.regretAt + n.actions];
    assert r.regrets[n.regretAt..n.regretAt + n.actions] == if j == i then slice[a := v] else slice;
  }

  lemma WriteStrategyAt(s: Store, i: nat, a: nat, x: real, j: nat)
    requires Ok(s) && i < |s.nodes| && j < |s.nodes| && a < s.nodes[i].actions && s.nodes[i].strategyAt.Some?
    ensures var r := SetStrategy(s, i, a, x); var p := PayloadOf(s, s.nodes[j]);
            && Fits(r, s.nodes[j])
            && PayloadOf(r, s.nodes[j]) == if j == i then p.(strategy := Some(p.strategy.value[a := x])) else p
  {
    var r, n := SetStrategy(s, i, a, x), s.nodes[j];
    assert j != i ==> Apart(s.nodes[i], s.nodes[j]);
    if n.strategyAt.Some? {
      var b := n.strategyAt.value;
      var slice := s.strategies[b..b + n.actions];
      assert r.strategies[b..b + n.actions] == if j == i then slice[a := x] else slice;
    }
  }

  lemma RegretReplaces(s: Store, g: nat, a: nat, v: int)
    requires Ok(s) && g < |s.nodes| && a < s.nodes[g].actions
    ensures var p := PayloadOf(s, s.nodes[g]);
            Replaced(s, SetRegret(s, g, a, v), g, p.(regrets := p.regrets[a := v]))
  {
    forall j | 0 <= j < |s.nodes|
      ensures var r := SetRegret(s, g, a, v); var p := PayloadOf(s, s.nodes[j]);
              Fits(r, s.nodes[j]) && PayloadOf(r, s.nodes[j]) == if j == g then p.(regrets := p.regrets[a := v]) else p
    {
      WriteRegretAt(s, g, a, v, j);
    }
  }

  lemma StrategyReplaces(s: Store, g: nat, a: nat, x: real)
    requires Ok(s) && g < |s.nodes| && a < s.nodes[g].actions && s.nodes[g].strategyAt.Some?
    ensures var p := PayloadOf(s, s.nodes[g]);
            Replaced(s, SetStrategy(s, g, a, x), g, p.(strategy := Some(p.strategy.value[a := x])))
  {
    forall j | 0 <= j < |s.nodes|
      ensures var r := SetStrategy(s, g, a, x); var p := PayloadOf(s, s.nodes[j]);
              && Fits(r, s.nodes[j])
              && PayloadOf(r, s.nodes[j]) == if j == g then p.(strategy := Some(p.strategy.value[a := x])) else p
    {
      WriteStrategyAt(s, g, a, x, j);
    }
  }

  /** Writing one regret changes that entry of that key and nothing else. */
  lemma SetRegretModel(s: Store, i: nat, a: nat, v: int)
    requires Ok(s) && i < |s.nodes| && a < s.nodes[i].actions
    ensures var key := s.nodes[i].key; var r := SetRegret(s, i, a, v);
            && Ok(r) && key in Model(s) && a < |Model(s)[key].regrets|
            && Model(r) == Model(s)[key := Model(s)[key].(regrets := Model(s)[key].regrets[a := v])]
  {
    RegretReplaces(s, i, a, v);
    var p := PayloadOf(s, s.nodes[i]);
    ReplacedModel(s, SetRegret(s, i, a, v), i, p.(regrets := p.regrets[a := v]));
  }

  lemma SetStrategyModel(s: Store, i: nat, a: nat, x: real)
    requires Ok(s) && i < |s.nodes| && a < s.nodes[i].actions && s.nodes[i].strategyAt.Some?
    ensures var key := s.nodes[i].key; var r := SetStrategy(s, i, a, x);
            && Ok(r) && key in Model(s) && Model(s)[key].strategy.Some? && a < |Model(s)[key].strategy.value|
            && Model(r) == Model(s)[key := Model(s)[key].(strategy := Some(Model(s)[key].strategy.value[a := x]))]
  {
    StrategyReplaces(s, i, a, x);
    var p := PayloadOf(s, s.nodes[i]);
    ReplacedModel(s, SetStrategy(s, i, a, x), i, p.(strategy := Some(p.strategy.value[a := x])));
  }

  // ----- rewriting every action of a node -----

  /** New regret and new sum of an action from the old ones. */
  type RegretMap = (nat, int) -> int
  type SumMap = (nat, real) -> real

  function MapCell(s: Store, g: nat, f: RegretMap, h: SumMap, a: nat): (r: Store)
    requires g < |s.nodes| && Fits(s, s.nodes[g]) && a < s.nodes[g].actions
    ensures Shaped(s, r) && r.nodes == s.nodes
  {
    var r := SetRegret(s, g, a, f(a, s.regrets[s.nodes[g].regretAt + a]));
    if s.nodes[g].strategyAt.Some?
    then SetStrategy(r, g, a, h(a, s.strategies[s.nodes[g].strategyAt.value + a])) else r
  }

  /** Rewrites the first k actions of a node, one after the other. */
  function MapCells(s: Store, g: nat, f: RegretMap, h: SumMap, k: nat): (r: Store)
    requires g < |s.nodes| && Fits(s, s.nodes[g]) && k <= s.nodes[g].actions
    ensures Shaped(s, r) && r.nodes == s.nodes
  {
    if k == 0 then s else MapCell(MapCells(s, g, f, h, k - 1), g, f, h, k - 1)
  }

  function MapRegrets(x: seq<int>, f: RegretMap, k: nat): (y: seq<int>)
    ensures |y| == |x| && forall a :: 0 <= a < |x| ==> y[a] == if a < k then f(a, x[a]) else x[a]
  {
    seq(|x|, a requires 0 <= a < |x| => if a < k then f(a, x[a]) else x[a])
  }

  function MapSums(x: seq<real>, h: SumMap, k: nat): (y: seq<real>)
    ensures |y| == |x| && forall a :: 0 <= a < |x| ==> y[a] == if a < k then h(a, x[a]) else x[a]
  {
    seq(|x|, a requires 0 <= a < |x| => if a < k then h(a, x[a]) else x[a])
  }

  function MapPayload(p: Payload, f: RegretMap, h: SumMap, k: nat): (q: Payload)
    ensures |q.regrets| == |p.regrets| && q.strategy.Some? == p.strategy.Some?
    ensures WholePayload(p) ==> WholePayload(q)
  {
    p.(regrets := MapRegrets(p.regrets, f, k),
       strategy := if p.strategy.Some? then Some(MapSums(p.strategy.value, h, k)) else None)
  }

  lemma SumAfterRegret(s: Store, m: Store, g: nat, p: Payload, a: nat, x: real)
    requires Ok(s) && Replaced(s, m, g, p) && a < s.nodes[g].actions && s.nodes[g].strategyAt.Some?
    ensures Fits(m, m.nodes[g]) && p.strategy.Some? && |p.strategy.value| == s.nodes[g].actions
    ensures Replaced(s, SetStrategy(m, g, a, x), g, p.(strategy := Some(p.strategy.value[a := x])))
  {
    ShapedOk(s, m);
    StrategyReplaces(m, g, a, x);
    ReplacedTwice(s, m, SetStrategy(m, g, a, x), g, p, p.(strategy := Some(p.strategy.value[a := x])));
  }

  lemma MapCellReplaces(s: Store, g: nat, f: RegretMap, h: SumMap, a: nat)
    requires Ok(s) && g < |s.nodes| && a < s.nodes[g].actions
    ensures var p := PayloadOf(s, s.nodes[g]);
            Replaced(s, MapCell(s, g, f, h, a), g,
                     p.(regrets := p.regrets[a := f(a, p.regrets[a])],
                        strategy := if p.strategy.None? then None
                                    else Some(p.strategy.value[a := h(a, p.strategy.value[a])])))
  {
    hide Replaced, Apart;
    var p := PayloadOf(s, s.nodes[g]);
    var v := f(a, p.regrets[a]);
    RegretReplaces(s, g, a, v);
    if p.strategy.Some? {
      SumAfterRegret(s, SetRegret(s, g, a, v), g, p.(regrets := p.regrets[a := v]), a, h(a, p.strategy.value[a]));
    }
  }

  lemma MapNext(p: Payload, f: RegretMap, h: SumMap, k: nat)
    requires WholePayload(p) && k < |p.regrets|
    ensures var q := MapPayload(p, f, h, k);
            MapPayload(p, f, h, k + 1) ==
            q.(regrets := q.regrets[k := f(k, q.regrets[k])],
               strategy := if q.strategy.None? then None
                           else Some(q.strategy.value[k := h(k, q.strategy.value[k])]))
  {
    var q := MapPayload(p, f, h, k);
    assert MapRegrets(p.regrets, f, k + 1) == q.regrets[k := f(k, q.regrets[k])];
    if p.strategy.Some? {
      assert MapSums(p.strategy.value, h, k + 1) == q.strategy.value[k := h(k, q.strategy.value[k])];
    }
  }

  lemma MapCellsNext(s: Store, m: Store, g: nat, p: Payload, f: RegretMap, h: SumMap, k: nat)
    requires Ok(s) && Replaced(s, m, g, MapPayload(p, f, h, k)) && WholePayload(p)
    requires k < s.nodes[g].actions == |p.regrets|
    ensures Fits(m, m.nodes[g]) && k < m.nodes[g].actions
    ensures Replaced(s, MapCell(m, g, f, h, k), g, MapPayload(p, f, h, k + 1))
  {
    ShapedOk(s, m);
    MapCellReplaces(m, g, f, h, k);
    MapNext(p, f, h, k);
    ReplacedTwice(s, m, MapCell(m, g, f, h, k), g, MapPayload(p, f, h, k), MapPayload(p, f, h, k + 1));
  }

  lemma MapNone(p: Payload, f: RegretMap, h: SumMap)
    ensures MapPayload(p, f, h, 0) == p
  {
    assert MapRegrets(p.regrets, f, 0) == p.regrets;
    assert p.strategy.Some? ==> MapSums(p.strategy.value, h, 0) == p.strategy.value;
  }

  /** The loop over a node's actions rewrites its payload and no other. */
  lemma MapCellsReplaces(s: Store, g: nat, f: RegretMap, h: SumMap, k: nat)
    requires Ok(s) && g < |s.nodes| && k <= s.nodes[g].actions
    ensures Replaced(s, MapCells(s, g, f, h, k), g, MapPayload(PayloadOf(s, s.nodes[g]), f, h, k))
  {
    hide Replaced, Apart;
    var p := PayloadOf(s, s.nodes[g]);
    SameReplaced(s, g);
    MapNone(p, f, h);
    for i := 0 to k
      invariant Replaced(s, MapCells(s, g, f, h, i), g, MapPayload(p, f, h, i))
    {
      MapCellsNext(s, MapCells(s, g, f, h, i), g, p, f, h, i);
    }
  }

  // ----- appending and growing act on the map -----

  /** A node's payload is where it was while its arenas only grow. */
  lemma SamePayload(s: Store, r: Store, n: Node)
    requires Fits(s, n)
    requires s.regrets <= r.regrets && s.strategies <= r.strategies
    ensures Fits(r, n) && PayloadOf(r, n) == PayloadOf(s, n)
  {
    assert r.regrets[n.regretAt..n.regretAt + n.actions] == s.regrets[n.regretAt..n.regretAt + n.actions];
    if n.strategyAt.Some? {
      var b := n.strategyAt.value;
      assert r.strategies[b..b + n.actions] == s.strategies[b..b + n.actions];
    }
  }

  lemma AppendOk(s: Store, key: Key, p: Payload, base: Option<nat>)
    requires Ok(s) && WholePayload(p) && Find(s.nodes, key).None?
    ensures Ok(Append(s, key, p, base))
  {
    var r := Append(s, key, p, base);
    var k := |s.nodes|;
    assert r.nodes[..k] == s.nodes;
    forall i | 0 <= i < k
      ensures Fits(r, r.nodes[i]) && Apart(r.nodes[i], r.nodes[k]) && Apart(r.nodes[k], r.nodes[i])
    {
      assert Fits(s, s.nodes[i]);
    }
  }

  lemma AppendPayload(s: Store, key: Key, p: Payload, base: Option<nat>)
    requires WholePayload(p)
    ensures var r := Append(s, key, p, base);
            Fits(r, r.nodes[|s.nodes|]) && PayloadOf(r, r.nodes[|s.nodes|]) == p
  {
    var r := Append(s, key, p, base);
    assert r.regrets[|s.regrets|..|s.regrets| + |p.regrets|] == p.regrets;
    if p.strategy.Some? {
      assert r.strategies[|s.strategies|..|s.strategies| + |p.regrets|] == p.strategy.value;
    }
  }

  lemma AppendModelAt(s: Store, key: Key, p: Payload, base: Option<nat>, k: Key)
    requires Ok(s) && WholePayload(p) && Find(s.nodes, key).None? && Ok(Append(s, key, p, base))
    ensures var m := Model(Append(s, key, p, base));
            && (k in m <==> k == key || k in Model(s))
            && (k in m ==> m[k] == if k == key then p else Model(s)[k])
  {
    var r := Append(s, key, p, base);
    assert r.nodes[..|s.nodes|] == s.nodes;
    if k == key {
      AppendPayload(s, key, p, base);
    } else if Find(s.nodes, k).Some? {
      SamePayload(s, r, s.nodes[Find(s.nodes, k).value]);
    }
  }

  lemma {:induction false} AppendModel(s: Store, key: Key, p: Payload, base: Option<nat>)
    requires Ok(s) && WholePayload(p) && Find(s.nodes, key).None?
    ensures Ok(Append(s, key, p, base)) && Model(Append(s, key, p, base)) == Model(s)[key := p]
  {
    AppendOk(s, key, p, base);
    forall k
      ensures k in Model(Append(s, key, p, base)) <==> k in Model(s)[key := p]
      ensures k in Model(Append(s, key, p, base)) ==> Model(Append(s, key, p, base))[k] == Model(s)[key := p][k]
    {
      AppendModelAt(s, key, p, base, k);
    }
  }

  lemma {:induction false} LiveUpdate(nodes: seq<Node>, i: nat, n: Node)
    requires i < |nodes|
    ensures LiveRegrets(nodes[i := n]) == LiveRegrets(nodes) - nodes[i].actions + n.actions
    ensures LiveStrategies(nodes[i := n]) == LiveStrategies(nodes)
            - (if nodes[i].strategyAt.Some? then nodes[i].actions else 0)
            + (if n.strategyAt.Some? then n.actions else 0)
  {
    var k := |nodes| - 1;
    if i == k {
      assert nodes[i := n][..k] == nodes[..k];
    } else {
      assert nodes[i := n][..k] == nodes[..k][i := n];
      LiveUpdate(nodes[..k], i, n);
    }
  }

  lemma GrowOk(s: Store, i: nat, n: nat)
    requires Ok(s) && i < |s.nodes| && 1 <= n <= MAX_ACTIONS
    ensures Ok(Grow(s, i, n))
  {
    var r := Grow(s, i, n);
    if n > s.nodes[i].actions {
      LiveUpdate(s.nodes, i, r.nodes[i]);
      forall j | 0 <= j < |s.nodes| && j != i
        ensures Fits(r, r.nodes[j]) && Apart(r.nodes[i], r.nodes[j]) && Apart(r.nodes[j], r.nodes[i])
      {
        assert Fits(s, s.nodes[j]) && Apart(s.nodes[i], s.nodes[j]);
      }
    }
  }

  lemma GrowPayload(s: Store, i: nat, n: nat)
    requires i < |s.nodes| && Fits(s, s.nodes[i]) && 1 <= n <= MAX_ACTIONS
    ensures var r := Grow(s, i, n);
            Fits(r, r.nodes[i]) && PayloadOf(r, r.nodes[i]) == Extended(PayloadOf(s, s.nodes[i]), n)
  {
    var r := Grow(s, i, n);
    var p := Extended(PayloadOf(s, s.nodes[i]), n);
    if n > s.nodes[i].actions {
      assert r.regrets[|s.regrets|..|s.regrets| + |p.regrets|] == p.regrets;
      if p.strategy.Some? {
        assert r.strategies[|s.strategies|..|s.strategies| + |p.regrets|] == p.strategy.value;
      }
    }
  }

  lemma {:induction false} GrowModelAt(s: Store, i: nat, n: nat, k: Key)
    requires Ok(s) && i < |s.nodes| && s.nodes[i].actions < n <= MAX_ACTIONS && Ok(Grow(s, i, n))
    ensures var r := Grow(s, i, n);
            && (k in Model(r) <==> k in Model(s))
            && (k in Model(s) ==>
                  Model(r)[k] == if k == s.nodes[i].key then Extended(Model(s)[k], n) else Model(s)[k])
  {
    var r := Grow(s, i, n);
    FindIs(s, i);
    FindSameKeys(s.nodes, r.nodes, k);
    if k == s.nodes[i].key {
      GrowPayload(s, i, n);
    } else if Find(s.nodes, k).Some? {
      SamePayload(s, r, s.nodes[Find(s.nodes, k).value]);
    }
  }

  /** Growing a node adds zeros at the end of its key's payload. */
  lemma {:induction false} GrowModel(s: Store, i: nat, n: nat)
    requires Ok(s) && i < |s.nodes| && 1 <= n <= MAX_ACTIONS
    ensures var key := s.nodes[i].key;
            Ok(Grow(s, i, n)) && key in Model(s) && Model(Grow(s, i, n)) == Model(s)[key := Extended(Model(s)[key], n)]
  {
    GrowOk(s, i, n);
    FindIs(s, i);
    var key := s.nodes[i].key;
    var m := Model(s)[key := Extended(Model(s)[key], n)];
    if n <= s.nodes[i].actions {
      assert m == Model(s);
    } else {
      forall k
        ensures k in Model(Grow(s, i, n)) <==> k in m
        ensures k in m ==> Model(Grow(s, i, n))[k] == m[k]
      {
        GrowModelAt(s, i, n, k);
      }
    }
  }

  // ----- pending discounts -----

  /** To the nearest integer, halves away from zero. */
  function Round(x: real): int {
    if x >= 0.0 then (x + 0.5).Floor else -((0.5 - x).Floor)
  }

  /** A scale that is not positive counts as 1. */
  function Mark(scale: real): (m: real)
    ensures 0.0 < m
  {
    if scale > 0.0 then scale else 1.0
  }

  /** What a pending discount multiplies by: the store's scale over the node's stamp. */
  function Ratio(scale: real, stamp: real): real {
    Mark(scale) / Mark(stamp)
  }

  lemma NothingPending(scale: real, stamp: real)
    requires Mark(stamp) == Mark(scale)
    ensures Ratio(scale, stamp) == 1.0
  {
    var m := Mark(scale);
    assert m / m == 1.0;
  }

  function ScaleRegret(ratio: real): RegretMap {
    (a: nat, r: int) => Round(r as real * ratio)
  }

  function ScaleSum(ratio: real): SumMap {
    (a: nat, x: real) => x * ratio
  }

  function Scaled(p: Payload, ratio: real): (q: Payload)
    ensures |q.regrets| == |p.regrets| && q.strategy.Some? == p.strategy.Some?
    ensures WholePayload(p) ==> WholePayload(q)
  {
    MapPayload(p, ScaleRegret(ratio), ScaleSum(ratio), |p.regrets|)
  }

  /** The payload once its pending discount is applied. */
  function Current(p: Payload, scale: real): (q: Payload)
    ensures |q.regrets| == |p.regrets| && q.strategy.Some? == p.strategy.Some? && q.street == p.street
    ensures WholePayload(p) ==> WholePayload(q)
    ensures Mark(q.stamp) == Mark(scale)
  {
    if Mark(p.stamp) == Mark(scale) then p else Scaled(p, Ratio(scale, p.stamp)).(stamp := Mark(scale))
  }

  /** A scale or a stamp that was never set reads as 1. */
  lemma UnsetReadsAsOne(p: Payload, scale: real)
    ensures scale <= 0.0 ==> Current(p, scale) == Current(p, 1.0)
    ensures p.stamp <= 0.0 ==>
              && Current(p, scale).regrets == Current(p.(stamp := 1.0), scale).regrets
              && Current(p, scale).strategy == Current(p.(stamp := 1.0), scale).strategy
  {
  }

  function StampNode(s: Store, i: nat): (r: Store)
    requires i < |s.nodes|
    ensures Shaped(s, r)
  {
    s.(nodes := s.nodes[i := s.nodes[i].(stamp := Mark(s.scale))])
  }

  /** Brings a node up to date with the store's scale. */
  function SyncNode(s: Store, i: nat): (r: Store)
    requires i < |s.nodes| && Fits(s, s.nodes[i])
    ensures Shaped(s, r)
  {
    var n := s.nodes[i];
    if Mark(n.stamp) == Mark(s.scale) then s
    else
      var ratio := Ratio(s.scale, n.stamp);
      StampNode(MapCells(s, i, ScaleRegret(ratio), ScaleSum(ratio), n.actions), i)
  }

  lemma SyncReplaces(s: Store, i: nat)
    requires Ok(s) && i < |s.nodes|
    ensures Replaced(s, SyncNode(s, i), i, Current(PayloadOf(s, s.nodes[i]), s.scale))
  {
    var n, p := s.nodes[i], PayloadOf(s, s.nodes[i]);
    if Mark(n.stamp) == Mark(s.scale) {
      SameReplaced(s, i);
    } else {
      var ratio := Ratio(s.scale, n.stamp);
      MapCellsReplaces(s, i, ScaleRegret(ratio), ScaleSum(ratio), n.actions);
      var m := MapCells(s, i, ScaleRegret(ratio), ScaleSum(ratio), n.actions);
      EntryReplaces(m, i, n.(stamp := Mark(s.scale)));
      ReplacedTwice(s, m, SyncNode(s, i), i, Scaled(p, ratio), Current(p, s.scale));
    }
  }

  /** Syncing a node applies the pending discount to its key's payload and no other. */
  lemma SyncModel(s: Store, i: nat)
    requires Ok(s) && i < |s.nodes|
    ensures var key := s.nodes[i].key;
            && Ok(SyncNode(s, i)) && key in Model(s)
            && Model(SyncNode(s, i)) == Model(s)[key := Current(Model(s)[key], s.scale)]
  {
    SyncReplaces(s, i);
    ReplacedModel(s, SyncNode(s, i), i, Current(PayloadOf(s, s.nodes[i]), s.scale));
  }

  /** Brings the first k nodes up to date. */
  ghost function SyncAll(s: Store, k: nat): (r: Store)
    requires Ok(s) && k <= |s.nodes|
    ensures Shaped(s, r) && Ok(r)
  {
    if k == 0 then s
    else
      var m := SyncAll(s, k - 1);
      ShapedOk(m, SyncNode(m, k - 1));
      SyncNode(m, k - 1)
  }

  lemma {:induction false} SyncAllAt(s: Store, k: nat, j: nat)
    requires Ok(s) && k <= |s.nodes| && j < |s.nodes|
    ensures var p := PayloadOf(s, s.nodes[j]);
            PayloadOf(SyncAll(s, k), SyncAll(s, k).nodes[j]) == if j < k then Current(p, s.scale) else p
  {
    hide Current, SyncNode, PayloadOf, Ok, AllFit;
    if k > 0 {
      SyncAllAt(s, k - 1, j);
      SyncStep(SyncAll(s, k - 1), k - 1, j);
    }
  }

  lemma SyncStep(s: Store, i: nat, j: nat)
    requires Ok(s) && i < |s.nodes| && j < |s.nodes|
    ensures AllFit(SyncNode(s, i))
    ensures PayloadOf(SyncNode(s, i), SyncNode(s, i).nodes[j]) ==
            if j == i then Current(PayloadOf(s, s.nodes[i]), s.scale) else PayloadOf(s, s.nodes[j])
  {
    hide SyncNode, Current;
    SyncReplaces(s, i);
  }

  ghost function AllCurrent(m: map<Key, Payload>, scale: real): (r: map<Key, Payload>)
    ensures r.Keys == m.Keys && forall k :: k in m ==> r[k] == Current(m[k], scale)
    ensures Whole(m) ==> Whole(r)
  {
    map k | k in m :: Current(m[k], scale)
  }

  lemma {:induction false} SyncAllModel(s: Store)
    requires Ok(s)
    ensures Model(SyncAll(s, |s.nodes|)) == AllCurrent(Model(s), s.scale)
  {
    var r := SyncAll(s, |s.nodes|);
    forall k
      ensures Find(r.nodes, k) == Find(s.nodes, k)
    {
      ShapedFind(s, r, k);
    }
    forall k | k in Model(s)
      ensures Model(r)[k] == Current(Model(s)[k], s.scale)
    {
      SyncAllAt(s, |s.nodes|, Find(s.nodes, k).value);
    }
    SameEntries(Model(r), AllCurrent(Model(s), s.scale));
  }

  // ----- how a discounted regret is rounded -----

  function Magnitude(x: real): (m: real)
    ensures 0.0 <= m
  {
    if x < 0.0 then -x else x
  }

  function Distance(n: int, x: real): real {
    Magnitude(n as real - x)
  }

  /** No integer is nearer to x, and of two that are equally near this is the one farther from zero. */
  ghost predicate NearestAway(x: real, v: int) {
    forall n: int ::
      && Distance(v, x) <= Distance(n, x)
      && (Distance(n, x) == Distance(v, x) ==> Magnitude(n as real) <= Magnitude(v as real))
  }

  /** Nearer than v, or as near and larger in magnitude. */
  predicate Beats(x: real, n: int, v: int) {
    Distance(n, x) < Distance(v, x) || (Distance(n, x) == Distance(v, x) && Magnitude(v as real) < Magnitude(n as real))
  }

  lemma RoundUnbeaten(x: real, n: int)
    ensures n != Round(x) ==> Beats(x, Round(x), n)
  {
    var v := Round(x);
    if n < v {
      assert n as real <= v as real - 1.0;
    } else if n > v {
      assert n as real >= v as real + 1.0;
    }
  }

  /** Which integer that is. */
  lemma RoundIsNearest(x: real, v: int)
    ensures NearestAway(x, v) <==> v == Round(x)
  {
    hide Round, Distance;
    RoundUnbeaten(x, v);
    forall n: int
      ensures Distance(Round(x), x) <= Distance(n, x)
      ensures Distance(n, x) == Distance(Round(x), x) ==> Magnitude(n as real) <= Magnitude(Round(x) as real)
    {
      RoundUnbeaten(x, n);
    }
  }

  /** Rounding knows no sign. */
  lemma RoundIsOdd(x: real)
    ensures Round(-x) == -Round(x)
  {
  }

  function Negated(p: Payload): (q: Payload)
    ensures |q.regrets| == |p.regrets| && forall a :: 0 <= a < |p.regrets| ==> q.regrets[a] == -p.regrets[a]
    ensures q == p.(regrets := q.regrets)
  {
    p.(regrets := seq(|p.regrets|, a requires 0 <= a < |p.regrets| => -p.regrets[a]))
  }

  /** A regret times a ratio, unrounded. */
  function Product(r: int, ratio: real): real {
    r as real * ratio
  }

  lemma ReadRounds(p: Payload, scale: real, a: nat)
    requires a < |p.regrets|
    ensures NearestAway(Product(p.regrets[a], Ratio(scale, p.stamp)), Current(p, scale).regrets[a])
  {
    hide Round, Ratio, Current, Product, NearestAway;
    RegretIsRounded(p, scale, a);
    RoundIsNearest(Product(p.regrets[a], Ratio(scale, p.stamp)), Current(p, scale).regrets[a]);
  }

  /** The regrets a sync leaves in a node's region, each rounded from the exact product. */
  lemma SyncRounds(s: Store, i: nat, a: nat)
    requires Ok(s) && i < |s.nodes| && a < s.nodes[i].actions
    ensures var at, r := s.nodes[i].regretAt + a, SyncNode(s, i);
            && at < |s.regrets| == |r.regrets|
            && NearestAway(Product(s.regrets[at], Ratio(s.scale, s.nodes[i].stamp)), r.regrets[at])
  {
    hide SyncNode, NearestAway, Ratio, Current, Product;
    var p, r := PayloadOf(s, s.nodes[i]), SyncNode(s, i);
    SyncReplaces(s, i);
    ReadRounds(p, s.scale, a);
    assert SamePlace(s.nodes[i], r.nodes[i]);
    assert PayloadOf(r, r.nodes[i]).regrets[a] == r.regrets[s.nodes[i].regretAt + a];
  }

  lemma NegatedProduct(r: int, ratio: real)
    ensures Product(-r, ratio) == -Product(r, ratio)
  {
  }

  lemma RegretIsRounded(p: Payload, scale: real, a: nat)
    requires a < |p.regrets|
    ensures Current(p, scale).regrets[a] == Round(Product(p.regrets[a], Ratio(scale, p.stamp)))
  {
    RegretNow(p, scale, a);
  }

  lemma ReadNegated(p: Payload, scale: real, a: nat)
    requires a < |p.regrets|
    ensures Current(Negated(p), scale).regrets[a] == -Current(p, scale).regrets[a]
  {
    hide Round, Ratio, Current, Product;
    RegretIsRounded(p, scale, a);
    RegretIsRounded(Negated(p), scale, a);
    NegatedProduct(p.regrets[a], Ratio(scale, p.stamp));
    RoundIsOdd(Product(p.regrets[a], Ratio(scale, p.stamp)));
  }

  lemma SameButRegrets(p: Payload, q: Payload, scale: real)
    requires q == p.(regrets := q.regrets) && |q.regrets| == |p.regrets|
    ensures Current(q, scale) == Current(p, scale).(regrets := Current(q, scale).regrets)
  {
  }

  lemma CurrentNegated(p: Payload, scale: real)
    ensures Current(Negated(p), scale) == Negated(Current(p, scale))
  {
    hide Current, Ratio;
    forall a | 0 <= a < |p.regrets|
      ensures Current(Negated(p), scale).regrets[a] == Negated(Current(p, scale)).regrets[a]
    {
      ReadNegated(p, scale, a);
    }
    SameButRegrets(p, Negated(p), scale);
    assert Current(Negated(p), scale).regrets == Negated(Current(p, scale)).regrets;
  }

  /** Negating a node's regrets before a sync is negating them after it. */
  lemma SyncNegated(s: Store, r: Store, i: nat)
    requires Ok(s) && Ok(r) && i < |s.nodes| && Replaced(s, r, i, Negated(PayloadOf(s, s.nodes[i])))
    ensures PayloadOf(SyncNode(r, i), SyncNode(r, i).nodes[i]) ==
            Negated(PayloadOf(SyncNode(s, i), SyncNode(s, i).nodes[i]))
  {
    SyncReplaces(s, i);
    SyncReplaces(r, i);
    CurrentNegated(PayloadOf(s, s.nodes[i]), s.scale);
  }

  lemma RoundWhole(r: int)
    ensures Round(r as real * 1.0) == r
  {
  }

  /** Room made before a discount is applied is room made after. */
  lemma CurrentExtended(p: Payload, n: nat, scale: real)
    requires WholePayload(p) && n <= MAX_ACTIONS
    ensures Current(Extended(p, n), scale) == Extended(Current(p, scale), n)
  {
    var q, r := Current(Extended(p, n), scale), Extended(Current(p, scale), n);
    assert Round(0 as real * Ratio(scale, p.stamp)) == 0;
    assert q.regrets == r.regrets;
    assert p.strategy.Some? ==> q.strategy.value == r.strategy.value;
  }

  /** A regret as read is the stored regret times the ratio, rounded, whether or not the node is up to date. */
  lemma RegretNow(p: Payload, scale: real, a: nat)
    requires a < |p.regrets|
    ensures Current(p, scale).regrets[a] == Round(p.regrets[a] as real * Ratio(scale, p.stamp))
  {
    if Mark(p.stamp) == Mark(scale) {
      NothingPending(scale, p.stamp);
      RoundWhole(p.regrets[a]);
    }
  }

  /** A sum as read is the stored sum times the ratio, whether or not the node is up to date. */
  lemma SumNow(p: Payload, scale: real, a: nat)
    requires WholePayload(p) && p.strategy.Some? && a < |p.regrets|
    ensures Current(p, scale).strategy.value[a] == p.strategy.value[a] * Ratio(scale, p.stamp)
  {
    if Mark(p.stamp) == Mark(scale) {
      NothingPending(scale, p.stamp);
    }
  }
}
