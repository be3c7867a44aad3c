/**
 Saving a store to a file and loading it back. Saving first applies every pending
 discount; loading checks each record against the room the header asked for.
 */
module Saves {
  import opened Options
  import opened Arenas
  import opened Stores

  /** One node on disk. */
  datatype Record = Record(key: Key, street: int, regrets: seq<int>, strategy: Option<seq<real>>)

  datatype File = File(regretTotal: nat, strategyTotal: nat, omitPostflop: bool, records: seq<Record>)

  function RecordOf(s: Store, n: Node): Record
    requires Fits(s, n)
  {
    var p := PayloadOf(s, n);
    Record(n.key, p.street, p.regrets, p.strategy)
  }

  function Records(s: Store, k: nat): (r: seq<Record>)
    requires k <= |s.nodes| && AllFit(s)
    ensures |r| == k && forall i :: 0 <= i < k ==> r[i] == RecordOf(s, s.nodes[i])
  {
    seq(k, i requires 0 <= i < k => RecordOf(s, s.nodes[i]))
  }

  /** The header carries the arenas' fill, dead regions included. */
  function Image(s: Store): File
    requires AllFit(s)
  {
    File(|s.regrets|, |s.strategies|, s.omitPostflop, Records(s, |s.nodes|))
  }

  ghost function Save(s: Store): File
    requires Ok(s)
  {
    Image(SyncAll(s, |s.nodes|))
  }

  function Loaded(r: Record, stamp: real): Payload {
    Payload(r.street, r.regrets, r.strategy, stamp)
  }

  /** Appends one record, unless the arenas allotted from the header would overflow. */
  function LoadOne(s: Store, r: Record, regretCapacity: nat, strategyCapacity: nat): Option<Store> {
    if |s.regrets| + |r.regrets| > regretCapacity then None
    else if r.strategy.Some? && |s.strategies| + |r.regrets| > strategyCapacity then None
    else Some(Append(s, r.key, Loaded(r, Mark(s.scale)), None))
  }

  function Empty(omitPostflop: bool): Store {
    Store([], [], [], omitPostflop, 1.0)
  }

  /** The first k records of a file. */
  function Load(f: File, k: nat, regretCapacity: nat, strategyCapacity: nat): Option<Store>
    requires k <= |f.records|
  {
    if k == 0 then Some(Empty(f.omitPostflop))
    else
      var s := Load(f, k - 1, regretCapacity, strategyCapacity);
      if s.None? then None else LoadOne(s.value, f.records[k - 1], regretCapacity, strategyCapacity)
  }

  function RegretTotal(records: seq<Record>, k: nat): nat
    requires k <= |records|
  {
    if k == 0 then 0 else RegretTotal(records, k - 1) + |records[k - 1].regrets|
  }

  function StrategyTotal(records: seq<Record>, k: nat): nat
    requires k <= |records|
  {
    if k == 0 then 0
    else StrategyTotal(records, k - 1) + if records[k - 1].strategy.Some? then |records[k - 1].regrets| else 0
  }

  /** Any file, damaged or not, loads exactly as far as its records fit in the room allotted. */
  lemma {:induction false} LoadsWhatFits(f: File, k: nat, regretCapacity: nat, strategyCapacity: nat)
    requires k <= |f.records|
    requires forall i :: 0 <= i < |f.records| && f.records[i].strategy.Some? ==>
               |f.records[i].strategy.value| == |f.records[i].regrets|
    ensures var r := Load(f, k, regretCapacity, strategyCapacity);
            && (r.Some? <==>
                  RegretTotal(f.records, k) <= regretCapacity && StrategyTotal(f.records, k) <= strategyCapacity)
            && (r.Some? ==>
                  |r.value.regrets| == RegretTotal(f.records, k) && |r.value.strategies| == StrategyTotal(f.records, k))
  {
    if k > 0 {
      LoadsWhatFits(f, k - 1, regretCapacity, strategyCapacity);
    }
  }

  /** Node i's regions start right after those of the nodes before it. */
  ghost predicate Compact(s: Store) {
    && |s.regrets| == LiveRegrets(s.nodes) && |s.strategies| == LiveStrategies(s.nodes)
    && forall i {:trigger s.nodes[i]} :: 0 <= i < |s.nodes| ==> CompactAt(s, i)
  }

  ghost predicate CompactAt(s: Store, i: nat)
    requires i < |s.nodes|
  {
    && s.nodes[i].regretAt == LiveRegrets(s.nodes[..i])
    && (s.nodes[i].strategyAt.Some? ==> s.nodes[i].strategyAt.value == LiveStrategies(s.nodes[..i]))
  }

  lemma {:induction false} LivePrefix(nodes: seq<Node>, k: nat)
    requires k <= |nodes|
    ensures LiveRegrets(nodes[..k]) <= LiveRegrets(nodes) && LiveStrategies(nodes[..k]) <= LiveStrategies(nodes)
    decreases |nodes|
  {
    if k < |nodes| {
      LivePrefix(nodes[..|nodes| - 1], k);
      assert nodes[..|nodes| - 1][..k] == nodes[..k];
    } else {
      assert nodes[..k] == nodes;
    }
  }

  /** What the loader has after k records of a saved store. */
  ghost predicate LoadedUpTo(m: Store, r: Store, k: nat)
    requires Ok(m) && k <= |m.nodes|
  {
    && Ok(r) && Compact(r) && |r.nodes| == k && r.omitPostflop == m.omitPostflop && r.scale == 1.0
    && |r.regrets| == LiveRegrets(m.nodes[..k]) && |r.strategies| == LiveStrategies(m.nodes[..k])
    && forall i {:trigger r.nodes[i]} :: 0 <= i < k ==> Reloaded(m, r, i)
  }

  ghost predicate Reloaded(m: Store, r: Store, i: nat)
    requires Ok(m) && Ok(r) && i < |m.nodes| && i < |r.nodes|
  {
    && r.nodes[i].key == m.nodes[i].key
    && PayloadOf(r, r.nodes[i]) == PayloadOf(m, m.nodes[i]).(stamp := 1.0)
  }

  lemma AppendCompact(s: Store, key: Key, p: Payload)
    requires Compact(s) && WholePayload(p)
    ensures Compact(Append(s, key, p, None))
  {
    var r := Append(s, key, p, None);
    assert r.nodes[..|s.nodes|] == s.nodes;
    forall i | 0 <= i < |r.nodes|
      ensures CompactAt(r, i)
    {
      if i < |s.nodes| {
        assert r.nodes[..i] == s.nodes[..i];
        assert CompactAt(s, i);
      }
    }
  }

  lemma StillReloaded(m: Store, r: Store, i: nat, key: Key, p: Payload)
    requires Ok(m) && Ok(r) && i < |m.nodes| && i < |r.nodes| && Reloaded(m, r, i)
    requires Ok(Append(r, key, p, None))
    ensures Reloaded(m, Append(r, key, p, None), i)
  {
    SamePayload(r, Append(r, key, p, None), r.nodes[i]);
  }

  lemma NewToLoader(m: Store, r: Store, k: nat)
    requires Ok(m) && k < |m.nodes| && LoadedUpTo(m, r, k)
    ensures Find(r.nodes, m.nodes[k].key).None?
  {
    forall i | 0 <= i < k
      ensures r.nodes[i].key != m.nodes[k].key
    {
      assert Reloaded(m, r, i) && Apart(m.nodes[i], m.nodes[k]);
    }
  }

  /** One more record: appended right after the last, its payload as saved. */
  lemma LoadStep(m: Store, r: Store, k: nat)
    requires Ok(m) && k < |m.nodes| && LoadedUpTo(m, r, k)
    ensures LoadedUpTo(m, Append(r, m.nodes[k].key, PayloadOf(m, m.nodes[k]).(stamp := 1.0), None), k + 1)
  {
    hide Apart, Compact, CompactAt, Find;
    var key, p := m.nodes[k].key, PayloadOf(m, m.nodes[k]).(stamp := 1.0);
    NewToLoader(m, r, k);
    AppendOk(r, key, p, None);
    AppendPayload(r, key, p, None);
    AppendCompact(r, key, p);
    forall i | 0 <= i < k
      ensures Reloaded(m, Append(r, key, p, None), i)
    {
      assert Reloaded(m, r, i);
      StillReloaded(m, r, i, key, p);
    }
    assert m.nodes[..k + 1][..k] == m.nodes[..k];
  }

  lemma RoomForRecord(m: Store, k: nat, regretCapacity: nat, strategyCapacity: nat)
    requires Ok(m) && k < |m.nodes| && |m.regrets| <= regretCapacity && |m.strategies| <= strategyCapacity
    ensures LiveRegrets(m.nodes[..k]) + m.nodes[k].actions <= regretCapacity
    ensures m.nodes[k].strategyAt.Some? ==> LiveStrategies(m.nodes[..k]) + m.nodes[k].actions <= strategyCapacity
  {
    LivePrefix(m.nodes, k + 1);
    assert m.nodes[..k + 1][..k] == m.nodes[..k];
  }

  lemma LoadNext(m: Store, r: Store, k: nat, regretCapacity: nat, strategyCapacity: nat)
    requires Ok(m) && k < |m.nodes| && |m.regrets| <= regretCapacity && |m.strategies| <= strategyCapacity
    requires LoadedUpTo(m, r, k)
    ensures var next := LoadOne(r, RecordOf(m, m.nodes[k]), regretCapacity, strategyCapacity);
            next.Some? && LoadedUpTo(m, next.value, k + 1)
  {
    RoomForRecord(m, k, regretCapacity, strategyCapacity);
    LoadStep(m, r, k);
  }

  lemma EmptyLoaded(m: Store)
    requires Ok(m)
    ensures LoadedUpTo(m, Empty(m.omitPostflop), 0)
  {
  }

  lemma LoadsPrefix(m: Store, k: nat, regretCapacity: nat, strategyCapacity: nat)
    requires Ok(m) && k <= |m.nodes| && |m.regrets| <= regretCapacity && |m.strategies| <= strategyCapacity
    ensures var r := Load(Image(m), k, regretCapacity, strategyCapacity); r.Some? && LoadedUpTo(m, r.value, k)
  {
    EmptyLoaded(m);
    for i := 0 to k
      invariant var r := Load(Image(m), i, regretCapacity, strategyCapacity); r.Some? && LoadedUpTo(m, r.value, i)
    {
      LoadNext(m, Load(Image(m), i, regretCapacity, strategyCapacity).value, i, regretCapacity, strategyCapacity);
    }
  }

  /**
   Loading a saved store never runs out of the room its header asked for, and
   gives a compact copy: every region right after the last, no discount pending,
   and every key reads as it did before the save.
   */
  lemma SaveThenLoad(s: Store, regretCapacity: nat, strategyCapacity: nat, key: Key)
    requires Ok(s) && Save(s).regretTotal <= regretCapacity && Save(s).strategyTotal <= strategyCapacity
    ensures var f := Save(s);
            var r := Load(f, |f.records|, regretCapacity, strategyCapacity);
            && r.Some? && Ok(r.value) && Compact(r.value) && r.value.omitPostflop == s.omitPostflop
            && ReadOwn(r.value, key) ==
               if ReadOwn(s, key).Some? then Some(ReadOwn(s, key).value.(stamp := 1.0)) else None
  {
    hide SyncAll, Load, LoadedUpTo, ReadOwn, Compact;
    var m := SyncAll(s, |s.nodes|);
    LoadsPrefix(m, |m.nodes|, regretCapacity, strategyCapacity);
    var r := Load(Save(s), |s.nodes|, regretCapacity, strategyCapacity).value;
    LoadedIs(m, r);
    LoadedReads(s, r, key);
  }

  lemma LoadedIs(m: Store, r: Store)
    requires Ok(m) && LoadedUpTo(m, r, |m.nodes|)
    ensures Ok(r) && Compact(r) && r.omitPostflop == m.omitPostflop
  {
  }

  lemma {:induction false} LoadedFinds(m: Store, r: Store, key: Key)
    requires Ok(m) && LoadedUpTo(m, r, |m.nodes|)
    ensures Find(r.nodes, key) == Find(m.nodes, key)
  {
    forall i | 0 <= i < |m.nodes|
      ensures r.nodes[i].key == m.nodes[i].key
    {
      assert Reloaded(m, r, i);
    }
    hide LoadedUpTo, Reloaded, Find;
    FindSameKeys(r.nodes, m.nodes, key);
  }

  /** Loaded payloads read as they are. */
  lemma LoadedRead(m: Store, r: Store, i: nat)
    requires Ok(m) && LoadedUpTo(m, r, |m.nodes|) && i < |m.nodes|
    ensures Current(PayloadOf(r, r.nodes[i]), r.scale) == PayloadOf(m, m.nodes[i]).(stamp := 1.0)
  {
    assert Reloaded(m, r, i);
  }

  lemma SavedIsRead(s: Store, i: nat)
    requires Ok(s) && i < |s.nodes|
    ensures PayloadOf(SyncAll(s, |s.nodes|), SyncAll(s, |s.nodes|).nodes[i]) ==
            Current(PayloadOf(s, s.nodes[i]), s.scale)
  {
    SyncAllAt(s, |s.nodes|, i);
  }

  lemma {:induction false} LoadedReads(s: Store, r: Store, key: Key)
    requires Ok(s) && LoadedUpTo(SyncAll(s, |s.nodes|), r, |s.nodes|)
    ensures ReadOwn(r, key) == if ReadOwn(s, key).Some? then Some(ReadOwn(s, key).value.(stamp := 1.0)) else None
  {
    var m := SyncAll(s, |s.nodes|);
    ShapedFind(s, m, key);
    LoadedFinds(m, r, key);
    var i := Find(s.nodes, key);
    hide SyncAll, LoadedUpTo, Apart, Current, Find;
    if i.Some? {
      LoadedRead(m, r, i.value);
      SavedIsRead(s, i.value);
    }
  }
}
