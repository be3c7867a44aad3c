/**
 The read-only artifact: nodes dealt to shards by street and key, each shard's
 index sorted by key, node bytes laid end to end, and a reader with a
 direct-mapped cache of decoded policies.
 */
module RuntimeArtifacts {
  import opened Options
  import opened Partitions
  import Q = Quantise
  import Arenas

  const INDEX_BYTES := 16
  const HEADER_BYTES := 8

  /** A node as the writer sees it: its average policy is given. */
  datatype Item = Item(key: nat, street: int, actions: int, policy: seq<real>)

  datatype Entry = Entry(key: nat, offset: nat)

  datatype Record = Record(actions: nat, street: nat, quanta: seq<int>)

  datatype Shard = Shard(indexOffset: nat, count: nat)

  datatype Artifact = Artifact(
    narrow: bool, buckets: nat, indexAt: nat, shards: seq<Shard>, index: seq<Entry>, dataAt: nat, records: seq<Record>)

  function Norm(street: int): (s: nat)
    ensures s <= 3
  {
    if 0 <= street <= 3 then street else 0
  }

  function ShardFor(mix: nat -> nat, buckets: nat, key: nat, street: int): nat {
    if buckets == 0 then 0 else Norm(street) * buckets + mix(key) % buckets
  }

  /** A shard belongs to one street. */
  lemma ShardStreet(mix: nat -> nat, buckets: nat, key: nat, s: int, t: int)
    requires 0 < buckets
    ensures ShardFor(mix, buckets, key, s) < 4 * buckets
    ensures ShardFor(mix, buckets, key, s) == ShardFor(mix, buckets, key, t) <==> Norm(s) == Norm(t)
  {
    var b := mix(key) % buckets;
    assert Norm(s) != Norm(t) ==> (Norm(s) - Norm(t)) * buckets != 0;
    assert Norm(s) * buckets <= 3 * buckets;
  }

  /** Each street has its own run of buckets, in street order; a street out of range counts as the first. */
  lemma ShardPlace(mix: nat -> nat, buckets: nat, key: nat, street: int)
    ensures buckets == 0 ==> ShardFor(mix, buckets, key, street) == 0
    ensures 0 < buckets ==>
              var s := if street == 0 || street == 1 || street == 2 || street == 3 then street else 0;
              s * buckets <= ShardFor(mix, buckets, key, street) < (s + 1) * buckets
    ensures 0 < buckets ==> (ShardFor(mix, buckets, key, street) - mix(key)) % buckets == 0
  {
    if 0 < buckets {
      var s, b, q := Norm(street), mix(key) % buckets, mix(key) / buckets;
      assert mix(key) == q * buckets + b;
      assert (s + 1) * buckets == s * buckets + buckets;
      assert ShardFor(mix, buckets, key, street) - mix(key) == (s - q) * buckets by {
        assert s * buckets - q * buckets == (s - q) * buckets;
      }
      MultipleModZero(s - q, buckets);
    }
  }

  lemma MultipleBound(x: int, n: nat)
    ensures 1 <= x ==> n <= x * n
    ensures x <= -1 ==> x * n <= -(n as int)
  {
    assert 1 <= x ==> x * n == n + (x - 1) * n;
    assert x <= -1 ==> x * n == -(n as int) + (x + 1) * n;
  }

  lemma MultipleModZero(k: int, n: nat)
    requires 0 < n
    ensures (k * n) % n == 0
  {
    var q, r := (k * n) / n, (k * n) % n;
    assert k * n == q * n + r;
    assert (k - q) * n == r;
    MultipleBound(k - q, n);
  }

  // ----- the layout -----

  function NodeBytes(actions: nat, narrow: bool): nat {
    HEADER_BYTES + actions * if narrow then 1 else 2
  }

  /** Where record i starts. */
  function Offset(records: seq<Record>, narrow: bool, dataAt: nat, i: nat): nat
    requires i <= |records|
  {
    if i == 0 then dataAt else Offset(records, narrow, dataAt, i - 1) + NodeBytes(records[i - 1].actions, narrow)
  }

  function Size(a: Artifact): nat {
    Offset(a.records, a.narrow, a.dataAt, |a.records|)
  }

  function ActionTotal(records: seq<Record>, n: nat): nat
    requires n <= |records|
  {
    if n == 0 then 0 else ActionTotal(records, n - 1) + records[n - 1].actions
  }

  /** Eight bytes for each record before, and one or two for each of their actions. */
  lemma {:induction false} OffsetIs(records: seq<Record>, narrow: bool, dataAt: nat, n: nat)
    requires n <= |records|
    ensures Offset(records, narrow, dataAt, n) ==
            dataAt + 8 * n + ActionTotal(records, n) * if narrow then 1 else 2
  {
    if n > 0 {
      OffsetIs(records, narrow, dataAt, n - 1);
    }
  }

  lemma {:induction false} OffsetsApart(records: seq<Record>, narrow: bool, dataAt: nat, i: nat, j: nat)
    requires i < j <= |records|
    ensures Offset(records, narrow, dataAt, i) + NodeBytes(records[i].actions, narrow) <=
            Offset(records, narrow, dataAt, j)
    decreases j
  {
    if i < j - 1 {
      OffsetsApart(records, narrow, dataAt, i, j - 1);
    }
  }

  /** The node regions tile the data area: each starts where the last ended, none overlap, the last ends the file. */
  lemma RegionsTile(a: Artifact, i: nat, j: nat)
    requires i < |a.records| && j < |a.records|
    ensures a.dataAt <= Offset(a.records, a.narrow, a.dataAt, i)
    ensures Offset(a.records, a.narrow, a.dataAt, i) + NodeBytes(a.records[i].actions, a.narrow)
            == Offset(a.records, a.narrow, a.dataAt, i + 1) <= Size(a)
    ensures i != j ==> Arenas.RegionsApart(Offset(a.records, a.narrow, a.dataAt, i),
                                           NodeBytes(a.records[i].actions, a.narrow),
                                    Offset(a.records, a.narrow, a.dataAt, j), NodeBytes(a.records[j].actions, a.narrow))
  {
    OffsetsApart(a.records, a.narrow, a.dataAt, i, |a.records|);
    if i < j {
      OffsetsApart(a.records, a.narrow, a.dataAt, i, j);
    } else if j < i {
      OffsetsApart(a.records, a.narrow, a.dataAt, j, i);
    }
    if 0 < i {
      OffsetsApart(a.records, a.narrow, a.dataAt, 0, i);
    }
  }

  /** The record a reader sees at a byte offset, trying record i and those before it. */
  function RecordAt(a: Artifact, offset: nat, i: nat): Option<Record>
    requires i <= |a.records|
  {
    if i == 0 then None
    else if Offset(a.records, a.narrow, a.dataAt, i - 1) == offset then Some(a.records[i - 1])
    else RecordAt(a, offset, i - 1)
  }

  lemma {:induction false} RecordIsThere(a: Artifact, i: nat, n: nat)
    requires i < n <= |a.records|
    ensures RecordAt(a, Offset(a.records, a.narrow, a.dataAt, i), n) == Some(a.records[i])
    decreases n
  {
    if i < n - 1 {
      OffsetsApart(a.records, a.narrow, a.dataAt, i, n - 1);
      RecordIsThere(a, i, n - 1);
    }
  }

  // ----- sorting a shard -----

  function InsertByKey(items: seq<Item>, list: seq<nat>, x: nat): (r: seq<nat>)
    requires x < |items| && forall i :: 0 <= i < |list| ==> list[i] < |items|
    ensures |r| == |list| + 1 && forall y :: y in r <==> y == x || y in list
  {
    if list == [] then [x]
    else
      var n := |list| - 1;
      assert forall y :: y in list <==> y == list[n] || y in list[..n];
      if items[list[n]].key < items[x].key then list + [x] else InsertByKey(items, list[..n], x) + [list[n]]
  }

  function SortByKey(items: seq<Item>, list: seq<nat>): (r: seq<nat>)
    requires forall i :: 0 <= i < |list| ==> list[i] < |items|
    ensures |r| == |list| && forall y :: y in r <==> y in list
  {
    if list == [] then []
    else
      var n := |list| - 1;
      assert forall y :: y in list <==> y == list[n] || y in list[..n];
      var r := SortByKey(items, list[..n]);
      assert forall i :: 0 <= i < |r| ==> r[i] in list;
      InsertByKey(items, r, list[n])
  }

  ghost predicate KeysAscend(items: seq<Item>, list: seq<nat>)
    requires forall i :: 0 <= i < |list| ==> list[i] < |items|
  {
    forall i, j :: 0 <= i < j < |list| ==> items[list[i]].key < items[list[j]].key
  }

  ghost predicate KeysDiffer(items: seq<Item>) {
    forall i, j :: 0 <= i < j < |items| ==> items[i].key != items[j].key
  }

  lemma {:induction false} InsertAscends(items: seq<Item>, list: seq<nat>, x: nat)
    requires x < |items| && (forall i :: 0 <= i < |list| ==> list[i] < |items|) && KeysAscend(items, list)
    requires forall i :: 0 <= i < |list| ==> items[list[i]].key != items[x].key
    ensures forall i :: 0 <= i < |list| + 1 ==> InsertByKey(items, list, x)[i] < |items|
    ensures KeysAscend(items, InsertByKey(items, list, x))
  {
    if list != [] {
      var n := |list| - 1;
      if items[list[n]].key >= items[x].key {
        InsertAscends(items, list[..n], x);
        var r := InsertByKey(items, list[..n], x);
        forall i | 0 <= i < |r|
          ensures items[r[i]].key < items[list[n]].key
        {
          assert r[i] in r;
        }
      }
    }
  }

  lemma {:induction false} SortAscends(items: seq<Item>, list: seq<nat>)
    requires (forall i :: 0 <= i < |list| ==> list[i] < |items|) && KeysDiffer(items)
    requires forall i, j :: 0 <= i < j < |list| ==> list[i] != list[j]
    ensures forall i :: 0 <= i < |list| ==> SortByKey(items, list)[i] < |items|
    ensures KeysAscend(items, SortByKey(items, list))
  {
    if list != [] {
      var n := |list| - 1;
      SortAscends(items, list[..n]);
      var r := SortByKey(items, list[..n]);
      forall i | 0 <= i < |r|
        ensures items[r[i]].key != items[list[n]].key
      {
        assert r[i] in list[..n];
      }
      InsertAscends(items, r, list[n]);
    }
  }

  // ----- writing -----

  function Sharding(items: seq<Item>, mix: nat -> nat, buckets: nat): Partitions.Sharding {
    (k: nat) =>
      if k < |items| && items[k].actions > 0 then ShardFor(mix, buckets, items[k].key, items[k].street) else -1
  }

  /** Every node that is written has a policy over its actions. */
  ghost predicate Sound(items: seq<Item>) {
    KeysDiffer(items) && forall k :: 0 <= k < |items| && items[k].actions > 0 ==> |items[k].policy| == items[k].actions
  }

  function All(n: nat): (list: seq<nat>)
    ensures |list| == n && forall i :: 0 <= i < n ==> list[i] == i
  {
    seq(n, i => i)
  }

  lemma {:induction false} FilterHas(list: seq<nat>, shard: Partitions.Sharding, s: int, x: nat)
    ensures x in Filter(list, shard, s) <==> x in list && shard(x) == s
  {
    if list != [] {
      var n := |list| - 1;
      FilterHas(list[..n], shard, s, x);
      assert x in list <==> x == list[n] || x in list[..n];
    }
  }

  lemma {:induction false} FilterDistinct(list: seq<nat>, shard: Partitions.Sharding, s: int)
    requires forall i, j :: 0 <= i < j < |list| ==> list[i] != list[j]
    ensures forall i, j :: 0 <= i < j < |Filter(list, shard, s)| ==>
            Filter(list, shard, s)[i] != Filter(list, shard, s)[j]
  {
    if list != [] {
      var n := |list| - 1;
      FilterDistinct(list[..n], shard, s);
      var part := Filter(list[..n], shard, s);
      forall i | 0 <= i < |part|
        ensures part[i] != list[n]
      {
        FilterHas(list[..n], shard, s, part[i]);
      }
    }
  }

  /** The nodes of one shard in key order. */
  ghost function ShardOrder(items: seq<Item>, mix: nat -> nat, buckets: nat, s: int): (r: seq<nat>)
    requires KeysDiffer(items)
    ensures forall x: nat :: x in r <==> x < |items| && Sharding(items, mix, buckets)(x) == s
    ensures |r| == |Filter(All(|items|), Sharding(items, mix, buckets), s)|
    ensures (forall i :: 0 <= i < |r| ==> r[i] < |items|) && KeysAscend(items, r)
  {
    var part := Filter(All(|items|), Sharding(items, mix, buckets), s);
    ShardMembers(items, mix, buckets, s);
    SortAscends(items, part);
    SortByKey(items, part)
  }

  lemma ShardMembers(items: seq<Item>, mix: nat -> nat, buckets: nat, s: int)
    ensures var part := Filter(All(|items|), Sharding(items, mix, buckets), s);
            && (forall x: nat :: x in part <==> x < |items| && Sharding(items, mix, buckets)(x) == s)
            && (forall i :: 0 <= i < |part| ==> part[i] < |items|)
            && forall i, j :: 0 <= i < j < |part| ==> part[i] != part[j]
  {
    var list, sharding := All(|items|), Sharding(items, mix, buckets);
    var part := Filter(list, sharding, s);
    FilterDistinct(list, sharding, s);
    forall x: nat
      ensures x in part <==> x < |items| && sharding(x) == s
    {
      FilterHas(list, sharding, s, x);
      assert x < |items| ==> list[x] == x;
    }
    forall i | 0 <= i < |part|
      ensures part[i] < |items|
    {
      assert part[i] in part;
    }
  }

  /** Shard s occupies one run of the order, sorted by key. */
  ghost predicate ShardPlaced(items: seq<Item>, mix: nat -> nat, buckets: nat, order: seq<nat>, first: nat, count: nat,
                              s: int)
    requires KeysDiffer(items)
  {
    first + count <= |order| && order[first..first + count] == ShardOrder(items, mix, buckets, s)
  }

  ghost predicate Quantified(items: seq<Item>, narrow: bool, quanta: seq<seq<int>>) {
    |quanta| == |items| &&
    forall k :: 0 <= k < |items| && items[k].actions > 0 ==>
      && |quanta[k]| == items[k].actions
      && (Q.Distribution(items[k].policy) ==> Q.Quantised(items[k].policy, Q.Scale(narrow), quanta[k]))
  }

  /** Entry i of the index names node order[i] and points at its record. */
  ghost predicate EntryOk(items: seq<Item>, quanta: seq<seq<int>>, order: seq<nat>, index: seq<Entry>,
                          records: seq<Record>,
                          narrow: bool, dataAt: nat, i: nat)
    requires |quanta| == |items| && i < |order| && |index| == |records| && i < |index|
  {
    && order[i] < |items| && items[order[i]].actions > 0
    && index[i] == Entry(items[order[i]].key, Offset(records, narrow, dataAt, i))
    && records[i] == Record(items[order[i]].actions, Norm(items[order[i]].street), quanta[order[i]])
  }

  ghost predicate Ordered(a: Artifact, items: seq<Item>, quanta: seq<seq<int>>, order: seq<nat>)
    requires |quanta| == |items|
  {
    && |order| == |a.index| == |a.records|
    && forall i :: 0 <= i < |order| ==> EntryOk(items, quanta, order, a.index, a.records, a.narrow, a.dataAt, i)
  }

  ghost predicate Placed(a: Artifact, items: seq<Item>, mix: nat -> nat, order: seq<nat>, firsts: seq<nat>)
    requires KeysDiffer(items)
  {
    && 0 < a.buckets && |a.shards| == 4 * a.buckets == |firsts|
    && forall s :: 0 <= s < |a.shards| ==> TableOk(items, mix, a.buckets, order, firsts[s], a.indexAt, a.shards[s], s)
  }

  /** The artifact holds exactly the given nodes. */
  ghost predicate Holds(a: Artifact, items: seq<Item>, mix: nat -> nat, quanta: seq<seq<int>>, order: seq<nat>,
                        firsts: seq<nat>) {
    && Sound(items) && Quantified(items, a.narrow, quanta) && Ordered(a, items, quanta, order)
    && Placed(a, items, mix, order, firsts)
  }

  method QuantiseAll(items: seq<Item>, narrow: bool) returns (quanta: seq<seq<int>>)
    requires Sound(items)
    ensures Quantified(items, narrow, quanta)
  {
    quanta := [];
    for k := 0 to |items|
      invariant Quantified(items[..k], narrow, quanta)
    {
      var q := [];
      if items[k].actions > 0 {
        q := Q.Quantise(items[k].policy, narrow);
      }
      quanta := quanta + [q];
    }
    assert items[..|items|] == items;
  }

  method SortSegment(items: seq<Item>, mix: nat -> nat, buckets: nat, segment: seq<nat>, ghost s: int)
      returns (r: seq<nat>)
    requires KeysDiffer(items) && segment == Filter(All(|items|), Sharding(items, mix, buckets), s)
    ensures r == ShardOrder(items, mix, buckets, s)
  {
    ShardMembers(items, mix, buckets, s);
    r := SortByKey(items, segment);
  }

  ghost predicate RunOk(items: seq<Item>, mix: nat -> nat, buckets: nat, order: seq<nat>, offsets: seq<nat>, t: nat)
    requires KeysDiffer(items) && t + 1 < |offsets|
  {
    offsets[t] <= offsets[t + 1] && ShardPlaced(items, mix, buckets, order, offsets[t], offsets[t + 1] - offsets[t], t)
  }

  /** The first n shards are in place, one after the other, and nothing else is. */
  ghost predicate PlacedUpTo(items: seq<Item>, mix: nat -> nat, buckets: nat, order: seq<nat>, offsets: seq<nat>,
                             n: nat)
    requires KeysDiffer(items)
  {
    && n < |offsets| && |order| == offsets[n]
    && (forall t :: 0 <= t < n ==> RunOk(items, mix, buckets, order, offsets, t))
    && forall i :: 0 <= i < |order| ==> order[i] < |items| && items[order[i]].actions > 0
  }

  lemma PlacedExtend(items: seq<Item>, mix: nat -> nat, buckets: nat, order: seq<nat>, part: seq<nat>,
                     offsets: seq<nat>, s: nat)
    requires KeysDiffer(items) && PlacedUpTo(items, mix, buckets, order, offsets, s) && s + 1 < |offsets|
    requires part == ShardOrder(items, mix, buckets, s) && offsets[s] + |part| == offsets[s + 1]
    ensures PlacedUpTo(items, mix, buckets, order + part, offsets, s + 1)
  {
    forall t | 0 <= t < s + 1
      ensures RunOk(items, mix, buckets, order + part, offsets, t)
    {
      if t < s {
        assert RunOk(items, mix, buckets, order, offsets, t);
        assert (order + part)[offsets[t]..offsets[t + 1]] == order[offsets[t]..offsets[t + 1]];
      } else {
        assert (order + part)[offsets[s]..offsets[s + 1]] == part;
      }
    }
    forall i | 0 <= i < |part|
      ensures part[i] < |items| && items[part[i]].actions > 0
    {
      assert part[i] in part;
    }
  }

  ghost predicate Dealt(items: seq<Item>, mix: nat -> nat, buckets: nat, entries: seq<nat>, offsets: seq<nat>) {
    && 4 * buckets < |offsets| && offsets[0] == 0
    && forall s :: 0 <= s < 4 * buckets ==> Segmented(entries, offsets, All(|items|), Sharding(items, mix, buckets), s)
  }

  /** All shards one after the other, each sorted. */
  method SortShards(items: seq<Item>, mix: nat -> nat, buckets: nat, entries: array<nat>, offsets: array<nat>)
    returns (order: seq<nat>)
    requires KeysDiffer(items) && Dealt(items, mix, buckets, entries[..], offsets[..])
    ensures PlacedUpTo(items, mix, buckets, order, offsets[..], 4 * buckets)
  {
    order := [];
    for s := 0 to 4 * buckets
      invariant PlacedUpTo(items, mix, buckets, order, offsets[..], s)
    {
      assert Segmented(entries[..], offsets[..], All(|items|), Sharding(items, mix, buckets), s);
      var part := SortSegment(items, mix, buckets, entries[..][offsets[..][s]..offsets[..][s + 1]], s);
      PlacedExtend(items, mix, buckets, order, part, offsets[..], s);
      order := order + part;
    }
  }

  lemma {:induction false} OffsetPrefix(records: seq<Record>, record: Record, narrow: bool, dataAt: nat, i: nat)
    requires i <= |records|
    ensures Offset(records + [record], narrow, dataAt, i) == Offset(records, narrow, dataAt, i)
  {
    if 0 < i {
      OffsetPrefix(records, record, narrow, dataAt, i - 1);
    }
  }

  lemma EntryExtend(items: seq<Item>, quanta: seq<seq<int>>, order: seq<nat>, index: seq<Entry>, records: seq<Record>,
                    e: Entry, record: Record, narrow: bool, dataAt: nat, i: nat)
    requires |quanta| == |items| && i < |order| && |index| == |records| && i < |index|
    requires EntryOk(items, quanta, order, index, records, narrow, dataAt, i)
    ensures EntryOk(items, quanta, order, index + [e], records + [record], narrow, dataAt, i)
  {
    OffsetPrefix(records, record, narrow, dataAt, i);
  }

  /** Index entries and records in order, each record right after the last. */
  method LayOut(items: seq<Item>, narrow: bool, quanta: seq<seq<int>>, order: seq<nat>, dataAt: nat)
    returns (index: seq<Entry>, records: seq<Record>)
    requires |quanta| == |items| && forall i :: 0 <= i < |order| ==> order[i] < |items| && items[order[i]].actions > 0
    ensures |index| == |order| == |records|
    ensures forall i :: 0 <= i < |order| ==> EntryOk(items, quanta, order, index, records, narrow, dataAt, i)
  {
    index, records := [], [];
    var at := dataAt;
    for i := 0 to |order|
      invariant |index| == i == |records| && at == Offset(records, narrow, dataAt, i)
      invariant forall j :: 0 <= j < i ==> EntryOk(items, quanta, order, index, records, narrow, dataAt, j)
    {
      var n := items[order[i]];
      var e, record := Entry(n.key, at), Record(n.actions, Norm(n.street), quanta[order[i]]);
      OffsetPrefix(records, record, narrow, dataAt, i);
      forall j | 0 <= j < i
        ensures EntryOk(items, quanta, order, index + [e], records + [record], narrow, dataAt, j)
      {
        EntryExtend(items, quanta, order, index, records, e, record, narrow, dataAt, j);
      }
      index, records := index + [e], records + [record];
      at := at + NodeBytes(n.actions, narrow);
    }
  }

  ghost predicate TableOk(items: seq<Item>, mix: nat -> nat, buckets: nat, order: seq<nat>, first: nat, indexAt: nat,
                          h: Shard, s: nat)
    requires KeysDiffer(items)
  {
    h.indexOffset == indexAt + first * INDEX_BYTES && ShardPlaced(items, mix, buckets, order, first, h.count, s)
  }

  method ShardTable(items: seq<Item>, ghost mix: nat -> nat, buckets: nat, ghost order: seq<nat>, offsets: seq<nat>,
                    indexAt: nat)
    returns (shards: seq<Shard>)
    requires KeysDiffer(items) && PlacedUpTo(items, mix, buckets, order, offsets, 4 * buckets)
    ensures |shards| == 4 * buckets
    ensures forall s :: 0 <= s < |shards| ==> TableOk(items, mix, buckets, order, offsets[s], indexAt, shards[s], s)
  {
    shards := [];
    for s := 0 to 4 * buckets
      invariant |shards| == s
      invariant forall t :: 0 <= t < s ==> TableOk(items, mix, buckets, order, offsets[t], indexAt, shards[t], t)
    {
      assert RunOk(items, mix, buckets, order, offsets, s);
      shards := shards + [Shard(indexAt + offsets[s] * INDEX_BYTES, offsets[s + 1] - offsets[s])];
    }
  }

  /** Counts, deals and sorts the nodes. */
  method Arrange(items: seq<Item>, mix: nat -> nat, buckets: nat) returns (order: seq<nat>, offsets: seq<nat>)
    requires KeysDiffer(items) && 0 < buckets
    ensures PlacedUpTo(items, mix, buckets, order, offsets, 4 * buckets)
  {
    var entries, starts := new nat[|items|], new nat[4 * buckets + 1];
    Partition(All(|items|), Sharding(items, mix, buckets), 4 * buckets, entries, starts);
    assert starts[0] == 0;
    order := SortShards(items, mix, buckets, entries, starts);
    offsets := starts[..];
  }

  /** Writes the artifact; it holds exactly the given nodes. */
  method Save(items: seq<Item>, narrow: bool, mix: nat -> nat, buckets: nat, headerBytes: nat, shardBytes: nat)
    returns (a: Artifact, ghost quanta: seq<seq<int>>, ghost order: seq<nat>, ghost firsts: seq<nat>)
    requires Sound(items) && 0 < buckets
    ensures Holds(a, items, mix, quanta, order, firsts)
    ensures a.indexAt == headerBytes + 4 * buckets * shardBytes && a.dataAt == a.indexAt + 16 * |a.index|
    ensures Size(a) == a.dataAt + 8 * |a.records| + ActionTotal(a.records, |a.records|) * if narrow then 1 else 2
  {
    var q := QuantiseAll(items, narrow);
    var o, offsets := Arrange(items, mix, buckets);
    var indexAt := headerBytes + 4 * buckets * shardBytes;
    var dataAt := indexAt + |o| * INDEX_BYTES;
    var shards := ShardTable(items, mix, buckets, o, offsets, indexAt);
    var index, records := LayOut(items, narrow, q, o, dataAt);
    a := Artifact(narrow, buckets, indexAt, shards, index, dataAt, records);
    quanta, order, firsts := q, o, offsets[..4 * buckets];
    OffsetIs(records, narrow, dataAt, |records|);
  }

  // ----- reading -----

  predicate Matches(n: Item, key: nat, street: int, actions: int) {
    n.key == key && Norm(n.street) == Norm(street) && n.actions == actions > 0
  }

  /** What the simple store answers: the decoded policy of the node with this key, street and action count. */
  ghost function Answer(items: seq<Item>, quanta: seq<seq<int>>, key: nat, street: int, actions: int): Option<seq<real>>
    requires |quanta| == |items|
    requires forall k :: 0 <= k < |items| && items[k].actions > 0 ==> |quanta[k]| == items[k].actions
  {
    if exists k: nat :: k < |items| && Matches(items[k], key, street, actions) then
      var k: nat :| k < |items| && Matches(items[k], key, street, actions);
      Some(Q.Decode(quanta[k]))
    else None
  }

  lemma AnswerIs(items: seq<Item>, quanta: seq<seq<int>>, k: nat, key: nat, street: int, actions: int)
    requires KeysDiffer(items) && k < |items| && Matches(items[k], key, street, actions)
    requires |quanta| == |items|
    requires forall j :: 0 <= j < |items| && items[j].actions > 0 ==> |quanta[j]| == items[j].actions
    ensures Answer(items, quanta, key, street, actions) == Some(Q.Decode(quanta[k]))
  {
    forall j: nat | j < |items|
      ensures items[j].key == items[k].key ==> j == k
    {
      assert j < k ==> items[j].key != items[k].key;
      assert k < j ==> items[k].key != items[j].key;
    }
  }

  /** The index entry at a byte offset of the file. */
  function EntryAt(a: Artifact, at: nat): Entry
    requires a.indexAt <= at && (at - a.indexAt) / INDEX_BYTES < |a.index|
  {
    a.index[(at - a.indexAt) / INDEX_BYTES]
  }

  lemma EntryPlace(a: Artifact, first: nat, i: nat)
    ensures (a.indexAt + first * INDEX_BYTES + i * INDEX_BYTES - a.indexAt) / INDEX_BYTES == first + i
  {
  }

  ghost predicate IndexAscends(a: Artifact, first: nat, count: nat) {
    first + count <= |a.index| && forall i, j :: first <= i < j < first + count ==> a.index[i].key < a.index[j].key
  }

  /** Binary search for the first entry of a shard whose key is not below the wanted one. */
  method LowerBound(a: Artifact, h: Shard, ghost first: nat, key: nat) returns (lo: nat)
    requires h.indexOffset == a.indexAt + first * INDEX_BYTES && IndexAscends(a, first, h.count)
    ensures lo <= h.count
    ensures forall j :: first <= j < first + lo ==> a.index[j].key < key
    ensures forall j :: first + lo <= j < first + h.count ==> key <= a.index[j].key
  {
    lo := 0;
    var hi := h.count;
    while lo < hi
      invariant lo <= hi <= h.count
      invariant forall j :: first <= j < first + lo ==> a.index[j].key < key
      invariant forall j :: first + hi <= j < first + h.count ==> key <= a.index[j].key
    {
      var mid := lo + (hi - lo) / 2;
      EntryPlace(a, first, mid);
      if EntryAt(a, h.indexOffset + mid * INDEX_BYTES).key < key {
        lo := mid + 1;
      } else {
        hi := mid;
      }
    }
  }

  lemma ShardIndex(a: Artifact, items: seq<Item>, mix: nat -> nat, quanta: seq<seq<int>>, order: seq<nat>,
                   firsts: seq<nat>, s: nat)
    requires Holds(a, items, mix, quanta, order, firsts) && s < |a.shards|
    ensures var h := a.shards[s];
            h.indexOffset == a.indexAt + firsts[s] * INDEX_BYTES && IndexAscends(a, firsts[s], h.count)
  {
    var h, first := a.shards[s], firsts[s];
    assert TableOk(items, mix, a.buckets, order, first, a.indexAt, h, s);
    var run := order[first..first + h.count];
    forall i, j | first <= i < j < first + h.count
      ensures a.index[i].key < a.index[j].key
    {
      assert EntryOk(items, quanta, order, a.index, a.records, a.narrow, a.dataAt, i);
      assert EntryOk(items, quanta, order, a.index, a.records, a.narrow, a.dataAt, j);
      assert run[i - first] == order[i] && run[j - first] == order[j];
    }
  }

  /** A node that is in the artifact is in its shard's run. */
  lemma NodeIsIndexed(a: Artifact, items: seq<Item>, mix: nat -> nat, quanta: seq<seq<int>>, order: seq<nat>,
                      firsts: seq<nat>,
                      k: nat) returns (i: nat)
    requires Holds(a, items, mix, quanta, order, firsts) && k < |items| && items[k].actions > 0
    ensures var s := ShardFor(mix, a.buckets, items[k].key, items[k].street);
            && s < |a.shards| && firsts[s] <= i < firsts[s] + a.shards[s].count
            && i < |a.index| && a.index[i].key == items[k].key
  {
    var s := ShardFor(mix, a.buckets, items[k].key, items[k].street);
    ShardStreet(mix, a.buckets, items[k].key, items[k].street, items[k].street);
    var h, first := a.shards[s], firsts[s];
    assert TableOk(items, mix, a.buckets, order, first, a.indexAt, h, s);
    var run := order[first..first + h.count];
    assert k in run;
    var j :| 0 <= j < |run| && run[j] == k;
    i := first + j;
    assert EntryOk(items, quanta, order, a.index, a.records, a.narrow, a.dataAt, i);
  }

  /** An entry of a shard's run names a node of that shard. */
  lemma EntryIsNode(a: Artifact, items: seq<Item>, mix: nat -> nat, quanta: seq<seq<int>>, order: seq<nat>,
                    firsts: seq<nat>,
                    s: nat, i: nat) returns (k: nat)
    requires Holds(a, items, mix, quanta, order, firsts) && s < |a.shards|
    requires firsts[s] <= i < firsts[s] + a.shards[s].count
    ensures k < |items| && items[k].actions > 0 && i < |a.records| == |a.index|
    ensures ShardFor(mix, a.buckets, items[k].key, items[k].street) == s
    ensures a.index[i] == Entry(items[k].key, Offset(a.records, a.narrow, a.dataAt, i))
    ensures a.records[i] == Record(items[k].actions, Norm(items[k].street), quanta[k])
  {
    var h, first := a.shards[s], firsts[s];
    assert TableOk(items, mix, a.buckets, order, first, a.indexAt, h, s);
    var run := order[first..first + h.count];
    assert run[i - first] == order[i] && order[i] in run;
    assert EntryOk(items, quanta, order, a.index, a.records, a.narrow, a.dataAt, i);
    k := order[i];
  }

  lemma NothingFound(a: Artifact, items: seq<Item>, mix: nat -> nat, quanta: seq<seq<int>>, order: seq<nat>,
                     firsts: seq<nat>,
                     key: nat, street: int, actions: int)
    requires Holds(a, items, mix, quanta, order, firsts)
    requires var s := ShardFor(mix, a.buckets, key, street);
             && s < |a.shards|
             && forall i :: firsts[s] <= i < firsts[s] + a.shards[s].count && i < |a.index| ==> a.index[i].key != key
    ensures Answer(items, quanta, key, street, actions).None?
  {
    forall k: nat | k < |items| && Matches(items[k], key, street, actions)
      ensures false
    {
      ShardStreet(mix, a.buckets, key, street, items[k].street);
      var _ := NodeIsIndexed(a, items, mix, quanta, order, firsts, k);
    }
  }

  lemma WrongNode(items: seq<Item>, quanta: seq<seq<int>>, k: nat, key: nat, street: int, actions: int)
    requires KeysDiffer(items) && k < |items| && items[k].key == key && items[k].actions != actions
    requires |quanta| == |items|
    requires forall j :: 0 <= j < |items| && items[j].actions > 0 ==> |quanta[j]| == items[j].actions
    ensures Answer(items, quanta, key, street, actions).None?
  {
    forall j: nat | j < |items|
      ensures !Matches(items[j], key, street, actions)
    {
      assert j < k ==> items[j].key != items[k].key;
      assert k < j ==> items[k].key != items[j].key;
    }
  }

  /** Reads the record an index entry points at, checking that it lies in the file and has the wanted actions. */
  method ReadRecord(a: Artifact, ghost i: nat, offset: nat, actions: int) returns (p: Option<seq<real>>)
    requires i < |a.records| && offset == Offset(a.records, a.narrow, a.dataAt, i) && actions > 0
    requires |a.records[i].quanta| == a.records[i].actions
    ensures p == if a.records[i].actions == actions then Some(Q.Decode(a.records[i].quanta)) else None
  {
    RecordIsThere(a, i, |a.records|);
    RegionsTile(a, i, i);
    p := None;
    if offset + HEADER_BYTES > Size(a) {
      return;
    }
    var record := RecordAt(a, offset, |a.records|);
    if record.Some? && record.value.actions == actions && offset + NodeBytes(actions, a.narrow) <= Size(a) {
      p := Some(Q.Decode(record.value.quanta));
    }
  }

  /** A lookup without the cache answers what the simple store would. */
  method Find(a: Artifact, mix: nat -> nat, key: nat, street: int, actions: int, ghost items: seq<Item>,
              ghost quanta: seq<seq<int>>, ghost order: seq<nat>, ghost firsts: seq<nat>) returns (p: Option<seq<real>>)
    requires Holds(a, items, mix, quanta, order, firsts) && actions > 0
    ensures p == Answer(items, quanta, key, street, actions)
  {
    var s := ShardFor(mix, a.buckets, key, street);
    ShardStreet(mix, a.buckets, key, street, street);
    var h := a.shards[s];
    ShardIndex(a, items, mix, quanta, order, firsts, s);
    var lo := LowerBound(a, h, firsts[s], key);
    p := None;
    if lo < h.count {
      EntryPlace(a, firsts[s], lo);
      var e := EntryAt(a, h.indexOffset + lo * INDEX_BYTES);
      if e.key == key {
        ghost var k := EntryIsNode(a, items, mix, quanta, order, firsts, s, firsts[s] + lo);
        ShardStreet(mix, a.buckets, key, street, items[k].street);
        p := ReadRecord(a, firsts[s] + lo, e.offset, actions);
        if items[k].actions == actions {
          AnswerIs(items, quanta, k, key, street, actions);
        } else {
          WrongNode(items, quanta, k, key, street, actions);
        }
        return;
      }
    }
    NothingFound(a, items, mix, quanta, order, firsts, key, street, actions);
  }

  /** One slot of the cache: the decoded policy last seen there. */
  datatype Cached = Cached(valid: bool, key: nat, street: int, actions: int, policy: seq<real>)

  class Reader {
    const a: Artifact
    const mix: nat -> nat
    const cache: array<Cached>
    var hits: nat
    var misses: nat
    ghost const items: seq<Item>
    ghost const quanta: seq<seq<int>>
    ghost const order: seq<nat>
    ghost const firsts: seq<nat>

    ghost predicate Open()
    {
      Holds(a, items, mix, quanta, order, firsts)
    }

    /** Whatever the cache holds is what the store answers. */
    ghost predicate Valid()
      reads this, cache
    {
      Open() && forall c :: 0 <= c < cache.Length && cache[c].valid ==>
        Answer(items, quanta, cache[c].key, cache[c].street, cache[c].actions) == Some(cache[c].policy)
    }

    constructor (a: Artifact, mix: nat -> nat, slots: nat, ghost items: seq<Item>, ghost quanta: seq<seq<int>>,
                 ghost order: seq<nat>, ghost firsts: seq<nat>)
      requires Holds(a, items, mix, quanta, order, firsts)
      ensures Valid() && fresh(cache) && this.items == items && this.quanta == quanta && cache.Length == slots
    {
      this.a, this.mix, this.items, this.quanta, this.order, this.firsts := a, mix, items, quanta, order, firsts;
      cache := new Cached[slots](_ => Cached(false, 0, 0, 0, []));
      hits, misses := 0, 0;
    }

    /** With or without the cache, at any point of any sequence of lookups, the answer is the store's. */
    method Lookup(key: nat, street: int, actions: int, useCache: bool) returns (p: Option<seq<real>>)
      requires Valid()
      modifies this, cache
      ensures Valid() && p == Answer(items, quanta, key, street, actions)
    {
      if actions <= 0 {
        return None;
      }
      var wanted := Norm(street);
      if useCache && cache.Length > 0 {
        var e := cache[mix(key) % cache.Length];
        if e.valid && e.key == key && e.actions == actions && e.street == wanted {
          hits := hits + 1;
          return Some(e.policy);
        }
      }
      p := Find(a, mix, key, wanted, actions, items, quanta, order, firsts);
      if p.Some? && useCache {
        misses := misses + 1;
        if cache.Length > 0 {
          cache[mix(key) % cache.Length] := Cached(true, key, wanted, actions, p.value);
        }
      }
    }
  }

  /** What a lookup answers is the node's average policy, off by at most one unit of the scale in every action. */
  lemma AnswerIsClose(a: Artifact, items: seq<Item>, mix: nat -> nat, quanta: seq<seq<int>>, order: seq<nat>,
                      firsts: seq<nat>,
                      k: nat, i: nat)
    requires Holds(a, items, mix, quanta, order, firsts) && k < |items| && i < items[k].actions
    requires Q.Distribution(items[k].policy)
    ensures var p := Answer(items, quanta, items[k].key, items[k].street, items[k].actions);
            && p.Some? && |p.value| == items[k].actions
            && -1.0 / Q.Scale(a.narrow) as real <= p.value[i] - items[k].policy[i] <= 1.0 / Q.Scale(a.narrow) as real
  {
    AnswerIs(items, quanta, k, items[k].key, items[k].street, items[k].actions);
    Q.DecodeIsClose(items[k].policy, Q.Scale(a.narrow), quanta[k], i);
  }
}
