/** A worker's touched nodes, counted and then dealt out by key shard in two passes. */
module Partitions {

  /** The shard of an entry; entries out of range of the node table have none. */
  type Sharding = nat -> int

  /** Entries of one shard, in their order. */
  function Filter(list: seq<nat>, shard: Sharding, s: int): (r: seq<nat>)
    ensures |r| <= |list|
  {
    if list == [] then []
    else
      var n := |list| - 1;
      if shard(list[n]) == s then Filter(list[..n], shard, s) + [list[n]] else Filter(list[..n], shard, s)
  }

  /** How many entries the shards below s hold: where shard s starts. */
  function Start(list: seq<nat>, shard: Sharding, s: nat): nat {
    if s == 0 then 0 else Start(list, shard, s - 1) + |Filter(list, shard, s - 1)|
  }

  lemma {:induction false} StartMonotone(list: seq<nat>, shard: Sharding, s: nat, t: nat)
    requires s <= t
    ensures Start(list, shard, s) <= Start(list, shard, t)
    decreases t
  {
    if s < t {
      StartMonotone(list, shard, s, t - 1);
    }
  }

  lemma {:induction false} StartAdds(list: seq<nat>, shard: Sharding, x: nat, s: nat)
    ensures Start(list + [x], shard, s) == Start(list, shard, s) + if 0 <= shard(x) < s then 1 else 0
  {
    if s > 0 {
      StartAdds(list, shard, x, s - 1);
      assert (list + [x])[..|list|] == list;
    }
  }

  /** The shards together hold no more than the list. */
  lemma {:induction false} StartTotal(list: seq<nat>, shard: Sharding, n: nat)
    ensures Start(list, shard, n) <= |list|
  {
    if list == [] {
      StartEmpty(shard, n);
    } else {
      var k := |list| - 1;
      StartTotal(list[..k], shard, n);
      StartAdds(list[..k], shard, list[k], n);
      assert list == list[..k] + [list[k]];
    }
  }

  lemma {:induction false} StartEmpty(shard: Sharding, n: nat)
    ensures Start([], shard, n) == 0
  {
    if n > 0 {
      StartEmpty(shard, n - 1);
    }
  }

  lemma {:induction false} FilterPrefix(list: seq<nat>, shard: Sharding, s: int, i: nat)
    requires i <= |list|
    ensures Filter(list[..i], shard, s) <= Filter(list, shard, s)
    decreases |list|
  {
    if i == |list| {
      assert list[..i] == list;
    } else {
      FilterPrefix(list[..|list| - 1], shard, s, i);
      assert list[..|list| - 1][..i] == list[..i];
    }
  }

  lemma FilterNext(list: seq<nat>, shard: Sharding, s: int, i: nat)
    requires i < |list|
    ensures Filter(list[..i + 1], shard, s) ==
            if shard(list[i]) == s then Filter(list[..i], shard, s) + [list[i]] else Filter(list[..i], shard, s)
  {
    assert list[..i + 1][..i] == list[..i];
  }

  /** Segment s of the output, as far as its cursor has come. */
  ghost predicate Dealt(out: seq<nat>, list: seq<nat>, shard: Sharding, s: nat, i: nat)
    requires i <= |list|
  {
    var part := Filter(list[..i], shard, s);
    var at := Start(list, shard, s);
    at + |part| <= |out| && out[at..at + |part|] == part
  }

  function Cursor(list: seq<nat>, shard: Sharding, s: nat, i: nat): nat
    requires i <= |list|
  {
    Start(list, shard, s) + |Filter(list[..i], shard, s)|
  }

  /** A shard's cursor stays inside its own segment. */
  lemma CursorInSegment(list: seq<nat>, shard: Sharding, s: nat, i: nat)
    requires i <= |list|
    ensures Start(list, shard, s) <= Cursor(list, shard, s, i) <= Start(list, shard, s + 1)
  {
    FilterPrefix(list, shard, s, i);
  }

  lemma OwnSegment(out: seq<nat>, list: seq<nat>, shard: Sharding, n: nat, i: nat, t: nat)
    requires i < |list| && shard(list[i]) == t < n && Start(list, shard, n) <= |out| && Dealt(out, list, shard, t, i)
    ensures Cursor(list, shard, t, i) < |out| && Dealt(out[Cursor(list, shard, t, i) := list[i]], list, shard, t, i + 1)
  {
    FilterNext(list, shard, t, i);
    CursorInSegment(list, shard, t, i + 1);
    StartMonotone(list, shard, t + 1, n);
    var at, part := Start(list, shard, t), Filter(list[..i], shard, t);
    var now := out[Cursor(list, shard, t, i) := list[i]];
    assert now[at..at + |part| + 1] == out[at..at + |part|] + [list[i]];
  }

  lemma OtherSegment(out: seq<nat>, list: seq<nat>, shard: Sharding, n: nat, i: nat, t: nat, s: nat)
    requires i < |list| && shard(list[i]) == t < n && s < n && s != t
    requires Cursor(list, shard, t, i) < |out| && Dealt(out, list, shard, s, i)
    ensures Dealt(out[Cursor(list, shard, t, i) := list[i]], list, shard, s, i + 1)
  {
    FilterNext(list, shard, s, i);
    FilterNext(list, shard, t, i);
    CursorInSegment(list, shard, s, i);
    CursorInSegment(list, shard, t, i + 1);
    CursorInSegment(list, shard, t, i);
    if s < t {
      StartMonotone(list, shard, s + 1, t);
    } else {
      StartMonotone(list, shard, t + 1, s);
    }
    SliceElsewhere(out, Start(list, shard, s), Cursor(list, shard, s, i), Cursor(list, shard, t, i), list[i]);
  }

  lemma SliceElsewhere(out: seq<nat>, lo: nat, hi: nat, at: nat, v: nat)
    requires lo <= hi <= |out| && at < |out| && (at < lo || hi <= at)
    ensures out[at := v][lo..hi] == out[lo..hi]
  {
  }

  ghost predicate AllDealt(out: seq<nat>, list: seq<nat>, shard: Sharding, shards: nat, i: nat)
    requires i <= |list|
  {
    forall s :: 0 <= s < shards ==> Dealt(out, list, shard, s, i)
  }

  ghost predicate AtCursors(positions: seq<nat>, list: seq<nat>, shard: Sharding, i: nat)
    requires i <= |list|
  {
    forall s :: 0 <= s < |positions| ==> positions[s] == Cursor(list, shard, s, i)
  }

  lemma DealStep(out: seq<nat>, positions: seq<nat>, list: seq<nat>, shard: Sharding, i: nat)
    requires i < |list| && 0 <= shard(list[i]) < |positions| && Start(list, shard, |positions|) <= |out|
    requires AllDealt(out, list, shard, |positions|, i) && AtCursors(positions, list, shard, i)
    ensures var t := shard(list[i]);
            && positions[t] < |out|
            && AllDealt(out[positions[t] := list[i]], list, shard, |positions|, i + 1)
            && AtCursors(positions[t := (positions[t] + 1) as nat], list, shard, i + 1)
  {
    var n, t := |positions|, shard(list[i]);
    assert Dealt(out, list, shard, t, i);
    OwnSegment(out, list, shard, n, i, t);
    var now, next := out[positions[t] := list[i]], i + 1;
    forall s | 0 <= s < n
      ensures Dealt(now, list, shard, s, next)
    {
      if s != t {
        assert Dealt(out, list, shard, s, i);
        OtherSegment(out, list, shard, n, i, t, s);
      }
    }
    var moved := positions[t := (positions[t] + 1) as nat];
    forall s | 0 <= s < n
      ensures moved[s] == Cursor(list, shard, s, next)
    {
      FilterNext(list, shard, s, i);
    }
  }

  lemma SkipStep(out: seq<nat>, positions: seq<nat>, list: seq<nat>, shard: Sharding, i: nat)
    requires i < |list| && !(0 <= shard(list[i]) < |positions|)
    requires AllDealt(out, list, shard, |positions|, i) && AtCursors(positions, list, shard, i)
    ensures AllDealt(out, list, shard, |positions|, i + 1) && AtCursors(positions, list, shard, i + 1)
  {
    var next := i + 1;
    forall s | 0 <= s < |positions|
      ensures Dealt(out, list, shard, s, next) && positions[s] == Cursor(list, shard, s, next)
    {
      assert Dealt(out, list, shard, s, i);
      FilterNext(list, shard, s, i);
    }
  }

  lemma NothingDealt(out: seq<nat>, list: seq<nat>, shard: Sharding, shards: nat)
    requires Start(list, shard, shards) <= |out|
    ensures AllDealt(out, list, shard, shards, 0)
  {
    forall s | 0 <= s < shards
      ensures Dealt(out, list, shard, s, 0)
    {
      StartMonotone(list, shard, s, shards);
      assert out[Start(list, shard, s)..Start(list, shard, s)] == [];
    }
  }

  ghost predicate Counted(counts: seq<nat>, list: seq<nat>, shard: Sharding) {
    forall s :: 0 <= s < |counts| ==> counts[s] == |Filter(list, shard, s)|
  }

  lemma CountStep(counts: seq<nat>, list: seq<nat>, shard: Sharding, i: nat)
    requires i < |list| && Counted(counts, list[..i], shard)
    ensures var t := shard(list[i]);
            Counted(if 0 <= t < |counts| then counts[t := (counts[t] + 1) as nat] else counts, list[..i + 1], shard)
  {
    forall s | 0 <= s < |counts|
      ensures |Filter(list[..i + 1], shard, s)| == counts[s] + if shard(list[i]) == s then 1 else 0
    {
      FilterNext(list, shard, s, i);
    }
  }

  method CountShards(list: seq<nat>, shard: Sharding, shards: nat) returns (counts: array<nat>)
    ensures fresh(counts) && counts.Length == shards && Counted(counts[..], list, shard)
  {
    counts := new nat[shards](_ => 0);
    for i := 0 to |list|
      invariant Counted(counts[..], list[..i], shard)
    {
      var t := shard(list[i]);
      ghost var was := counts[..];
      CountStep(was, list, shard, i);
      if 0 <= t < shards {
        counts[t] := counts[t] + 1;
        assert counts[..] == was[t := (was[t] + 1) as nat];
      }
    }
    assert list[..|list|] == list;
  }

  method DealOut(list: seq<nat>, shard: Sharding, out: array<nat>, positions: array<nat>)
    requires out != positions && Start(list, shard, positions.Length) <= out.Length
    requires AtCursors(positions[..], list, shard, 0)
    modifies out, positions
    ensures AllDealt(out[..], list, shard, positions.Length, |list|)
  {
    NothingDealt(out[..], list, shard, positions.Length);
    for i := 0 to |list|
      invariant AtCursors(positions[..], list, shard, i) && AllDealt(out[..], list, shard, positions.Length, i)
    {
      var t := shard(list[i]);
      if 0 <= t < positions.Length {
        ghost var was, cursors := out[..], positions[..];
        DealStep(was, cursors, list, shard, i);
        out[positions[t]] := list[i];
        positions[t] := positions[t] + 1;
        assert out[..] == was[cursors[t] := list[i]] && positions[..] == cursors[t := (cursors[t] + 1) as nat];
      } else {
        SkipStep(out[..], positions[..], list, shard, i);
      }
    }
  }

  /** Segment s of the output holds exactly shard s's entries, in the list's order. */
  ghost predicate Segmented(out: seq<nat>, offsets: seq<nat>, list: seq<nat>, shard: Sharding, s: nat)
    requires s + 1 < |offsets|
  {
    offsets[s] <= offsets[s + 1] <= |out| && out[offsets[s]..offsets[s + 1]] == Filter(list, shard, s)
  }

  lemma StartsAreCursors(positions: seq<nat>, list: seq<nat>, shard: Sharding)
    requires forall s {:trigger positions[s]} :: 0 <= s < |positions| ==> positions[s] == Start(list, shard, s)
    ensures AtCursors(positions, list, shard, 0)
  {
    assert forall s :: Filter(list[..0], shard, s) == [];
  }

  method FillOffsets(list: seq<nat>, shard: Sharding, counts: array<nat>, offsets: array<nat>, positions: array<nat>)
    requires counts.Length == positions.Length && counts.Length < offsets.Length
    requires counts != offsets && counts != positions && offsets != positions
    requires forall s {:trigger counts[s]} :: 0 <= s < counts.Length ==> counts[s] == |Filter(list, shard, s)|
    modifies offsets, positions
    ensures forall s {:trigger offsets[s]} :: 0 <= s <= counts.Length ==> offsets[s] == Start(list, shard, s)
    ensures forall s {:trigger positions[s]} :: 0 <= s < counts.Length ==> positions[s] == Start(list, shard, s)
  {
    offsets[0] := 0;
    for s := 0 to counts.Length
      invariant forall t {:trigger offsets[t]} :: 0 <= t <= s ==> offsets[t] == Start(list, shard, t)
      invariant forall t {:trigger positions[t]} :: 0 <= t < s ==> positions[t] == Start(list, shard, t)
    {
      offsets[s + 1] := offsets[s] + counts[s];
      positions[s] := offsets[s];
    }
  }

  /**
   The two-pass counting partition: every shard's entries form one segment, in
   the list's order; entries of no shard are left out.
   */
  method Partition(list: seq<nat>, shard: Sharding, shards: nat, out: array<nat>, offsets: array<nat>)
    requires |list| <= out.Length && 0 < shards < offsets.Length && out != offsets
    modifies out, offsets
    ensures forall s {:trigger offsets[s]} :: 0 <= s <= shards ==> offsets[s] == Start(list, shard, s)
    ensures forall s :: 0 <= s < shards ==> Segmented(out[..], offsets[..], list, shard, s)
  {
    var counts := CountShards(list, shard, shards);
    var positions := new nat[shards];
    FillOffsets(list, shard, counts, offsets, positions);
    StartTotal(list, shard, shards);
    StartsAreCursors(positions[..], list, shard);
    DealOut(list, shard, out, positions);
    assert list[..|list|] == list;
    forall s | 0 <= s < shards
      ensures Segmented(out[..], offsets[..], list, shard, s)
    {
      assert Dealt(out[..], list, shard, s, |list|);
    }
  }
}
