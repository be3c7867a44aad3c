/**
 The open-addressed index from infoset keys to node numbers: linear probing,
 at most 7/10 full, with a list of used slots so that it can be cleared sparsely.
 */
module KeyIndexes {
  import opened Sequences


  type Key = nat

  /** The slot a key's probe starts at; the mixing of the key's bits is not modelled. */
  function Home(mix: Key -> nat, key: Key, cap: nat): (s: nat)
    requires cap > 0
    ensures s < cap
  {
    mix(key) % cap
  }

  function Next(slot: nat, cap: nat): nat {
    if slot + 1 == cap then 0 else slot + 1
  }

  /** The slot d probes after `home`. */
  function Probe(home: nat, d: nat, cap: nat): nat
    requires home < cap && d < cap
  {
    if home + d < cap then home + d else home + d - cap
  }

  function Dist(home: nat, slot: nat, cap: nat): (d: nat)
    requires home < cap && slot < cap
    ensures d < cap && Probe(home, d, cap) == slot
  {
    if home <= slot then slot - home else slot + cap - home
  }

  /** Every slot probed before `slot` is taken. */
  ghost predicate Chained(vals: seq<nat>, home: nat, slot: nat)
    requires home < |vals| && slot < |vals|
  {
    forall e :: 0 <= e < Dist(home, slot, |vals|) ==> vals[Probe(home, e, |vals|)] != 0
  }

  /** Key k sits at the slot recorded for it, reachable by probing. */
  ghost predicate Sits(keys: seq<Key>, vals: seq<nat>, mix: Key -> nat, k: Key, slot: nat) {
    && |keys| == |vals| && slot < |vals|
    && vals[slot] != 0 && keys[slot] == k
    && Chained(vals, Home(mix, k, |vals|), slot)
  }

  /** A probe that meets a free slot first has passed every slot the key could sit in. */
  lemma FreeSlotEndsProbe(keys: seq<Key>, vals: seq<nat>, mix: Key -> nat, k: Key, free: nat, s: nat)
    requires |keys| == |vals| && free < |vals| && vals[free] == 0
    requires forall e :: 0 <= e < Dist(Home(mix, k, |vals|), free, |vals|) ==>
      keys[Probe(Home(mix, k, |vals|), e, |vals|)] != k
    ensures !Sits(keys, vals, mix, k, s)
  {
    if s < |vals| {
      var home, cap := Home(mix, k, |vals|), |vals|;
      assert Probe(home, Dist(home, s, cap), cap) == s;
      assert vals[Probe(home, Dist(home, free, cap), cap)] == 0;
    }
  }

  /** Filling a free slot moves nobody. */
  lemma SitsStays(keys: seq<Key>, vals: seq<nat>, mix: Key -> nat, k: Key, at: nat, slot: nat, key: Key, v: nat)
    requires Sits(keys, vals, mix, k, at) && slot < |vals| && vals[slot] == 0
    ensures Sits(keys[slot := key], vals[slot := (v + 1) as nat], mix, k, at) && at != slot
  {
  }

  /** Each key maps to its position. */
  ghost predicate Positions(m: map<Key, nat>, keys: seq<Key>) {
    && (forall k :: k in m ==> m[k] < |keys| && keys[m[k]] == k)
    && (forall i :: 0 <= i < |keys| ==> keys[i] in m && m[keys[i]] == i)
  }

  /** Load rule: at most seven slots in ten are used. */
  predicate RoomFor(used: nat, cap: nat) {
    10 * used <= 7 * cap
  }

  lemma {:induction false} SlotsBound(slots: seq<nat>, cap: nat)
    requires Distinct(slots) && forall s :: 0 <= s < cap ==> s in slots
    ensures |slots| >= cap
  {
    if cap > 0 {
      assert cap - 1 in slots;
      var i :| 0 <= i < |slots| && slots[i] == cap - 1;
      var rest := slots[..i] + slots[i + 1..];
      forall s | 0 <= s < cap - 1
        ensures s in rest
      {
        assert s in slots;
        var j :| 0 <= j < |slots| && slots[j] == s;
        assert rest[if j < i then j else j - 1] == s;
      }
      SlotsBound(rest, cap - 1);
    }
  }

  lemma PositionsExtend(m: map<Key, nat>, keys: seq<Key>, n: nat)
    requires n < |keys| && Distinct(keys) && Positions(m, keys[..n])
    ensures keys[n] !in m && Positions(m[keys[n] := n], keys[..n + 1])
  {
    assert keys[..n + 1] == keys[..n] + [keys[n]];
  }

  /** The listed slots are exactly those in use, each once. */
  ghost predicate UsedSlots(list: seq<nat>, vals: seq<nat>) {
    && Distinct(list)
    && (forall i :: 0 <= i < |list| ==> list[i] < |vals| && vals[list[i]] != 0)
    && (forall s :: 0 <= s < |vals| && vals[s] != 0 ==> s in list)
  }

  /** Each key sits in its own slot and each used slot belongs to its key. */
  ghost predicate Table(keys: seq<Key>, vals: seq<nat>, mix: Key -> nat, contents: map<Key, nat>, at: map<Key, nat>) {
    && |keys| == |vals| && contents.Keys == at.Keys
    && (forall k :: k in at ==> Sits(keys, vals, mix, k, at[k]) && vals[at[k]] == contents[k] + 1)
    && (forall s :: 0 <= s < |vals| && vals[s] != 0 ==> keys[s] in at && at[keys[s]] == s)
  }

  lemma UsedInsert(list: seq<nat>, vals: seq<nat>, slot: nat, v: nat)
    requires UsedSlots(list, vals) && slot < |vals| && vals[slot] == 0
    ensures UsedSlots(list + [slot], vals[slot := (v + 1) as nat])
  {
  }

  lemma TableInsert(keys: seq<Key>, vals: seq<nat>, mix: Key -> nat, contents: map<Key, nat>, at: map<Key, nat>,
                    key: Key, slot: nat, v: nat)
    requires Table(keys, vals, mix, contents, at) && key !in contents && slot < |vals| && vals[slot] == 0
    requires Chained(vals, Home(mix, key, |vals|), slot)
    ensures Table(keys[slot := key], vals[slot := (v + 1) as nat], mix, contents[key := v], at[key := slot])
  {
    forall k | k in at
      ensures Sits(keys[slot := key], vals[slot := (v + 1) as nat], mix, k, at[k]) && at[k] != slot
    {
      SitsStays(keys, vals, mix, k, at[k], slot, key, v);
    }
  }

  lemma EmptyTable(keys: seq<Key>, vals: seq<nat>, mix: Key -> nat)
    requires |keys| == |vals| && forall s :: 0 <= s < |vals| ==> vals[s] == 0
    ensures UsedSlots([], vals) && Table(keys, vals, mix, map[], map[])
  {
  }

  class KeyIndex {
    const mix: Key -> nat
    var keys: array<Key>
    var vals: array<nat>
    var slots: array<nat>
    var used: nat
    ghost var Contents: map<Key, nat>
    ghost var Slot: map<Key, nat>
    ghost var Repr: set<object>

    ghost predicate Shape()
      reads this
    {
      && Repr == {this, keys, vals, slots} && keys != vals && keys != slots && vals != slots
      && 0 < keys.Length == vals.Length == slots.Length
      && RoomFor(used, keys.Length)
    }

    ghost predicate Listed()
      requires Shape()
      reads Repr
    {
      UsedSlots(slots[..used], vals[..])
    }

    ghost predicate Mapped()
      requires Shape()
      reads Repr
    {
      Table(keys[..], vals[..], mix, Contents, Slot)
    }

    ghost predicate Valid()
      reads this, Repr
      ensures Valid() ==> this in Repr
    {
      Shape() && Listed() && Mapped()
    }

    constructor (mix: Key -> nat, cap: nat)
      requires 0 < cap
      ensures Valid() && fresh(Repr) && this.mix == mix && keys.Length == cap && Contents == map[] && used == 0
    {
      this.mix := mix;
      keys := new Key[cap](_ => 0);
      vals := new nat[cap](_ => 0);
      slots := new nat[cap](_ => 0);
      used := 0;
      Contents := map[];
      Slot := map[];
      new;
      Repr := {this, keys, vals, slots};
      EmptyTable(keys[..], vals[..], mix);
      assert slots[..0] == [];
    }

    lemma SomeSlotFree() returns (s: nat)
      requires Valid()
      ensures s < vals.Length && vals[s] == 0
    {
      if forall s :: 0 <= s < vals.Length ==> vals[s] != 0 {
        SlotsBound(slots[..used], vals.Length);
      }
      s :| 0 <= s < vals.Length && vals[s] == 0;
    }

    /** Probes for a key: its slot, or the free slot where it belongs. */
    method FindSlot(key: Key) returns (slot: nat, found: bool)
      requires Valid()
      ensures slot < vals.Length && found == (key in Contents)
      ensures found ==> slot == Slot[key] && vals[slot] == Contents[key] + 1
      ensures !found ==> vals[slot] == 0 && Chained(vals[..], Home(mix, key, vals.Length), slot)
    {
      var cap := keys.Length;
      ghost var home, ks, vs := Home(mix, key, cap), keys[..], vals[..];
      ghost var free := SomeSlotFree();
      ghost var d := 0;
      slot := Home(mix, key, cap);
      while vals[slot] != 0 && keys[slot] != key
        invariant 0 <= d <= Dist(home, free, cap) && slot == Probe(home, d, cap)
        invariant forall e :: 0 <= e < d ==> vs[Probe(home, e, cap)] != 0 && ks[Probe(home, e, cap)] != key
        decreases cap - d
      {
        slot := Next(slot, cap);
        d := d + 1;
      }
      found := vals[slot] != 0;
      assert Dist(home, slot, cap) == d;
      if !found && key in Slot {
        FreeSlotEndsProbe(ks, vs, mix, key, slot, Slot[key]);
      }
    }

    /** Fills the free slot that a failed probe ended at. */
    method Insert(key: Key, slot: nat, v: nat)
      requires Valid() && key !in Contents && RoomFor(used + 1, keys.Length)
      requires slot < vals.Length && vals[slot] == 0 && Chained(vals[..], Home(mix, key, vals.Length), slot)
      modifies this`used, this`Contents, this`Slot, keys, vals, slots
      ensures Valid() && Contents == old(Contents)[key := v] && used == old(used) + 1
    {
      ghost var was, vs, ks := slots[..used], vals[..], keys[..];
      keys[slot] := key;
      vals[slot] := v + 1;
      slots[used] := slot;
      used := used + 1;
      Contents := Contents[key := v];
      Slot := Slot[key := slot];
      assert slots[..used] == was + [slot];
      assert keys[..] == ks[slot := key] && vals[..] == vs[slot := (v + 1) as nat];
      UsedInsert(was, vs, slot, v);
      TableInsert(ks, vs, mix, old(Contents), old(Slot), key, slot, v);
    }

    method ZeroUsed()
      requires Shape() && Listed()
      modifies keys, vals
      ensures Shape() && forall s :: 0 <= s < vals.Length ==> vals[s] == 0
    {
      ghost var list := slots[..used];
      for i := 0 to used
        modifies keys, vals
        invariant forall s {:trigger vals[s]} :: 0 <= s < vals.Length && vals[s] != 0 ==> s in list[i..]
      {
        assert list[i] == slots[i] && list[i..] == [slots[i]] + list[i + 1..];
        keys[slots[i]] := 0;
        vals[slots[i]] := 0;
      }
    }

    /** Empties exactly the listed slots, which are all that hold anything. */
    method ClearSparse()
      requires Valid()
      modifies this`used, this`Contents, this`Slot, keys, vals
      ensures Valid() && Contents == map[] && used == 0 && keys.Length == old(keys.Length)
    {
      ZeroUsed();
      used := 0;
      Contents := map[];
      Slot := map[];
      EmptyTable(keys[..], vals[..], mix);
      assert slots[..0] == [];
    }

    method StartOver(cap: nat)
      requires 0 < cap
      modifies this
      ensures Valid() && fresh(Repr - {this}) && keys.Length == cap && Contents == map[] && used == 0
    {
      keys := new Key[cap](_ => 0);
      vals := new nat[cap](_ => 0);
      slots := new nat[cap](_ => 0);
      used := 0;
      Contents := map[];
      Slot := map[];
      Repr := {this, keys, vals, slots};
      EmptyTable(keys[..], vals[..], mix);
      assert slots[..0] == [];
    }

    method Enter(key: Key, v: nat)
      requires Valid() && key !in Contents && RoomFor(used + 1, keys.Length)
      modifies this`used, this`Contents, this`Slot, keys, vals, slots
      ensures Valid() && Contents == old(Contents)[key := v] && used == old(used) + 1
    {
      var slot, _ := FindSlot(key);
      Insert(key, slot, v);
    }

    /** Starts over in fresh arrays and enters every node's key. */
    method Rehash(cap: nat, nodeKeys: seq<Key>)
      requires Valid() && 0 < cap && RoomFor(|nodeKeys|, cap) && Distinct(nodeKeys)
      modifies this
      ensures Valid() && fresh(Repr - {this}) && keys.Length == cap
      ensures Positions(Contents, nodeKeys) && used == |nodeKeys|
    {
      StartOver(cap);
      for i := 0 to |nodeKeys|
        modifies this`used, this`Contents, this`Slot, keys, vals, slots
        invariant Valid() && used == i && Positions(Contents, nodeKeys[..i])
      {
        PositionsExtend(Contents, nodeKeys, i);
        Enter(nodeKeys[i], i);
      }
      assert nodeKeys[..|nodeKeys|] == nodeKeys;
    }

    /** Doubles the table when another entry would break the load rule. */
    method EnsureRoom(nodeKeys: seq<Key>)
      requires Valid() && used == |nodeKeys| && Distinct(nodeKeys) && Positions(Contents, nodeKeys)
      modifies this
      ensures Valid() && fresh(Repr - old(Repr)) && RoomFor(used + 1, keys.Length)
      ensures Positions(Contents, nodeKeys) && used == |nodeKeys|
      ensures keys.Length == old(keys.Length) * if 10 * (used + 1) <= 7 * old(keys.Length) then 1 else 2
    {
      if !RoomFor(used + 1, keys.Length) {
        Rehash(keys.Length * 2, nodeKeys);
      }
    }
  }
}
