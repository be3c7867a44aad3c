/**
 The infoset store's operations as functions: looking keys up for reading and for
 writing, discounting, the overlay that reads through to a base, saving and
 loading. Over any run of them an overlay and its base stand for two plain maps.
 */
module Stores {
  import opened Options
  import opened Arenas

  // ----- looking up -----

  /** The payload a missing key starts from: a copy of what the base holds now, or zeros. */
  function Fresh(s: Store, base: Option<Store>, key: Key, actions: nat, street: int): (p: Payload)
    requires base.Some? ==> AllFit(base.value)
    requires 1 <= actions <= MAX_ACTIONS
    ensures WholePayload(p)
  {
    if base.Some? && Find(base.value.nodes, key).Some? then
      var b := PayloadOf(base.value, base.value.nodes[Find(base.value.nodes, key).value]);
      Extended(Current(b, base.value.scale), actions).(stamp := Mark(s.scale))
    else Blank(actions, street, s.omitPostflop, Mark(s.scale))
  }

  function BaseIndex(base: Option<Store>, key: Key): Option<nat> {
    if base.None? then None else Find(base.value.nodes, key)
  }

  lemma GrowFits(s: Store, i: nat, n: nat)
    requires i < |s.nodes| && Fits(s, s.nodes[i]) && 1 <= n <= MAX_ACTIONS
    ensures i < |Grow(s, i, n).nodes| && Fits(Grow(s, i, n), Grow(s, i, n).nodes[i])
  {
  }

  /** Makes room in a node and brings it up to date. */
  function Refreshed(s: Store, i: nat, n: nat): Store
    requires i < |s.nodes| && Fits(s, s.nodes[i]) && 1 <= n <= MAX_ACTIONS
  {
    GrowFits(s, i, n);
    SyncNode(Grow(s, i, n), i)
  }

  /** Looks a key up for writing: finds it, makes room and applies what is pending, or creates it. */
  function Touch(s: Store, base: Option<Store>, key: Key, actions: int, street: int): Store
    requires AllFit(s)
    requires base.Some? ==> AllFit(base.value)
  {
    var n := ClampActions(actions);
    var i := Find(s.nodes, key);
    if i.Some? then Refreshed(s, i.value, n)
    else Append(s, key, Fresh(s, base, key, n, street), BaseIndex(base, key))
  }

  lemma TouchFinds(s: Store, base: Option<Store>, key: Key, i: nat, actions: int, street: int)
    requires AllFit(s) && (base.Some? ==> AllFit(base.value)) && Find(s.nodes, key) == Some(i)
    ensures Touch(s, base, key, actions, street) == Refreshed(s, i, ClampActions(actions))
  {
  }

  /** What looking a key up for reading does to the store that has it: a pending discount is applied. */
  function Looked(s: Store, key: Key): Store
    requires AllFit(s)
  {
    var i := Find(s.nodes, key);
    if i.Some? then SyncNode(s, i.value) else s
  }

  /** What reading a key of this store alone gives. */
  function ReadOwn(s: Store, key: Key): (p: Option<Payload>)
    requires AllFit(s)
    ensures p.Some? <==> Find(s.nodes, key).Some?
    ensures p.Some? ==> WholePayload(p.value)
  {
    var i := Find(s.nodes, key);
    if i.Some? then Some(Current(PayloadOf(s, s.nodes[i.value]), s.scale)) else None
  }

  /** A read falls through to the base until there is a local copy. */
  function Read(s: Store, base: Option<Store>, key: Key): (p: Option<Payload>)
    requires AllFit(s)
    requires base.Some? ==> AllFit(base.value)
  {
    if Find(s.nodes, key).None? && base.Some? then ReadOwn(base.value, key) else ReadOwn(s, key)
  }

  function Reset(s: Store): Store {
    Store([], [], [], s.omitPostflop, 1.0)
  }

  // ----- discounting -----

  const RESCALE_BELOW := 1.0 / 1_000_000_000_000.0

  /** The scale after a discount by a factor in (0, 1); any other factor leaves it alone. */
  function Lowered(scale: real, factor: real): real {
    if factor <= 0.0 || factor >= 1.0 then scale else Mark(scale) * factor
  }

  predicate MustRescale(scale: real, factor: real) {
    0.0 < factor < 1.0 && Mark(scale) * factor < RESCALE_BELOW
  }

  function NextScale(scale: real, factor: real): real {
    if MustRescale(scale, factor) then 1.0 else Lowered(scale, factor)
  }

  /** A discount changes only the scale, until that gets too small: every node is synced and the scale starts over. */
  ghost function Discounted(s: Store, factor: real): (r: Store)
    requires Ok(s)
    ensures Ok(r)
  {
    var d := s.(scale := Lowered(s.scale, factor));
    ScaleOk(s, d.scale);
    if MustRescale(s.scale, factor) then
      var r := SyncAll(d, |d.nodes|);
      ScaleOk(r, 1.0);
      r.(scale := 1.0)
    else d
  }

  /** What an event makes of the scale: lower by the factor, or 1 again once that would fall below 1e-12. */
  lemma EventSetsScale(s: Store, factor: real)
    requires Ok(s) && 0.0 < s.scale
    ensures Discounted(s, factor).scale == NextScale(s.scale, factor)
    ensures 0.0 < factor < 1.0 ==>
              NextScale(s.scale, factor) ==
              if s.scale * factor * 1_000_000_000_000.0 < 1.0 then 1.0 else s.scale * factor
    ensures factor <= 0.0 || 1.0 <= factor ==> Discounted(s, factor) == s
  {
    var x := s.scale * factor;
    assert x < RESCALE_BELOW <==> x * 1_000_000_000_000.0 < 1.0;
    assert s.(scale := s.scale) == s;
  }

  lemma ScaleOk(s: Store, scale: real)
    requires Ok(s)
    ensures Ok(s.(scale := scale)) && Model(s.(scale := scale)) == Model(s)
  {
    var r := s.(scale := scale);
    assert forall i :: 0 <= i < |s.nodes| ==> Fits(s, s.nodes[i]) ==> Fits(r, r.nodes[i]);
    assert forall k :: k in Model(s) ==> Model(r)[k] == Model(s)[k];
    SameEntries(Model(r), Model(s));
  }

  // ----- the same on plain maps -----

  /** A map from keys to payloads, each stamped, and the scale they are read at. */
  datatype Flat = Flat(entries: map<Key, Payload>, scale: real, omitPostflop: bool)

  ghost predicate WholeFlat(f: Flat) {
    Whole(f.entries)
  }

  ghost function Flatten(s: Store): (f: Flat)
    requires Ok(s)
    ensures WholeFlat(f)
  {
    Flat(Model(s), s.scale, s.omitPostflop)
  }

  ghost function FlatRead(f: Flat, key: Key): Option<Payload> {
    if key in f.entries then Some(Current(f.entries[key], f.scale)) else None
  }

  ghost function FlatLooked(f: Flat, key: Key): Flat {
    if key in f.entries then f.(entries := f.entries[key := Current(f.entries[key], f.scale)]) else f
  }

  ghost function FlatWanted(f: Flat, base: Option<Flat>, key: Key, actions: nat, street: int): Flat
    requires WholeFlat(f) && (base.Some? ==> WholeFlat(base.value))
  {
    var own, theirs := FlatRead(f, key), if base.Some? then FlatRead(base.value, key) else None;
    var p := if own.Some? then Extended(own.value, actions)
             else if theirs.Some? then Extended(theirs.value, actions).(stamp := Mark(f.scale))
             else Blank(actions, street, f.omitPostflop, Mark(f.scale));
    f.(entries := f.entries[key := p])
  }

  ghost function FlatDiscounted(f: Flat, factor: real): Flat {
    var scale := Lowered(f.scale, factor);
    if MustRescale(f.scale, factor) then f.(entries := AllCurrent(f.entries, scale), scale := 1.0)
    else f.(scale := scale)
  }

  lemma SyncFlat(s: Store, i: nat)
    requires Ok(s) && i < |s.nodes|
    ensures Ok(SyncNode(s, i)) && s.nodes[i].key in Model(s)
    ensures Flatten(SyncNode(s, i)) == FlatLooked(Flatten(s), s.nodes[i].key)
  {
    SyncModel(s, i);
  }

  lemma GrowFlat(s: Store, i: nat, n: nat)
    requires Ok(s) && i < |s.nodes| && 1 <= n <= MAX_ACTIONS
    ensures var r := Grow(s, i, n); var key := s.nodes[i].key;
            && Ok(r) && i < |r.nodes| && r.nodes[i].key == key && key in Model(s)
            && Flatten(r) == Flatten(s).(entries := Model(s)[key := Extended(Model(s)[key], n)])
  {
    GrowModel(s, i, n);
  }

  lemma GrownThenLooked(f: Flat, key: Key, n: nat)
    requires WholeFlat(f) && key in f.entries && n <= MAX_ACTIONS
    ensures FlatLooked(f.(entries := f.entries[key := Extended(f.entries[key], n)]), key) ==
            f.(entries := f.entries[key := Extended(Current(f.entries[key], f.scale), n)])
  {
    CurrentExtended(f.entries[key], n, f.scale);
    SameEntries(f.entries[key := Extended(f.entries[key], n)][key := Extended(Current(f.entries[key], f.scale), n)],
                f.entries[key := Extended(Current(f.entries[key], f.scale), n)]);
  }

  lemma RefreshedFlat(s: Store, i: nat, n: nat)
    requires Ok(s) && i < |s.nodes| && 1 <= n <= MAX_ACTIONS
    ensures var r, key := Refreshed(s, i, n), s.nodes[i].key;
            && Ok(r) && key in Model(s)
            && Flatten(r) == Flatten(s).(entries := Model(s)[key := Extended(Current(Model(s)[key], s.scale), n)])
  {
    GrowFlat(s, i, n);
    SyncFlat(Grow(s, i, n), i);
    GrownThenLooked(Flatten(s), s.nodes[i].key, n);
  }

  lemma CreatedFlat(s: Store, base: Option<Store>, key: Key, n: nat, street: int)
    requires Ok(s) && (base.Some? ==> Ok(base.value)) && Find(s.nodes, key).None? && 1 <= n <= MAX_ACTIONS
    ensures var r := Append(s, key, Fresh(s, base, key, n, street), BaseIndex(base, key));
            Ok(r) && Flatten(r) == FlatWanted(Flatten(s), FlatBase(base), key, n, street)
  {
    AppendModel(s, key, Fresh(s, base, key, n, street), BaseIndex(base, key));
  }

  lemma TouchFlat(s: Store, base: Option<Store>, key: Key, actions: int, street: int)
    requires Ok(s) && (base.Some? ==> Ok(base.value))
    ensures var r := Touch(s, base, key, actions, street);
            Ok(r) && Flatten(r) == FlatWanted(Flatten(s), FlatBase(base), key, ClampActions(actions), street)
  {
    var i := Find(s.nodes, key);
    if i.Some? {
      RefreshedFlat(s, i.value, ClampActions(actions));
    } else {
      CreatedFlat(s, base, key, ClampActions(actions), street);
    }
  }

  ghost function FlatBase(base: Option<Store>): (f: Option<Flat>)
    requires base.Some? ==> Ok(base.value)
    ensures f.Some? ==> WholeFlat(f.value)
  {
    if base.None? then None else Some(Flatten(base.value))
  }

  lemma LookedFlat(s: Store, key: Key)
    requires Ok(s)
    ensures Ok(Looked(s, key)) && Flatten(Looked(s, key)) == FlatLooked(Flatten(s), key)
  {
    var i := Find(s.nodes, key);
    if i.Some? {
      SyncModel(s, i.value);
    }
  }

  lemma DiscountedFlat(s: Store, factor: real)
    requires Ok(s)
    ensures Flatten(Discounted(s, factor)) == FlatDiscounted(Flatten(s), factor)
  {
    var d := s.(scale := Lowered(s.scale, factor));
    ScaleOk(s, d.scale);
    if MustRescale(s.scale, factor) {
      SyncAllModel(d);
      ScaleOk(SyncAll(d, |d.nodes|), 1.0);
    }
  }

  // ----- whole runs -----

  /** A store and the base it overlays, if it is attached to one. */
  datatype Overlay = Overlay(own: Store, base: Option<Store>)

  datatype Op =
    | Want(key: Key, actions: int, street: int)
    | Look(key: Key)
    | PutRegret(key: Key, a: nat, v: int)
    | PutStrategy(key: Key, a: nat, x: real)
    | Discount(factor: real)
    | Clear
    | Attach(to: Store)

  ghost predicate OkOverlay(o: Overlay) {
    Ok(o.own) && (o.base.Some? ==> Ok(o.base.value))
  }

  ghost predicate OkOp(op: Op) {
    op.Attach? ==> Ok(op.to)
  }

  function PutRegretAt(s: Store, key: Key, a: nat, v: int): Store
    requires AllFit(s)
  {
    var i := Find(s.nodes, key);
    if i.Some? && a < s.nodes[i.value].actions then SetRegret(s, i.value, a, v) else s
  }

  function PutStrategyAt(s: Store, key: Key, a: nat, x: real): Store
    requires AllFit(s)
  {
    var i := Find(s.nodes, key);
    if i.Some? && a < s.nodes[i.value].actions && s.nodes[i.value].strategyAt.Some?
    then SetStrategy(s, i.value, a, x) else s
  }

  /** What a read does: to the base, while there is no local copy. */
  function LookedThrough(o: Overlay, key: Key): Overlay
    requires AllFit(o.own) && (o.base.Some? ==> AllFit(o.base.value))
  {
    if Find(o.own.nodes, key).None? && o.base.Some? then o.(base := Some(Looked(o.base.value, key)))
    else o.(own := Looked(o.own, key))
  }

  /** One operation; writes go to cells of keys looked up before, attaching starts from an empty store. */
  ghost function Apply(o: Overlay, op: Op): Overlay
    requires OkOverlay(o)
  {
    match op
    case Want(key, actions, street) => o.(own := Touch(o.own, o.base, key, actions, street))
    case Look(key) => LookedThrough(o, key)
    case PutRegret(key, a, v) => o.(own := PutRegretAt(o.own, key, a, v))
    case PutStrategy(key, a, x) => o.(own := PutStrategyAt(o.own, key, a, x))
    case Discount(factor) => o.(own := Discounted(o.own, factor))
    case Clear => Overlay(Reset(o.own), None)
    case Attach(to) => Overlay(Reset(o.own).(omitPostflop := to.omitPostflop), Some(to))
  }

  /** The same two maps. */
  datatype FlatOverlay = FlatOverlay(own: Flat, base: Option<Flat>)

  ghost predicate WholeOverlay(o: FlatOverlay) {
    WholeFlat(o.own) && (o.base.Some? ==> WholeFlat(o.base.value))
  }

  ghost function FlattenOverlay(o: Overlay): (f: FlatOverlay)
    requires OkOverlay(o)
    ensures WholeOverlay(f)
  {
    FlatOverlay(Flatten(o.own), FlatBase(o.base))
  }

  ghost function FlatPutRegret(f: Flat, key: Key, a: nat, v: int): (r: Flat)
    ensures WholeFlat(f) ==> WholeFlat(r)
  {
    if key in f.entries && a < |f.entries[key].regrets| then
      f.(entries := f.entries[key := f.entries[key].(regrets := f.entries[key].regrets[a := v])])
    else f
  }

  ghost function FlatPutStrategy(f: Flat, key: Key, a: nat, x: real): (r: Flat)
    requires WholeFlat(f)
    ensures WholeFlat(r)
  {
    if key in f.entries && a < |f.entries[key].regrets| && f.entries[key].strategy.Some? then
      var p := f.entries[key];
      f.(entries := f.entries[key := p.(strategy := Some(p.strategy.value[a := x]))])
    else f
  }

  ghost function FlatReset(omitPostflop: bool): Flat {
    Flat(map[], 1.0, omitPostflop)
  }

  ghost function ApplyFlat(o: FlatOverlay, op: Op): (r: FlatOverlay)
    requires WholeOverlay(o) && OkOp(op)
    ensures WholeOverlay(r)
  {
    match op
    case Want(key, actions, street) => o.(own := FlatWanted(o.own, o.base, key, ClampActions(actions), street))
    case Look(key) =>
      if key !in o.own.entries && o.base.Some? then o.(base := Some(FlatLooked(o.base.value, key)))
      else o.(own := FlatLooked(o.own, key))
    case PutRegret(key, a, v) => o.(own := FlatPutRegret(o.own, key, a, v))
    case PutStrategy(key, a, x) => o.(own := FlatPutStrategy(o.own, key, a, x))
    case Discount(factor) => o.(own := FlatDiscounted(o.own, factor))
    case Clear => FlatOverlay(FlatReset(o.own.omitPostflop), None)
    case Attach(to) => FlatOverlay(FlatReset(to.omitPostflop), Some(Flatten(to)))
  }

  lemma PutRegretFlat(s: Store, key: Key, a: nat, v: int)
    requires Ok(s)
    ensures Ok(PutRegretAt(s, key, a, v))
    ensures Flatten(PutRegretAt(s, key, a, v)) == FlatPutRegret(Flatten(s), key, a, v)
  {
    var i := Find(s.nodes, key);
    if i.Some? && a < s.nodes[i.value].actions {
      SetRegretModel(s, i.value, a, v);
    }
  }

  lemma PutStrategyFlat(s: Store, key: Key, a: nat, x: real)
    requires Ok(s)
    ensures Ok(PutStrategyAt(s, key, a, x))
    ensures Flatten(PutStrategyAt(s, key, a, x)) == FlatPutStrategy(Flatten(s), key, a, x)
  {
    var i := Find(s.nodes, key);
    if i.Some? && a < s.nodes[i.value].actions && s.nodes[i.value].strategyAt.Some? {
      SetStrategyModel(s, i.value, a, x);
    }
  }

  lemma ResetFlat(s: Store, omitPostflop: bool)
    ensures Ok(Reset(s).(omitPostflop := omitPostflop))
    ensures Flatten(Reset(s).(omitPostflop := omitPostflop)) == FlatReset(omitPostflop)
  {
    assert Model(Reset(s).(omitPostflop := omitPostflop)) == map[];
  }

  /** Each operation acts on the maps, whatever moved in the arenas. */
  lemma ApplyRefines(o: Overlay, op: Op)
    requires OkOverlay(o) && OkOp(op)
    ensures OkOverlay(Apply(o, op)) && FlattenOverlay(Apply(o, op)) == ApplyFlat(FlattenOverlay(o), op)
  {
    match op {
      case Want(key, actions, street) => TouchFlat(o.own, o.base, key, actions, street);
      case Look(key) =>
        LookedFlat(o.own, key);
        if o.base.Some? {
          LookedFlat(o.base.value, key);
        }
      case PutRegret(key, a, v) => PutRegretFlat(o.own, key, a, v);
      case PutStrategy(key, a, x) => PutStrategyFlat(o.own, key, a, x);
      case Discount(factor) => DiscountedFlat(o.own, factor);
      case Clear => ResetFlat(o.own, o.own.omitPostflop);
      case Attach(to) => ResetFlat(o.own, to.omitPostflop);
    }
  }

  ghost predicate OkOps(ops: seq<Op>) {
    forall i :: 0 <= i < |ops| ==> OkOp(ops[i])
  }

  ghost function RunFlat(o: FlatOverlay, ops: seq<Op>): (r: FlatOverlay)
    requires WholeOverlay(o) && OkOps(ops)
    ensures WholeOverlay(r)
  {
    if ops == [] then o else ApplyFlat(RunFlat(o, ops[..|ops| - 1]), ops[|ops| - 1])
  }

  /** No operation can go wrong: every run has a result. */
  ghost function Run(o: Overlay, ops: seq<Op>): (r: Overlay)
    requires OkOverlay(o) && OkOps(ops)
    ensures OkOverlay(r)
  {
    if ops == [] then o
    else
      var m := Run(o, ops[..|ops| - 1]);
      ApplyRefines(m, ops[|ops| - 1]);
      Apply(m, ops[|ops| - 1])
  }

  /** Over any run of operations the overlay and its base stand for what the plain maps hold. */
  lemma {:induction false} RunsRefine(o: Overlay, ops: seq<Op>)
    requires OkOverlay(o) && OkOps(ops)
    ensures FlattenOverlay(Run(o, ops)) == RunFlat(FlattenOverlay(o), ops)
  {
    if ops != [] {
      RunsRefine(o, ops[..|ops| - 1]);
      ApplyRefines(Run(o, ops[..|ops| - 1]), ops[|ops| - 1]);
    }
  }

  /** Reading through the overlay is looking up in the maps. */
  lemma ReadsRefine(o: Overlay, key: Key)
    requires OkOverlay(o)
    ensures var f := FlattenOverlay(o);
            Read(o.own, o.base, key) ==
            if key in f.own.entries || f.base.None? then FlatRead(f.own, key) else FlatRead(f.base.value, key)
  {
    assert Find(o.own.nodes, key).Some? <==> key in Model(o.own);
    if o.base.Some? {
      assert Find(o.base.value.nodes, key).Some? <==> key in Model(o.base.value);
    }
  }

  // ----- the overlay -----

  /** What a write access leaves to be read. */
  function ReadAfterTouch(s: Store, base: Option<Store>, key: Key, actions: nat, street: int): Payload
    requires AllFit(s) && (base.Some? ==> AllFit(base.value))
  {
    var seen := Read(s, base, key);
    if seen.None? then Blank(actions, street, s.omitPostflop, Mark(s.scale))
    else if Find(s.nodes, key).Some? then Extended(seen.value, actions)
    else Extended(seen.value, actions).(stamp := Mark(s.scale))
  }

  lemma WantedReads(f: Flat, base: Option<Flat>, key: Key, actions: nat, street: int, k: Key)
    requires WholeFlat(f) && (base.Some? ==> WholeFlat(base.value))
    ensures k != key ==> FlatRead(FlatWanted(f, base, key, actions, street), k) == FlatRead(f, k)
    ensures FlatRead(FlatWanted(f, base, key, actions, street), key) ==
            Some(FlatWanted(f, base, key, actions, street).entries[key])
  {
  }

  /** The first write access copies what a read saw, extended with zeros; other keys read as before. */
  lemma TouchReads(s: Store, base: Option<Store>, key: Key, actions: int, street: int, k: Key)
    requires Ok(s) && (base.Some? ==> Ok(base.value))
    ensures var r := Touch(s, base, key, actions, street);
            && Ok(r) && Find(r.nodes, key).Some?
            && Read(r, base, k) ==
               if k != key then Read(s, base, k)
               else Some(ReadAfterTouch(s, base, key, ClampActions(actions), street))
  {
    hide Touch, Current, Extended, Blank, Apart, Fits;
    var r := Touch(s, base, key, actions, street);
    TouchFlat(s, base, key, actions, street);
    ReadsRefine(Overlay(s, base), k);
    ReadsRefine(Overlay(r, base), k);
    WantedReads(Flatten(s), FlatBase(base), key, ClampActions(actions), street, k);
    assert key in Model(r);
  }

  /** Looking a key up for reading changes what is stored, never what is read. */
  lemma LookReads(s: Store, key: Key, k: Key)
    requires Ok(s)
    ensures Ok(Looked(s, key)) && ReadOwn(Looked(s, key), k) == ReadOwn(s, k)
  {
    LookedFlat(s, key);
    ReadsRefine(Overlay(s, None), k);
    ReadsRefine(Overlay(Looked(s, key), None), k);
  }

  /** Until it is reset or attached elsewhere, whatever is done to an overlay, its base reads as before. */
  lemma {:induction false} BaseReadsAsBefore(o: Overlay, ops: seq<Op>, key: Key)
    requires OkOverlay(o) && OkOps(ops) && o.base.Some?
    requires forall i :: 0 <= i < |ops| ==> !ops[i].Clear? && !ops[i].Attach?
    ensures Run(o, ops).base.Some? && ReadOwn(Run(o, ops).base.value, key) == ReadOwn(o.base.value, key)
  {
    if ops != [] {
      var m, op := Run(o, ops[..|ops| - 1]), ops[|ops| - 1];
      BaseReadsAsBefore(o, ops[..|ops| - 1], key);
      if op.Look? {
        LookReads(m.base.value, op.key, key);
      }
    }
  }

  // ----- links to the base -----

  /** Nodes remember the base node of their own key. */
  ghost predicate LinksTrue(s: Store, base: seq<Node>) {
    forall i :: 0 <= i < |s.nodes| && s.nodes[i].base.Some? ==> s.nodes[i].base == Find(base, s.nodes[i].key)
  }

  ghost predicate Linked(o: Overlay) {
    o.base.Some? ==> LinksTrue(o.own, o.base.value.nodes)
  }

  lemma SameLinks(s: Store, r: Store, base: seq<Node>)
    requires LinksTrue(s, base) && |r.nodes| == |s.nodes|
    requires forall i :: 0 <= i < |s.nodes| ==> r.nodes[i].key == s.nodes[i].key && r.nodes[i].base == s.nodes[i].base
    ensures LinksTrue(r, base)
  {
  }

  lemma SyncNextLinks(s: Store, k: nat, base: seq<Node>)
    requires Ok(s) && k < |s.nodes| && LinksTrue(SyncAll(s, k), base)
    ensures LinksTrue(SyncAll(s, k + 1), base)
  {
    SameLinks(SyncAll(s, k), SyncAll(s, k + 1), base);
  }

  lemma SyncAllLinks(s: Store, base: seq<Node>)
    requires Ok(s) && LinksTrue(s, base)
    ensures LinksTrue(SyncAll(s, |s.nodes|), base)
  {
    for k := 0 to |s.nodes|
      invariant LinksTrue(SyncAll(s, k), base)
    {
      SyncNextLinks(s, k, base);
    }
  }

  lemma TouchLinks(s: Store, base: Store, key: Key, actions: int, street: int)
    requires AllFit(s) && AllFit(base) && LinksTrue(s, base.nodes)
    ensures LinksTrue(Touch(s, Some(base), key, actions, street), base.nodes)
  {
  }

  lemma LookLinks(s: Store, base: Store, key: Key)
    requires Ok(base) && LinksTrue(s, base.nodes)
    ensures LinksTrue(s, Looked(base, key).nodes)
  {
    var r := Looked(base, key);
    forall i | 0 <= i < |s.nodes|
      ensures Find(r.nodes, s.nodes[i].key) == Find(base.nodes, s.nodes[i].key)
    {
      ShapedFind(base, r, s.nodes[i].key);
    }
  }

  lemma ApplyLinks(o: Overlay, op: Op)
    requires OkOverlay(o) && OkOp(op) && Linked(o)
    ensures Linked(Apply(o, op))
  {
    if o.base.Some? {
      match op {
        case Want(key, actions, street) => TouchLinks(o.own, o.base.value, key, actions, street);
        case Look(key) => LookLinks(o.own, o.base.value, key);
        case Discount(factor) =>
          var d := o.own.(scale := Lowered(o.own.scale, factor));
          ScaleOk(o.own, d.scale);
          SyncAllLinks(d, o.base.value.nodes);
        case _ =>
      }
    }
  }

  /** An overlay's nodes remember, over every run, where in the base they were copied from. */
  lemma {:induction false} RunsKeepLinks(o: Overlay, ops: seq<Op>)
    requires OkOverlay(o) && OkOps(ops) && Linked(o)
    ensures Linked(Run(o, ops))
  {
    if ops != [] {
      RunsKeepLinks(o, ops[..|ops| - 1]);
      ApplyLinks(Run(o, ops[..|ops| - 1]), ops[|ops| - 1]);
    }
  }
}
