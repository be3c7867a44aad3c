/**
 What a write access leaves under its key, entry by entry, and which nodes carry
 strategy sums: all of them, unless the store leaves those of later streets out.
 */
module Accesses {
  import opened Options
  import opened Arenas
  import opened Stores

  // ----- one access -----

  /** A number of actions, kept between 1 and 16. */
  predicate IsWidth(actions: int, n: int) {
    && 1 <= n <= 16
    && (1 <= actions <= 16 ==> n == actions)
    && (actions < 1 ==> n == 1) && (16 < actions ==> n == 16)
  }

  predicate LaterStreet(street: int) {
    street == 1 || street == 2 || street == 3
  }

  /** A key that neither the store nor its base had: zeros, and the street as far as it is known. */
  lemma NewKeyIsZero(s: Store, base: Option<Store>, key: Key, actions: int, street: int)
    requires Ok(s) && (base.Some? ==> Ok(base.value)) && Find(s.nodes, key).None? && Read(s, base, key).None?
    ensures var r := Touch(s, base, key, actions, street); var p := ReadOwn(r, key);
            && Ok(r) && |r.nodes| == |s.nodes| + 1 && Find(r.nodes, key) == Some(|s.nodes|)
            && r.nodes[|s.nodes|].base.None? && !r.nodes[|s.nodes|].isNew
            && p.Some? && IsWidth(actions, |p.value.regrets|)
            && p.value.street == (if street < 0 then 255 else street)
            && (forall a :: 0 <= a < |p.value.regrets| ==> p.value.regrets[a] == 0)
            && (p.value.strategy.Some? <==> !(s.omitPostflop && LaterStreet(street)))
            && (p.value.strategy.Some? ==>
                  forall a :: 0 <= a < |p.value.strategy.value| ==> p.value.strategy.value[a] == 0.0)
  {
    TouchFlat(s, base, key, actions, street);
    var r := Touch(s, base, key, actions, street);
    FindIs(r, |s.nodes|);
    AppendPayload(s, key, Blank(ClampActions(actions), street, s.omitPostflop, Mark(s.scale)), None);
  }

  /** Every entry of the first payload is one of the second, which is as wide as asked or wider and zero beyond. */
  ghost predicate Widens(p: Payload, q: Payload, actions: int) {
    && q.street == p.street && q.strategy.Some? == p.strategy.Some?
    && (exists n :: IsWidth(actions, n) && |q.regrets| == if |p.regrets| < n then n else |p.regrets|)
    && (forall a :: 0 <= a < |q.regrets| ==> q.regrets[a] == if a < |p.regrets| then p.regrets[a] else 0)
    && (q.strategy.Some? ==>
          && |q.strategy.value| == |q.regrets| && |p.strategy.value| == |p.regrets|
          && forall a :: 0 <= a < |q.regrets| ==>
               q.strategy.value[a] == if a < |p.regrets| then p.strategy.value[a] else 0.0)
  }

  lemma ExtendedWidens(p: Payload, stamp: real, actions: int)
    requires WholePayload(p)
    ensures Widens(p, Extended(p, ClampActions(actions)).(stamp := stamp), actions)
  {
    assert IsWidth(actions, ClampActions(actions));
  }

  /** A key the store or its base had: what a read saw, with zeros for the actions it did not have. */
  lemma OldKeyWidens(s: Store, base: Option<Store>, key: Key, actions: int, street: int)
    requires Ok(s) && (base.Some? ==> Ok(base.value)) && Read(s, base, key).Some?
    ensures var r := Touch(s, base, key, actions, street);
            Ok(r) && ReadOwn(r, key).Some? && Widens(Read(s, base, key).value, ReadOwn(r, key).value, actions)
  {
    hide Touch, Extended, Widens, Current;
    TouchReads(s, base, key, actions, street, key);
    var p := Read(s, base, key).value;
    var q := ReadAfterTouch(s, base, key, ClampActions(actions), street);
    SeenIsWhole(s, base, key);
    ExtendedWidens(p, q.stamp, actions);
    SameStamp(Extended(p, ClampActions(actions)));
  }

  lemma SameStamp(p: Payload)
    ensures p.(stamp := p.stamp) == p
  {
  }

  lemma SeenIsWhole(s: Store, base: Option<Store>, key: Key)
    requires Ok(s) && (base.Some? ==> Ok(base.value)) && Read(s, base, key).Some?
    ensures WholePayload(Read(s, base, key).value)
  {
  }

  // ----- which nodes carry sums -----

  /** A payload has sums unless they are left out on later streets and it is on one. */
  predicate InMode(p: Payload, omitPostflop: bool) {
    p.strategy.Some? <==> !(omitPostflop && LaterStreet(p.street))
  }

  ghost predicate AllInMode(f: Flat, omitPostflop: bool) {
    f.omitPostflop == omitPostflop && forall k :: k in f.entries ==> InMode(f.entries[k], omitPostflop)
  }

  /** The overlay and its base store sums alike. */
  ghost predicate OneMode(o: FlatOverlay) {
    AllInMode(o.own, o.own.omitPostflop) && (o.base.Some? ==> AllInMode(o.base.value, o.own.omitPostflop))
  }

  ghost predicate AttachInMode(op: Op) {
    OkOp(op) && (op.Attach? ==> AllInMode(Flatten(op.to), op.to.omitPostflop))
  }

  lemma WantInMode(o: FlatOverlay, key: Key, n: nat, street: int)
    requires WholeOverlay(o) && OneMode(o)
    ensures AllInMode(FlatWanted(o.own, o.base, key, n, street), o.own.omitPostflop)
  {
  }

  lemma StepInMode(o: FlatOverlay, op: Op)
    requires WholeOverlay(o) && OneMode(o) && AttachInMode(op)
    ensures OneMode(ApplyFlat(o, op))
  {
    match op {
      case Want(key, actions, street) => WantInMode(o, key, ClampActions(actions), street);
      case _ =>
    }
  }

  lemma {:induction false} FlatRunsInMode(o: FlatOverlay, ops: seq<Op>)
    requires WholeOverlay(o) && OneMode(o) && OkOps(ops) && forall i :: 0 <= i < |ops| ==> AttachInMode(ops[i])
    ensures OneMode(RunFlat(o, ops))
  {
    if ops != [] {
      FlatRunsInMode(o, ops[..|ops| - 1]);
      StepInMode(RunFlat(o, ops[..|ops| - 1]), ops[|ops| - 1]);
    }
  }

  /**
   Over any run a key reads with strategy sums unless the store leaves out those of
   later streets and its node is on one; an overlay does as its base does.
   */
  lemma RunsKeepMode(o: Overlay, ops: seq<Op>, key: Key)
    requires OkOverlay(o) && OneMode(FlattenOverlay(o))
    requires OkOps(ops) && forall i :: 0 <= i < |ops| ==> AttachInMode(ops[i])
    ensures var r := Run(o, ops); var p := Read(r.own, r.base, key);
            && (p.Some? ==> InMode(p.value, r.own.omitPostflop))
            && (r.base.Some? ==> r.base.value.omitPostflop == r.own.omitPostflop)
  {
    RunsRefine(o, ops);
    FlatRunsInMode(FlattenOverlay(o), ops);
    ReadsRefine(Run(o, ops), key);
  }
}
