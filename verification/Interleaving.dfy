/**
 Threads that read, combine and write back memory cells, one access per step, in
 any interleaving. When no two threads share a cell the outcome is that of any
 sequential program with the same operations, cell by cell, in the same order.
 */
module Interleaving {
  import opened Options

  /** Replaces a cell's value by a function of it. */
  datatype Op<!C, !V> = Op(cell: C, effect: V -> V)

  /** A thread has run its first pc operations and may have read its next cell. */
  datatype Thread<V> = Thread(pc: nat, register: Option<V>)

  datatype Machine<C, V> = Machine(memory: map<C, V>, threads: seq<Thread<V>>)

  ghost predicate Within<C, V>(prog: seq<Op<C, V>>, memory: map<C, V>) {
    forall i :: 0 <= i < |prog| ==> prog[i].cell in memory
  }

  /** Running a program alone. */
  ghost function Exec<C, V>(prog: seq<Op<C, V>>, memory: map<C, V>): (m: map<C, V>)
    requires Within(prog, memory)
    ensures m.Keys == memory.Keys
  {
    if prog == [] then memory
    else
      var op := prog[|prog| - 1];
      var m := Exec(prog[..|prog| - 1], memory);
      m[op.cell := op.effect(m[op.cell])]
  }

  /** The operations on one cell, in order. */
  ghost function OpsAt<C, V>(prog: seq<Op<C, V>>, c: C): seq<Op<C, V>> {
    if prog == [] then []
    else
      var op := prog[|prog| - 1];
      if op.cell == c then OpsAt(prog[..|prog| - 1], c) + [op] else OpsAt(prog[..|prog| - 1], c)
  }

  ghost function ApplyAll<C, V>(ops: seq<Op<C, V>>, v: V): V {
    if ops == [] then v else ops[|ops| - 1].effect(ApplyAll(ops[..|ops| - 1], v))
  }

  /** A program's result in a cell depends only on the operations on that cell. */
  lemma {:induction false} ExecAtCell<C, V>(prog: seq<Op<C, V>>, memory: map<C, V>, c: C)
    requires Within(prog, memory) && c in memory
    ensures Exec(prog, memory)[c] == ApplyAll(OpsAt(prog, c), memory[c])
  {
    if prog != [] {
      ExecAtCell(prog[..|prog| - 1], memory, c);
    }
  }

  lemma {:induction false} OpsAtAppend<C, V>(p: seq<Op<C, V>>, q: seq<Op<C, V>>, c: C)
    ensures OpsAt(p + q, c) == OpsAt(p, c) + OpsAt(q, c)
  {
    if q == [] {
      assert p + q == p;
    } else {
      assert (p + q)[..|p + q| - 1] == p + q[..|q| - 1];
      OpsAtAppend(p, q[..|q| - 1], c);
    }
  }

  lemma {:induction false} ExecAppend<C, V>(p: seq<Op<C, V>>, q: seq<Op<C, V>>, memory: map<C, V>)
    requires Within(p, memory) && Within(q, memory)
    ensures Within(p + q, memory) && Exec(p + q, memory) == Exec(q, Exec(p, memory))
  {
    if q == [] {
      assert p + q == p;
    } else {
      assert (p + q)[..|p + q| - 1] == p + q[..|q| - 1];
      ExecAppend(p, q[..|q| - 1], memory);
    }
  }

  lemma {:induction false} NoOpsAt<C, V>(prog: seq<Op<C, V>>, c: C)
    requires forall i :: 0 <= i < |prog| ==> prog[i].cell != c
    ensures OpsAt(prog, c) == []
  {
    if prog != [] {
      NoOpsAt(prog[..|prog| - 1], c);
    }
  }

  // ----- the machine -----

  predicate Enabled<C, V>(progs: seq<seq<Op<C, V>>>, m: Machine<C, V>, t: nat)
    requires |m.threads| == |progs|
  {
    t < |progs| && m.threads[t].pc < |progs[t]|
  }

  /** One step of one thread: a read, or a write of what it computed. */
  ghost function Step<C, V>(progs: seq<seq<Op<C, V>>>, m: Machine<C, V>, t: nat): Machine<C, V>
    requires |m.threads| == |progs| && Enabled(progs, m, t)
    requires progs[t][m.threads[t].pc].cell in m.memory
  {
    var th := m.threads[t];
    var op := progs[t][th.pc];
    if th.register.None? then
      m.(threads := m.threads[t := Thread(th.pc, Some(m.memory[op.cell]))])
    else
      Machine(m.memory[op.cell := op.effect(th.register.value)], m.threads[t := Thread(th.pc + 1, None)])
  }

  ghost predicate AllWithin<C, V>(progs: seq<seq<Op<C, V>>>, memory: map<C, V>) {
    forall t :: 0 <= t < |progs| ==> Within(progs[t], memory)
  }

  ghost predicate Follows<C, V>(progs: seq<seq<Op<C, V>>>, b: Machine<C, V>, t: nat, m: Machine<C, V>) {
    && |b.threads| == |progs| && Enabled(progs, b, t)
    && progs[t][b.threads[t].pc].cell in b.memory && m == Step(progs, b, t)
  }

  function Initial<C, V>(progs: seq<seq<Op<C, V>>>, start: map<C, V>): Machine<C, V> {
    Machine(start, seq(|progs|, _ => Thread(0, None)))
  }

  /** A run: each state follows from the one before by a step of the scheduled thread. */
  ghost predicate Run<C, V>(progs: seq<seq<Op<C, V>>>, start: map<C, V>, schedule: seq<nat>,
                            states: seq<Machine<C, V>>) {
    && |states| == |schedule| + 1 && states[0] == Initial(progs, start)
    && forall k {:trigger schedule[k]} :: 0 <= k < |schedule| ==> Follows(progs, states[k], schedule[k], states[k + 1])
  }

  predicate Finished<C, V>(progs: seq<seq<Op<C, V>>>, m: Machine<C, V>) {
    |m.threads| == |progs| && forall t :: 0 <= t < |progs| ==> m.threads[t].pc == |progs[t]|
  }

  /** Every cell has one owner, and threads touch only the cells they own. */
  ghost predicate Owned<C, V>(progs: seq<seq<Op<C, V>>>, owner: C -> nat) {
    forall t, i :: 0 <= t < |progs| && 0 <= i < |progs[t]| ==> owner(progs[t][i].cell) == t
  }

  // ----- what every interleaving keeps -----

  /** A thread's cells are where running its done part alone would have left them. */
  ghost predicate ThreadTrue<C, V>(prog: seq<Op<C, V>>, owner: C -> nat, t: nat, start: map<C, V>, memory: map<C, V>,
                                   th: Thread<V>)
    requires Within(prog, start) && memory.Keys == start.Keys
  {
    && th.pc <= |prog|
    && (forall c :: c in start && owner(c) == t ==> memory[c] == Exec(prog[..th.pc], start)[c])
    && (th.register.Some? ==> th.pc < |prog| && th.register.value == memory[prog[th.pc].cell])
  }

  ghost predicate Invariant<C, V>(progs: seq<seq<Op<C, V>>>, owner: C -> nat, start: map<C, V>, m: Machine<C, V>)
    requires AllWithin(progs, start)
  {
    && |m.threads| == |progs| && m.memory.Keys == start.Keys
    && forall t :: 0 <= t < |progs| ==> ThreadTrue(progs[t], owner, t, start, m.memory, m.threads[t])
  }

  lemma OwnStep<C, V>(prog: seq<Op<C, V>>, owner: C -> nat, t: nat, start: map<C, V>, memory: map<C, V>, th: Thread<V>)
    requires Within(prog, start) && memory.Keys == start.Keys && th.pc < |prog|
    requires owner(prog[th.pc].cell) == t && ThreadTrue(prog, owner, t, start, memory, th)
    ensures var op := prog[th.pc];
            if th.register.None? then ThreadTrue(prog, owner, t, start, memory, Thread(th.pc, Some(memory[op.cell])))
            else ThreadTrue(prog, owner, t, start, memory[op.cell := op.effect(th.register.value)],
                            Thread(th.pc + 1, None))
  {
    assert prog[..th.pc + 1][..th.pc] == prog[..th.pc];
  }

  lemma OthersStep<C, V>(prog: seq<Op<C, V>>, owner: C -> nat, t: nat, start: map<C, V>, memory: map<C, V>,
                         th: Thread<V>,
                         c: C, v: V)
    requires Within(prog, start) && memory.Keys == start.Keys && c in start && owner(c) != t
    requires forall i :: 0 <= i < |prog| ==> owner(prog[i].cell) == t
    requires ThreadTrue(prog, owner, t, start, memory, th)
    ensures ThreadTrue(prog, owner, t, start, memory[c := v], th)
  {
  }

  lemma StepKeepsInvariant<C, V>(progs: seq<seq<Op<C, V>>>, owner: C -> nat, start: map<C, V>, b: Machine<C, V>, t: nat,
                                 m: Machine<C, V>)
    requires AllWithin(progs, start) && Owned(progs, owner) && Invariant(progs, owner, start, b)
    requires Follows(progs, b, t, m)
    ensures Invariant(progs, owner, start, m)
  {
    var th := b.threads[t];
    assert ThreadTrue(progs[t], owner, t, start, b.memory, th);
    OwnStep(progs[t], owner, t, start, b.memory, th);
    var op := progs[t][th.pc];
    forall u | 0 <= u < |progs|
      ensures ThreadTrue(progs[u], owner, u, start, m.memory, m.threads[u])
    {
      assert ThreadTrue(progs[u], owner, u, start, b.memory, b.threads[u]);
      if u != t && th.register.Some? {
        OthersStep(progs[u], owner, u, start, b.memory, b.threads[u], op.cell, op.effect(th.register.value));
      }
    }
  }

  lemma InitialHolds<C, V>(progs: seq<seq<Op<C, V>>>, owner: C -> nat, start: map<C, V>)
    requires AllWithin(progs, start)
    ensures Invariant(progs, owner, start, Initial(progs, start))
  {
    forall t | 0 <= t < |progs|
      ensures ThreadTrue(progs[t], owner, t, start, start, Thread(0, None))
    {
      assert progs[t][..0] == [];
    }
  }

  lemma {:induction false} StatesKeepInvariant<C, V>(progs: seq<seq<Op<C, V>>>, owner: C -> nat, start: map<C, V>,
                                                     schedule: seq<nat>, states: seq<Machine<C, V>>)
    requires AllWithin(progs, start) && Owned(progs, owner) && Run(progs, start, schedule, states)
    ensures Invariant(progs, owner, start, states[|schedule|])
  {
    var n := |schedule|;
    if n == 0 {
      InitialHolds(progs, owner, start);
    } else {
      assert Follows(progs, states[n - 1], schedule[n - 1], states[n]);
      StatesKeepInvariant(progs, owner, start, schedule[..n - 1], states[..n]);
      StepKeepsInvariant(progs, owner, start, states[n - 1], schedule[n - 1], states[n]);
    }
  }

  /** `main` does to every cell what the thread that owns the cell does, in the same order. */
  ghost predicate Sequentialises<C, V>(main: seq<Op<C, V>>, progs: seq<seq<Op<C, V>>>, owner: C -> nat, cells: set<C>) {
    forall c :: c in cells ==> owner(c) < |progs| && OpsAt(main, c) == OpsAt(progs[owner(c)], c)
  }

  lemma OwnerAgrees<C, V>(main: seq<Op<C, V>>, prog: seq<Op<C, V>>, owner: C -> nat, t: nat, start: map<C, V>,
                          memory: map<C, V>, th: Thread<V>, c: C)
    requires Within(prog, start) && Within(main, start) && memory.Keys == start.Keys
    requires ThreadTrue(prog, owner, t, start, memory, th) && th.pc == |prog|
    requires c in start && owner(c) == t && OpsAt(main, c) == OpsAt(prog, c)
    ensures memory[c] == Exec(main, start)[c]
  {
    assert prog[..|prog|] == prog;
    ExecAtCell(prog, start, c);
    ExecAtCell(main, start, c);
  }

  lemma {:induction false} CellAgrees<C, V>(main: seq<Op<C, V>>, progs: seq<seq<Op<C, V>>>, owner: C -> nat,
                                            start: map<C, V>,
                                            m: Machine<C, V>, c: C)
    requires AllWithin(progs, start) && Within(main, start) && Sequentialises(main, progs, owner, start.Keys)
    requires Invariant(progs, owner, start, m) && Finished(progs, m) && c in start
    ensures m.memory[c] == Exec(main, start)[c]
  {
    var t := owner(c);
    assert c in start.Keys;
    assert ThreadTrue(progs[t], owner, t, start, m.memory, m.threads[t]);
    OwnerAgrees(main, progs[t], owner, t, start, m.memory, m.threads[t], c);
  }

  lemma SameMap<C, V>(a: map<C, V>, b: map<C, V>)
    requires a.Keys == b.Keys && forall c :: c in a ==> a[c] == b[c]
    ensures a == b
  {
  }

  lemma {:induction false} FinishedAgrees<C, V>(main: seq<Op<C, V>>, progs: seq<seq<Op<C, V>>>, owner: C -> nat,
                                                start: map<C, V>, m: Machine<C, V>)
    requires AllWithin(progs, start) && Within(main, start) && Sequentialises(main, progs, owner, start.Keys)
    requires Invariant(progs, owner, start, m) && Finished(progs, m)
    ensures m.memory == Exec(main, start)
  {
    forall c | c in start
      ensures m.memory[c] == Exec(main, start)[c]
    {
      CellAgrees(main, progs, owner, start, m, c);
    }
    SameMap(m.memory, Exec(main, start));
  }

  /**
   Whatever the schedule, once all threads have finished the memory is exactly
   what the sequential program leaves.
   */
  lemma EveryScheduleAgrees<C, V>(main: seq<Op<C, V>>, progs: seq<seq<Op<C, V>>>, owner: C -> nat, start: map<C, V>,
                                  schedule: seq<nat>, states: seq<Machine<C, V>>)
    requires AllWithin(progs, start) && Within(main, start)
    requires Owned(progs, owner) && Sequentialises(main, progs, owner, start.Keys)
    requires Run(progs, start, schedule, states) && Finished(progs, states[|schedule|])
    ensures states[|schedule|].memory == Exec(main, start)
  {
    StatesKeepInvariant(progs, owner, start, schedule, states);
    FinishedAgrees(main, progs, owner, start, states[|schedule|]);
  }
}
