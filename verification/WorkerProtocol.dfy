/**
 The coordinator and its worker pool: per worker an auto-reset start event, a
 manual-reset done event and a context the coordinator fills in. Every step of the
 coordinator or of one worker is one transition; schedules are arbitrary.
 */
module WorkerProtocol {

  datatype Task = Train | Merge

  datatype Order = Do(task: Task) | Quit

  datatype Place = Waiting | Woken | Running(task: Task) | Stopped

  /** A worker's context, events and position; the orders signalled to it and the ones it has carried out. */
  datatype Worker = Worker(
    at: Place, start: bool, done: bool, task: Task, stop: bool, failed: bool, issued: seq<Order>, finished: seq<Order>)

  /** Launching prepares worker w: its context, then its done event, then its start event. */
  datatype Stage = FillContext | ResetDone | SetStart

  datatype Coordinator =
    | Idle
    | Launching(order: Order, w: nat, stage: Stage)
    | Awaiting(order: Order)
    | Checking
    | Creating
    | Halted

  datatype State = State(coordinator: Coordinator, workers: seq<Worker>)

  datatype Label =
    | Begin
    | Shut
    | Launch
    | Resume
    | Check
    | Proceed(sharded: bool)
    | Wake(w: nat)
    | Read(w: nat)
    | Finish(w: nat, fails: bool)

  /** What a worker's context tells it to do; it looks at the stop flag first. */
  function OrderOf(k: Worker): Order {
    if k.stop then Quit else Do(k.task)
  }

  function Initial(n: nat): State {
    State(Idle, seq(n, _ => Worker(Waiting, false, false, Train, false, false, [], [])))
  }

  predicate AllDone(workers: seq<Worker>) {
    forall w :: 0 <= w < |workers| ==> workers[w].done
  }

  predicate AllStopped(workers: seq<Worker>) {
    forall w :: 0 <= w < |workers| ==> workers[w].at == Stopped
  }

  predicate AnyFailed(workers: seq<Worker>) {
    exists w :: 0 <= w < |workers| && workers[w].failed
  }

  predicate Enabled(s: State, l: Label) {
    match l
    case Begin => s.coordinator == Idle
    case Shut => s.coordinator == Idle
    case Launch => s.coordinator.Launching?
    case Resume =>
      s.coordinator.Awaiting? && if s.coordinator.order == Quit then AllStopped(s.workers) else AllDone(s.workers)
    case Check => s.coordinator == Checking
    case Proceed(_) => s.coordinator == Creating
    case Wake(w) => w < |s.workers| && s.workers[w].at == Waiting && s.workers[w].start
    case Read(w) => w < |s.workers| && s.workers[w].at == Woken
    case Finish(w, _) => w < |s.workers| && s.workers[w].at.Running?
  }

  /** Training resets the failure flag; stopping leaves a worker's task as it was. */
  function Filled(k: Worker, order: Order): Worker {
    match order
    case Do(Train) => k.(task := Train, failed := false, stop := false)
    case Do(Merge) => k.(task := Merge, stop := false)
    case Quit => k.(stop := true)
  }

  function LaunchStep(s: State): State
    requires s.coordinator.Launching?
  {
    var c := s.coordinator;
    if c.w >= |s.workers| then s.(coordinator := Awaiting(c.order))
    else
      var k := s.workers[c.w];
      match c.stage
      case FillContext => State(c.(stage := ResetDone), s.workers[c.w := Filled(k, c.order)])
      case ResetDone => State(c.(stage := SetStart), s.workers[c.w := k.(done := false)])
      case SetStart =>
        State(Launching(c.order, c.w + 1, FillContext),
              s.workers[c.w := k.(start := true, issued := k.issued + [c.order])])
  }

  /** A worker that saw the stop flag signals and leaves; others start their task. */
  function ReadStep(k: Worker): Worker {
    if k.stop then k.(at := Stopped, done := true, finished := k.finished + [Quit]) else k.(at := Running(k.task))
  }

  function FinishStep(k: Worker, fails: bool): Worker
    requires k.at.Running?
  {
    k.(at := Waiting, done := true, failed := k.failed || (fails && k.at.task == Train),
       finished := k.finished + [Do(k.at.task)])
  }

  function Step(s: State, l: Label): State
    requires Enabled(s, l)
  {
    match l
    case Begin => s.(coordinator := Launching(Do(Train), 0, FillContext))
    case Shut => s.(coordinator := Launching(Quit, 0, FillContext))
    case Launch => LaunchStep(s)
    case Resume =>
      s.(coordinator := match s.coordinator.order case Do(Train) => Checking case Do(Merge) => Idle case Quit => Halted)
    case Check => s.(coordinator := if AnyFailed(s.workers) then Idle else Creating)
    case Proceed(sharded) => s.(coordinator := if sharded then Launching(Do(Merge), 0, FillContext) else Idle)
    case Wake(w) => s.(workers := s.workers[w := s.workers[w].(at := Woken, start := false)])
    case Read(w) => s.(workers := s.workers[w := ReadStep(s.workers[w])])
    case Finish(w, fails) => s.(workers := s.workers[w := FinishStep(s.workers[w], fails)])
  }

  ghost predicate Follows(s: State, l: Label, t: State) {
    Enabled(s, l) && t == Step(s, l)
  }

  ghost predicate Run(n: nat, labels: seq<Label>, states: seq<State>) {
    && |states| == |labels| + 1 && states[0] == Initial(n)
    && forall k {:trigger labels[k]} :: 0 <= k < |labels| ==> Follows(states[k], labels[k], states[k + 1])
  }

  // ----- what every step keeps -----

  /** Nothing is outstanding. */
  predicate Quiet(k: Worker) {
    k.at == Waiting && !k.start && k.finished == k.issued
  }

  /** The order was signalled and not yet carried out. */
  predicate Pending(k: Worker, order: Order) {
    && !k.done && k.issued == k.finished + [order] && OrderOf(k) == order
    && match k.at
       case Waiting => k.start
       case Woken => !k.start
       case Running(task) => !k.start && order == Do(task)
       case Stopped => false
  }

  predicate Carried(k: Worker, order: Order) {
    k.done && !k.start && k.finished == k.issued && k.at == if order == Quit then Stopped else Waiting
  }

  predicate WorkerInv(c: Coordinator, k: Worker, w: nat) {
    match c
    case Launching(order, i, stage) =>
      if w < i then Pending(k, order) || Carried(k, order)
      else Quiet(k) && (w == i ==> (stage != FillContext ==> OrderOf(k) == order) && (stage == SetStart ==> !k.done))
    case Awaiting(order) => Pending(k, order) || Carried(k, order)
    case Halted => k.at == Stopped && k.finished == k.issued
    case _ => Quiet(k)
  }

  ghost predicate Inv(n: nat, s: State) {
    && |s.workers| == n && (s.coordinator.Launching? ==> s.coordinator.w <= n)
    && (forall w :: 0 <= w < n ==> WorkerInv(s.coordinator, s.workers[w], w))
    && (s.coordinator == Creating || (s.coordinator.Launching? && s.coordinator.order == Do(Merge)) ==>
          !AnyFailed(s.workers))
  }

  lemma CoordinatorKeeps(n: nat, s: State, l: Label)
    requires Inv(n, s) && Enabled(s, l) && !l.Wake? && !l.Read? && !l.Finish?
    ensures Inv(n, Step(s, l))
  {
    var t := Step(s, l);
    forall w | 0 <= w < n
      ensures WorkerInv(t.coordinator, t.workers[w], w)
    {
      assert WorkerInv(s.coordinator, s.workers[w], w);
    }
    assert forall w :: 0 <= w < n ==> t.workers[w].failed ==> s.workers[w].failed;
  }

  lemma WorkerKeeps(n: nat, s: State, l: Label, w: nat)
    requires Inv(n, s) && Enabled(s, l) && (l == Wake(w) || l == Read(w) || (l.Finish? && l.w == w))
    ensures Inv(n, Step(s, l))
  {
    var t := Step(s, l);
    assert WorkerInv(s.coordinator, s.workers[w], w);
    forall v | 0 <= v < n
      ensures WorkerInv(t.coordinator, t.workers[v], v)
    {
      assert WorkerInv(s.coordinator, s.workers[v], v);
    }
    assert forall v :: 0 <= v < n ==> t.workers[v].failed ==> s.workers[v].failed || v == w;
  }

  lemma {:induction false} RunsKeepInv(n: nat, labels: seq<Label>, states: seq<State>)
    requires Run(n, labels, states)
    ensures Inv(n, states[|labels|])
  {
    var k := |labels| - 1;
    if labels != [] {
      assert Follows(states[k], labels[k], states[k + 1]);
      RunsKeepInv(n, labels[..k], states[..k + 1]);
      match labels[k] {
        case Wake(w) => WorkerKeeps(n, states[k], labels[k], w);
        case Read(w) => WorkerKeeps(n, states[k], labels[k], w);
        case Finish(w, _) => WorkerKeeps(n, states[k], labels[k], w);
        case _ => CoordinatorKeeps(n, states[k], labels[k]);
      }
    }
  }

  // ----- what a schedule can show -----

  predicate Working(k: Worker) {
    k.at == Woken || k.at.Running?
  }

  /** Each start signal is carried out once, in order: a worker is at most one signal behind. */
  lemma OneTaskPerSignal(n: nat, labels: seq<Label>, states: seq<State>, w: nat)
    requires Run(n, labels, states) && w < n
    ensures var s := states[|labels|];
            && |s.workers| == n
            && s.workers[w].finished <= s.workers[w].issued
            && |s.workers[w].issued| <= |s.workers[w].finished| + 1
            && (s.workers[w].at.Running? ==> s.workers[w].issued == s.workers[w].finished + [Do(s.workers[w].at.task)])
  {
    RunsKeepInv(n, labels, states);
    assert WorkerInv(states[|labels|].coordinator, states[|labels|].workers[w], w);
  }

  /**
   While the coordinator checks results, creates nodes, or is about to start a
   phase, no worker works; and it never prepares the context of a working worker.
   */
  lemma NobodyWorksUnawaited(n: nat, labels: seq<Label>, states: seq<State>, w: nat)
    requires Run(n, labels, states) && w < n && |states[|labels|].workers| == n && Working(states[|labels|].workers[w])
    ensures var c := states[|labels|].coordinator; c.Awaiting? || (c.Launching? && w < c.w)
  {
    RunsKeepInv(n, labels, states);
    assert WorkerInv(states[|labels|].coordinator, states[|labels|].workers[w], w);
  }

  function Trainings(orders: seq<Order>): nat {
    if orders == [] then 0 else Trainings(orders[..|orders| - 1]) + if orders[|orders| - 1] == Do(Train) then 1 else 0
  }

  /** When any worker merges, every worker has finished all the training it was told to do. */
  lemma MergeAfterTraining(n: nat, labels: seq<Label>, states: seq<State>, w: nat, v: nat)
    requires Run(n, labels, states) && w < n && v < n && |states[|labels|].workers| == n
    requires states[|labels|].workers[w].at == Running(Merge)
    ensures var k := states[|labels|].workers[v]; Trainings(k.finished) == Trainings(k.issued)
  {
    RunsKeepInv(n, labels, states);
    var s := states[|labels|];
    assert WorkerInv(s.coordinator, s.workers[w], w) && WorkerInv(s.coordinator, s.workers[v], v);
    var k := s.workers[v];
    assert (k.finished + [Do(Merge)])[..|k.finished|] == k.finished;
  }

  /** Nodes are created, and merging started, only when all training has ended and none failed. */
  lemma CreatesAfterSuccess(n: nat, labels: seq<Label>, states: seq<State>, w: nat)
    requires Run(n, labels, states) && w < n && states[|labels|].coordinator == Creating
    ensures var s := states[|labels|];
            |s.workers| == n && s.workers[w].finished == s.workers[w].issued && !s.workers[w].failed
  {
    RunsKeepInv(n, labels, states);
    assert WorkerInv(states[|labels|].coordinator, states[|labels|].workers[w], w);
  }

  /** The step an unfinished worker can take. */
  function WorkerLabel(k: Worker, w: nat): Label {
    match k.at
    case Waiting => Wake(w)
    case Woken => Read(w)
    case _ => Finish(w, false)
  }

  /** Until the pool has halted, someone can always move: no event is lost or waited for in vain. */
  lemma NeverStuck(n: nat, labels: seq<Label>, states: seq<State>) returns (l: Label)
    requires Run(n, labels, states) && states[|labels|].coordinator != Halted
    ensures Enabled(states[|labels|], l)
  {
    RunsKeepInv(n, labels, states);
    var s := states[|labels|];
    match s.coordinator {
      case Idle => l := Begin;
      case Launching(_, _, _) => l := Launch;
      case Checking => l := Check;
      case Creating => l := Proceed(true);
      case Awaiting(order) =>
        l := Resume;
        if !Enabled(s, Resume) {
          var w :| 0 <= w < n && !Carried(s.workers[w], order);
          assert WorkerInv(s.coordinator, s.workers[w], w);
          l := WorkerLabel(s.workers[w], w);
        }
    }
  }

  // ----- rounds -----

  /** Where the present round of training began, or -1. */
  function LastBegin(labels: seq<Label>): (k: int)
    ensures -1 <= k < |labels|
  {
    if labels == [] then -1
    else if labels[|labels| - 1] == Begin then |labels| - 1
    else LastBegin(labels[..|labels| - 1])
  }

  /** At step k worker w ended its training with a failure. */
  predicate FailsAt(labels: seq<Label>, states: seq<State>, w: nat, k: nat)
    requires k < |labels| && k < |states|
  {
    labels[k] == Finish(w, true) && w < |states[k].workers| && states[k].workers[w].at == Running(Train)
  }

  /** The worker's training failed in the present round. */
  ghost predicate FailedRound(labels: seq<Label>, states: seq<State>, w: nat)
    requires |states| == |labels| + 1
  {
    exists k :: LastBegin(labels) < k < |labels| && FailsAt(labels, states, w, k)
  }

  /** The worker's context was filled in for the present round of training, and no merge was started since. */
  predicate Prepared(c: Coordinator, w: nat) {
    match c
    case Launching(order, i, stage) => order == Do(Train) && (w < i || (w == i && stage != FillContext))
    case Awaiting(order) => order == Do(Train)
    case Checking => true
    case Creating => true
    case _ => false
  }

  predicate Unprepared(c: Coordinator, w: nat) {
    c.Launching? && c.order == Do(Train) && !Prepared(c, w)
  }

  ghost predicate FlagsTrue(n: nat, labels: seq<Label>, states: seq<State>, w: nat)
    requires |states| == |labels| + 1
  {
    var s := states[|labels|];
    w < n && w < |s.workers| ==>
      && (Prepared(s.coordinator, w) ==> (s.workers[w].failed <==> FailedRound(labels, states, w)))
      && (Unprepared(s.coordinator, w) ==> !FailedRound(labels, states, w))
  }

  lemma {:induction false} FailedNext(labels: seq<Label>, states: seq<State>, w: nat)
    requires |states| == |labels| + 1 && labels != []
    ensures var k := |labels| - 1;
            FailedRound(labels, states, w) <==>
            labels[k] != Begin && (FailedRound(labels[..k], states[..k + 1], w) || FailsAt(labels, states, w, k))
  {
    var k := |labels| - 1;
    var front, before := labels[..k], states[..k + 1];
    if labels[k] != Begin {
      if FailedRound(labels, states, w) {
        var j :| LastBegin(labels) < j < |labels| && FailsAt(labels, states, w, j);
        assert j < k ==> FailsAt(front, before, w, j);
      }
      if FailedRound(front, before, w) {
        var j :| LastBegin(front) < j < k && FailsAt(front, before, w, j);
        assert FailsAt(labels, states, w, j);
      }
    }
  }

  lemma {:induction false} FlagsNext(n: nat, labels: seq<Label>, states: seq<State>, w: nat)
    requires |states| == |labels| + 1 && labels != []
    requires var k := |labels| - 1;
             && Inv(n, states[k]) && Follows(states[k], labels[k], states[k + 1])
             && FlagsTrue(n, labels[..k], states[..k + 1], w)
    ensures FlagsTrue(n, labels, states, w)
  {
    var k := |labels| - 1;
    if w < n {
      FailedNext(labels, states, w);
      assert WorkerInv(states[k].coordinator, states[k].workers[w], w);
      hide FailedRound;
    }
  }

  lemma {:induction false} FlagsTell(n: nat, labels: seq<Label>, states: seq<State>, w: nat)
    requires Run(n, labels, states)
    ensures FlagsTrue(n, labels, states, w)
  {
    if labels != [] {
      var k := |labels| - 1;
      assert Follows(states[k], labels[k], states[k + 1]);
      assert Run(n, labels[..k], states[..k + 1]);
      FlagsTell(n, labels[..k], states[..k + 1], w);
      RunsKeepInv(n, labels[..k], states[..k + 1]);
      FlagsNext(n, labels, states, w);
    }
  }

  /** After a round of training the coordinator goes on to create nodes just when no worker's training failed in it. */
  lemma ChecksTheRound(n: nat, labels: seq<Label>, states: seq<State>)
    requires Run(n, labels, states) && states[|labels|].coordinator == Checking
    ensures Step(states[|labels|], Check).coordinator ==
            if exists w :: 0 <= w < n && FailedRound(labels, states, w) then Idle else Creating
  {
    RunsKeepInv(n, labels, states);
    var s := states[|labels|];
    forall w | 0 <= w < n
      ensures s.workers[w].failed <==> FailedRound(labels, states, w)
    {
      FlagsTell(n, labels, states, w);
    }
  }

  /** The last decision of the coordinator about what to do next. */
  function LastChoice(labels: seq<Label>): Label {
    if labels == [] then Begin
    else
      var l := labels[|labels| - 1];
      if l == Begin || l == Shut || l.Proceed? then l else LastChoice(labels[..|labels| - 1])
  }

  predicate Merging(c: Coordinator) {
    (c.Launching? || c.Awaiting?) && c.order == Do(Merge)
  }

  /** Workers merge only when the coordinator chose the sharded merge, and then they all do. */
  lemma {:induction false} MergesByChoice(n: nat, labels: seq<Label>, states: seq<State>)
    requires Run(n, labels, states)
    ensures Merging(states[|labels|].coordinator) ==> LastChoice(labels) == Proceed(true)
    ensures labels != [] && labels[|labels| - 1].Proceed? ==>
              (Merging(states[|labels|].coordinator) <==> labels[|labels| - 1].sharded)
  {
    if labels != [] {
      var k := |labels| - 1;
      assert Follows(states[k], labels[k], states[k + 1]);
      assert Run(n, labels[..k], states[..k + 1]);
      MergesByChoice(n, labels[..k], states[..k + 1]);
    }
  }
}
