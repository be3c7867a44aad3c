/**
 The one-time initialiser: a shared word read and changed atomically, and any
 number of threads running the same call. Every atomic access is one step.
 */
module OnceInit {
  import opened Options

  datatype Word = Untried | Busy | Ready | Failed

  datatype Thread =
    Entering | Claiming | Constructing | Initialising | Publishing(ok: bool) | Spinning | Returned(ok: bool)

  /** The shared word, the threads, and what has been done to the indexer. */
  datatype State = State(word: Word, threads: seq<Thread>, constructed: nat, outcome: Option<bool>)

  function Initial(n: nat): State {
    State(Untried, seq(n, _ => Entering), 0, None)
  }

  predicate Enabled(s: State, t: nat) {
    t < |s.threads| && !s.threads[t].Returned?
  }

  /** The answer a settled word gives. */
  function Settled(w: Word, otherwise: Thread): Thread {
    if w == Ready then Returned(true) else if w == Failed then Returned(false) else otherwise
  }

  /** One step of thread t; whether the indexer's own initialisation succeeds is not known in advance. */
  function Step(s: State, t: nat, succeeds: bool): State
    requires Enabled(s, t)
  {
    match s.threads[t]
    case Entering => s.(threads := s.threads[t := Settled(s.word, Claiming)])
    case Claiming =>
      if s.word == Untried then s.(word := Busy, threads := s.threads[t := Constructing])
      else s.(threads := s.threads[t := Spinning])
    case Constructing => s.(constructed := s.constructed + 1, threads := s.threads[t := Initialising])
    case Initialising => s.(outcome := Some(succeeds), threads := s.threads[t := Publishing(succeeds)])
    case Publishing(ok) => s.(word := if ok then Ready else Failed, threads := s.threads[t := Returned(ok)])
    case Spinning => s.(threads := s.threads[t := Settled(s.word, Spinning)])
    case Returned(_) => s
  }

  datatype Move = Move(thread: nat, succeeds: bool)

  ghost predicate Follows(s: State, m: Move, t: State) {
    Enabled(s, m.thread) && t == Step(s, m.thread, m.succeeds)
  }

  ghost predicate Run(n: nat, moves: seq<Move>, states: seq<State>) {
    && |states| == |moves| + 1 && states[0] == Initial(n)
    && forall k {:trigger moves[k]} :: 0 <= k < |moves| ==> Follows(states[k], moves[k], states[k + 1])
  }

  /** Holds the claim: it is between its compare-and-swap and its publication. */
  predicate Building(t: Thread) {
    t.Constructing? || t.Initialising? || t.Publishing?
  }

  predicate BuilderOk(s: State, t: Thread) {
    match t
    case Constructing => s.constructed == 0 && s.outcome.None?
    case Initialising => s.constructed == 1 && s.outcome.None?
    case Publishing(ok) => s.constructed == 1 && s.outcome == Some(ok)
    case _ => false
  }

  ghost predicate Inv(s: State) {
    match s.word
    case Untried =>
      && s.constructed == 0 && s.outcome.None?
      && forall t :: 0 <= t < |s.threads| ==> s.threads[t].Entering? || s.threads[t].Claiming?
    case Busy =>
      exists b :: 0 <= b < |s.threads| && BuilderOk(s, s.threads[b]) &&
                  forall t :: 0 <= t < |s.threads| && t != b ==> !Building(s.threads[t]) && !s.threads[t].Returned?
    case Ready => Closed(s, true)
    case Failed => Closed(s, false)
  }

  ghost predicate Closed(s: State, ok: bool) {
    && s.constructed == 1 && s.outcome == Some(ok)
    && forall t :: 0 <= t < |s.threads| ==>
         !Building(s.threads[t]) && (s.threads[t].Returned? ==> s.threads[t].ok == ok)
  }

  lemma BusyStep(s: State, b: nat, t: nat, succeeds: bool)
    requires s.word == Busy && b < |s.threads| && BuilderOk(s, s.threads[b])
    requires forall u :: 0 <= u < |s.threads| && u != b ==> !Building(s.threads[u]) && !s.threads[u].Returned?
    requires Enabled(s, t)
    ensures Inv(Step(s, t, succeeds))
  {
    var r := Step(s, t, succeeds);
    if r.word == Busy {
      assert BuilderOk(r, r.threads[b]);
    }
  }

  lemma StepKeeps(s: State, t: nat, succeeds: bool)
    requires Inv(s) && Enabled(s, t)
    ensures Inv(Step(s, t, succeeds))
  {
    var r := Step(s, t, succeeds);
    match s.word {
      case Busy =>
        var b :| 0 <= b < |s.threads| && BuilderOk(s, s.threads[b]) &&
                 forall u :: 0 <= u < |s.threads| && u != b ==> !Building(s.threads[u]) && !s.threads[u].Returned?;
        BusyStep(s, b, t, succeeds);
      case Untried =>
        if s.threads[t].Claiming? {
          assert BuilderOk(r, r.threads[t]);
        }
      case _ =>
    }
  }

  lemma {:induction false} RunsKeep(n: nat, moves: seq<Move>, states: seq<State>)
    requires Run(n, moves, states)
    ensures Inv(states[|moves|])
  {
    var k := |moves| - 1;
    if moves != [] {
      assert Follows(states[k], moves[k], states[k + 1]);
      RunsKeep(n, moves[..k], states[..k + 1]);
      StepKeeps(states[k], moves[k].thread, moves[k].succeeds);
    }
  }

  /**
   Over every interleaving the constructor runs at most once, and a call returns
   only after it has completed, with its outcome: all returning calls agree.
   */
  lemma InitialisedOnce(n: nat, moves: seq<Move>, states: seq<State>)
    requires Run(n, moves, states)
    ensures var s := states[|moves|];
            && s.constructed <= 1
            && forall t :: 0 <= t < |s.threads| && s.threads[t].Returned? ==>
                 s.constructed == 1 && s.outcome == Some(s.threads[t].ok)
  {
    RunsKeep(n, moves, states);
    var s := states[|moves|];
    if s.word == Busy {
      var b :| 0 <= b < |s.threads| && BuilderOk(s, s.threads[b]) &&
               forall u :: 0 <= u < |s.threads| && u != b ==> !Building(s.threads[u]) && !s.threads[u].Returned?;
    }
  }

  /** A thread never spins for nothing: while one does and the word is not settled, another is building. */
  lemma SpinnersHaveABuilder(n: nat, moves: seq<Move>, states: seq<State>, t: nat) returns (b: nat)
    requires Run(n, moves, states) && t < |states[|moves|].threads| && states[|moves|].threads[t].Spinning?
    requires Settled(states[|moves|].word, Spinning) == Spinning
    ensures b < |states[|moves|].threads| && b != t && Building(states[|moves|].threads[b])
  {
    RunsKeep(n, moves, states);
    var s := states[|moves|];
    var c :| 0 <= c < |s.threads| && BuilderOk(s, s.threads[c]) &&
             forall u :: 0 <= u < |s.threads| && u != c ==> !Building(s.threads[u]) && !s.threads[u].Returned?;
    b := c;
  }
}
