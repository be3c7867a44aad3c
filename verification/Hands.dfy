/**
 The betting engine as functions on hand values: who acts next, how a street
 ends, and what a fold, a call and a raise do. HandState refines these
 functions with arrays updated in place.
 */
module Hands {
  import opened Chips

  const PLAYERS := 6
  const DECK_SIZE := 52
  const MAX_BOARD := 5
  const MAX_HISTORY := 128
  const START_STACK := 200
  const SMALL_BLIND := 1
  const BIG_BLIND := 2
  const TOTAL_CHIPS := PLAYERS * START_STACK

  const ACT_FOLD := 0
  const ACT_CALL_CHECK := 1
  const ACT_ALL_IN := 4
  const ACT_RAISE_TO := 5

  const RAISE_MARK := 250
  const STREET_MARK := 240

  type Hole = (int, int)

  datatype Hand = Hand(
    dealer: int,
    street: int,
    pot: int,
    toCall: int,
    current: int,
    board: seq<int>,
    hole: seq<Hole>,
    stack: seq<int>,
    inHand: seq<bool>,
    committed: seq<int>,
    contributed: seq<int>,
    needs: seq<bool>,
    acted: seq<bool>,
    actedSeq: seq<int>,
    numRaises: int,
    lastFullRaise: int,
    fullRaiseSeq: int,
    terminal: bool,
    resolved: bool,
    deck: seq<int>,
    deckPos: int,
    history: seq<int>)

  /** Array lengths and seat ranges: what the C struct's declarations give. */
  predicate Shape(h: Hand) {
    && |h.stack| == |h.inHand| == |h.committed| == |h.contributed| == PLAYERS
    && |h.needs| == |h.acted| == |h.actedSeq| == |h.hole| == PLAYERS
    && |h.deck| == DECK_SIZE && 0 <= h.deckPos <= DECK_SIZE
    && |h.board| <= MAX_BOARD && |h.history| <= MAX_HISTORY
    && 0 <= h.dealer < PLAYERS && -1 <= h.current < PLAYERS
    && 0 <= h.street <= 3
  }

  predicate Seat(p: int) {
    0 <= p < PLAYERS
  }

  /** The seat must still act: in the hand, has chips, flagged. */
  predicate Actable(h: Hand, p: int)
    requires Shape(h) && Seat(p)
  {
    h.inHand[p] && h.stack[p] > 0 && h.needs[p]
  }

  function CountInHand(h: Hand): nat {
    CountTrue(h.inHand)
  }

  function NeedingFlags(h: Hand): (flags: seq<bool>)
    requires Shape(h)
    ensures |flags| == PLAYERS
    ensures forall p :: Seat(p) ==> flags[p] == Actable(h, p)
  {
    seq(PLAYERS, p requires 0 <= p < PLAYERS => Actable(h, p))
  }

  function CountNeeding(h: Hand): nat
    requires Shape(h)
  {
    CountTrue(NeedingFlags(h))
  }

  function AppendHistory(history: seq<int>, code: int): seq<int> {
    if |history| < MAX_HISTORY then history + [code] else history
  }

  function AmountBucket(amount: int): (b: int)
    ensures 0 <= b <= 8
  {
    if amount <= 0 then 0
    else if amount <= 2 then 1
    else if amount <= 4 then 2
    else if amount <= 8 then 3
    else if amount <= 16 then 4
    else if amount <= 32 then 5
    else if amount <= 64 then 6
    else if amount <= 128 then 7
    else 8
  }

  /** The seat `step` places clockwise of `from`. */
  function SeatAfter(from: int, step: int): int
  {
    (from + step) % PLAYERS
  }

  /** First seat at distance step..6 clockwise of `from` that must act, or -1. */
  function NextActorAt(h: Hand, from: int, step: int): (seat: int)
    requires Shape(h) && 0 <= from && 1 <= step <= PLAYERS + 1
    ensures seat == -1 || (Seat(seat) && Actable(h, seat))
    decreases PLAYERS + 1 - step
  {
    if step > PLAYERS then -1
    else if Actable(h, SeatAfter(from, step)) then SeatAfter(from, step)
    else NextActorAt(h, from, step + 1)
  }

  function FindNextActor(h: Hand, from: int): (seat: int)
    requires Shape(h) && 0 <= from
    ensures seat == -1 || (Seat(seat) && Actable(h, seat))
  {
    NextActorAt(h, from, 1)
  }

  function FirstActor(h: Hand): (seat: int)
    requires Shape(h)
    ensures seat == -1 || (Seat(seat) && Actable(h, seat))
  {
    FindNextActor(h, if h.street == 0 then (h.dealer + 2) % PLAYERS else h.dealer)
  }

  /** The parts of a hand no bet touches. */
  predicate SameDeal(h: Hand, r: Hand) {
    && r.dealer == h.dealer && r.street == h.street && r.deck == h.deck && r.deckPos == h.deckPos
    && r.board == h.board && r.hole == h.hole && r.terminal == h.terminal && r.resolved == h.resolved
  }

  /** Moves `amount` chips of a seat into the pot. */
  function Pay(h: Hand, p: int, amount: int): Hand
    requires Shape(h) && Seat(p)
  {
    h.(stack := h.stack[p := h.stack[p] - amount],
       committed := h.committed[p := h.committed[p] + amount],
       contributed := h.contributed[p := h.contributed[p] + amount],
       pot := h.pot + amount)
  }

  function PostChips(h: Hand, p: int, amount: int): Hand
    requires Shape(h) && Seat(p)
  {
    Pay(h, p, Min(h.stack[p], amount))
  }

  /** The next card of the deck goes on the board; an exhausted deck yields card 0. */
  function DealOne(h: Hand): (r: Hand)
    requires Shape(h) && |h.board| < MAX_BOARD
    ensures Shape(r) && r == h.(board := r.board, deckPos := r.deckPos) && |r.board| == |h.board| + 1
  {
    if h.deckPos >= DECK_SIZE then h.(board := h.board + [0])
    else h.(board := h.board + [h.deck[h.deckPos]], deckPos := h.deckPos + 1)
  }

  /** Draws up to n board cards, stopping at five. */
  function DealBoard(h: Hand, n: nat): (r: Hand)
    requires Shape(h)
    ensures Shape(r) && r == h.(board := r.board, deckPos := r.deckPos)
    decreases n
  {
    if n == 0 || |h.board| >= MAX_BOARD then h else DealBoard(DealOne(h), n - 1)
  }

  function CardsForStreet(street: int): nat {
    if street == 1 then 3 else if street == 2 || street == 3 then 1 else 0
  }

  function ResetForNewStreet(h: Hand): (r: Hand)
    requires Shape(h)
    ensures Shape(r)
  {
    h.(committed := seq(PLAYERS, _ => 0),
       acted := seq(PLAYERS, _ => false),
       actedSeq := seq(PLAYERS, _ => -1),
       toCall := 0, numRaises := 0, lastFullRaise := BIG_BLIND, fullRaiseSeq := 0)
  }

  function AllNeed(h: Hand): seq<bool>
    requires Shape(h)
  {
    seq(PLAYERS, p requires 0 <= p < PLAYERS => h.inHand[p] && h.stack[p] > 0)
  }

  /** The next street's cards and a clean betting record. */
  function OpenStreet(h: Hand): (r: Hand)
    requires Shape(h) && h.street < 3
    ensures Shape(r) && r.street == h.street + 1 && r.terminal == h.terminal && r.stack == h.stack
  {
    var h1 := h.(street := h.street + 1, history := AppendHistory(h.history, STREET_MARK + h.street + 1));
    ResetForNewStreet(DealBoard(h1, CardsForStreet(h1.street)))
  }

  function NextStreet(h: Hand): (r: Hand)
    requires Shape(h) && h.street < 3
    ensures Shape(r) && r.street == h.street + 1 && r.terminal == h.terminal && r.stack == h.stack
  {
    var h1 := OpenStreet(h);
    var h2 := h1.(needs := AllNeed(h1));
    h2.(current := FirstActor(h2))
  }

  function Finish(h: Hand): Hand {
    h.(terminal := true, current := -1)
  }

  function AutoAdvance(h: Hand): (r: Hand)
    requires Shape(h)
    ensures Shape(r)
    decreases 3 - h.street
  {
    if h.terminal then h
    else if CountInHand(h) <= 1 then Finish(h)
    else if CountNeeding(h) > 0 then
      if h.current < 0 || !Actable(h, h.current) then h.(current := FirstActor(h)) else h
    else if h.street >= 3 then Finish(h)
    else AutoAdvance(NextStreet(h))
  }

  /** The seat's place in the dealing order, counted from the dealer's left. */
  function DealOrder(p: int, dealer: int): (k: int)
    ensures 0 <= k < PLAYERS
  {
    (p + 5 - dealer) % PLAYERS
  }

  /** Seat p receives the two cards dealt to it, one per round, starting left of the dealer. */
  function DealHoles(deck: seq<int>, dealer: int): (hole: seq<Hole>)
    requires |deck| == DECK_SIZE && 0 <= dealer < PLAYERS
    ensures |hole| == PLAYERS
  {
    seq(PLAYERS, p requires 0 <= p < PLAYERS =>
      (deck[DealOrder(p, dealer)], deck[PLAYERS + DealOrder(p, dealer)]))
  }

  function BeforeBlinds(dealer: int, deck: seq<int>): (h: Hand)
    requires |deck| == DECK_SIZE
    ensures Shape(h)
  {
    Hand(dealer % PLAYERS, 0, 0, 0, -1, [], DealHoles(deck, dealer % PLAYERS),
         seq(PLAYERS, _ => START_STACK), seq(PLAYERS, _ => true),
         seq(PLAYERS, _ => 0), seq(PLAYERS, _ => 0), seq(PLAYERS, _ => false),
         seq(PLAYERS, _ => false), seq(PLAYERS, _ => -1),
         0, BIG_BLIND, 0, false, false, deck, 2 * PLAYERS, [])
  }

  /** A struct reused for a new hand: its counters, then its seats. */
  function BetsCleared(h: Hand): (r: Hand)
    requires Shape(h)
    ensures Shape(r)
  {
    h.(pot := 0, toCall := 0, current := -1, numRaises := 0, lastFullRaise := BIG_BLIND, fullRaiseSeq := 0)
  }

  function CountersCleared(h: Hand, dealer: int): (r: Hand)
    requires Shape(h)
    ensures Shape(r)
  {
    BetsCleared(h).(dealer := dealer % PLAYERS, street := 0, board := [], deckPos := 0, history := [],
                    terminal := false, resolved := false)
  }

  function SeatsCleared(h: Hand): (r: Hand)
    requires Shape(h)
    ensures Shape(r)
  {
    h.(stack := seq(PLAYERS, _ => START_STACK), inHand := seq(PLAYERS, _ => true),
       committed := seq(PLAYERS, _ => 0), contributed := seq(PLAYERS, _ => 0), needs := seq(PLAYERS, _ => false),
       acted := seq(PLAYERS, _ => false), actedSeq := seq(PLAYERS, _ => -1))
  }

  function BlindChips(h: Hand): (r: Hand)
    requires Shape(h)
    ensures Shape(r)
  {
    PostChips(PostChips(h, (h.dealer + 1) % PLAYERS, SMALL_BLIND), (h.dealer + 2) % PLAYERS, BIG_BLIND)
  }

  function BlindBet(h: Hand): (r: Hand)
    requires Shape(h)
    ensures Shape(r) && r.dealer == h.dealer
  {
    var r := BlindChips(h);
    r.(toCall := r.committed[(h.dealer + 2) % PLAYERS], lastFullRaise := BIG_BLIND)
  }

  function EveryoneToAct(h: Hand, from: int): (r: Hand)
    requires Shape(h) && 0 <= from
    ensures Shape(r)
  {
    var h1 := h.(needs := AllNeed(h));
    h1.(current := FindNextActor(h1, from))
  }

  /** Blinds posted, everybody to act, the seat after the big blind first. */
  function BlindsPosted(h: Hand): (r: Hand)
    requires Shape(h)
    ensures Shape(r)
  {
    EveryoneToAct(BlindBet(h), (h.dealer + 2) % PLAYERS)
  }

  function AfterBlinds(dealer: int, deck: seq<int>): (h: Hand)
    requires |deck| == DECK_SIZE
    ensures Shape(h)
  {
    BlindsPosted(BeforeBlinds(dealer, deck))
  }

  function Init(dealer: int, deck: seq<int>): (h: Hand)
    requires |deck| == DECK_SIZE
    ensures Shape(h)
  {
    AutoAdvance(AfterBlinds(dealer, deck))
  }

  function CallAmount(h: Hand, p: int): int
    requires Shape(h) && Seat(p)
  {
    Max(h.toCall - h.committed[p], 0)
  }

  function ApplyCall(h: Hand, p: int): (r: Hand)
    requires Shape(h) && Seat(p)
    ensures Shape(r) && SameDeal(h, r)
  {
    var r := Pay(h, p, Min(CallAmount(h, p), h.stack[p]));
    r.(needs := h.needs[p := false])
  }

  /** The requested raise target, kept between the chips already in and all chips. */
  function ClampTarget(h: Hand, p: int, target: int): int
    requires Shape(h) && Seat(p)
  {
    Min(Max(target, h.committed[p]), h.committed[p] + h.stack[p])
  }

  function Reopened(h: Hand, p: int): seq<bool>
    requires Shape(h) && Seat(p)
  {
    seq(PLAYERS, i requires 0 <= i < PLAYERS =>
      if i == p then false
      else if h.inHand[i] && h.stack[i] > 0 && h.committed[i] < h.toCall then true
      else h.needs[i])
  }

  /** Lifts the bet to t; only a full raise resets the size of a full raise. */
  function Bet(h: Hand, p: int, t: int): (r: Hand)
    requires Shape(h) && Seat(p)
    ensures Shape(r) && SameDeal(h, r)
  {
    var size := t - h.toCall;
    Pay(h, p, t - h.committed[p]).(
      toCall := t, numRaises := h.numRaises + 1,
      lastFullRaise := if size >= h.lastFullRaise then size else h.lastFullRaise)
  }

  /** The raise itself, and whether it was a full raise. */
  function ApplyRaiseTo(h: Hand, p: int, target: int): (r: (Hand, bool))
    requires Shape(h) && Seat(p)
    ensures Shape(r.0) && SameDeal(h, r.0)
  {
    var t := ClampTarget(h, p, target);
    if t <= h.toCall then (ApplyCall(h, p), false)
    else
      var bet := Bet(h, p, t);
      (bet.(needs := Reopened(bet, p)), t - h.toCall >= h.lastFullRaise)
  }

  /** Chips the move puts in. */
  function Paid(h: Hand, p: int, action: int, target: int): int
    requires Shape(h) && Seat(p)
  {
    var a := Effective(h, p, action);
    if a == ACT_FOLD then 0
    else if a == ACT_CALL_CHECK || ClampTarget(h, p, target) <= h.toCall then Min(CallAmount(h, p), h.stack[p])
    else ClampTarget(h, p, target) - h.committed[p]
  }

  function MarkActed(h: Hand, p: int): (r: Hand)
    requires Shape(h) && Seat(p)
    ensures Shape(r) && SameDeal(h, r)
  {
    h.(acted := h.acted[p := true], actedSeq := h.actedSeq[p := h.fullRaiseSeq])
  }

  function Fold(h: Hand, p: int): (r: Hand)
    requires Shape(h) && Seat(p)
    ensures Shape(r) && SameDeal(h, r)
  {
    MarkActed(h.(history := AppendHistory(h.history, ACT_FOLD),
                 inHand := h.inHand[p := false],
                 needs := h.needs[p := false]), p)
  }

  function Call(h: Hand, p: int): (r: Hand)
    requires Shape(h) && Seat(p)
    ensures Shape(r) && SameDeal(h, r)
  {
    MarkActed(ApplyCall(h.(history := AppendHistory(h.history, ACT_CALL_CHECK)), p), p)
  }

  function RaiseCode(action: int): int {
    if action == ACT_ALL_IN then ACT_ALL_IN else ACT_RAISE_TO
  }

  /** A raise leaves a marker and its size class in the history. */
  function NoteRaise(h: Hand, size: int): (r: Hand)
    requires Shape(h)
    ensures Shape(r) && SameDeal(h, r)
  {
    h.(history := AppendHistory(AppendHistory(h.history, RAISE_MARK), AmountBucket(size)))
  }

  /** The raise, counted if it was full. */
  function CountedRaise(h: Hand, p: int, action: int, target: int): (r: Hand)
    requires Shape(h) && Seat(p)
    ensures Shape(r) && SameDeal(h, r)
  {
    var (h1, full) := ApplyRaiseTo(h.(history := AppendHistory(h.history, RaiseCode(action))), p, target);
    if full then h1.(fullRaiseSeq := h1.fullRaiseSeq + 1) else h1
  }

  function Raise(h: Hand, p: int, action: int, target: int): (r: Hand)
    requires Shape(h) && Seat(p)
    ensures Shape(r) && SameDeal(h, r)
  {
    var h1 := MarkActed(CountedRaise(h, p, action, target), p);
    NoteRaise(h1, h1.toCall - h.toCall)
  }

  /** A fold with nothing to call is a check. */
  function Effective(h: Hand, p: int, action: int): int
    requires Shape(h) && Seat(p)
  {
    if action == ACT_FOLD && CallAmount(h, p) <= 0 then ACT_CALL_CHECK else action
  }

  /** The seat's own move, before the turn passes on. */
  function Act(h: Hand, p: int, action: int, target: int): (r: Hand)
    requires Shape(h) && Seat(p)
    ensures Shape(r) && SameDeal(h, r)
    ensures r.stack == h.stack[p := h.stack[p] - Paid(h, p, action, target)]
  {
    var a := Effective(h, p, action);
    if a == ACT_FOLD then
      assert h.stack == h.stack[p := h.stack[p]];
      Fold(h, p)
    else if a == ACT_CALL_CHECK then Call(h, p)
    else Raise(h, p, action, target)
  }

  function PassTurn(h: Hand, p: int): (r: Hand)
    requires Shape(h) && Seat(p)
    ensures Shape(r)
  {
    if CountInHand(h) <= 1 then Finish(h)
    else AutoAdvance(h.(current := FindNextActor(h, p)))
  }

  function ApplyAction(h: Hand, p: int, action: int, target: int): (r: Hand)
    requires Shape(h) && Seat(p)
    ensures Shape(r)
  {
    if h.terminal then h else PassTurn(Act(h, p, action, target), p)
  }

  datatype Move = Move(action: int, target: int)

  /** One move by whoever's turn it is; a finished hand stays as it is. */
  function Step(h: Hand, m: Move): (r: Hand)
    requires Shape(h)
    ensures Shape(r)
  {
    if h.terminal || h.current < 0 then h else ApplyAction(h, h.current, m.action, m.target)
  }

  function Run(h: Hand, moves: seq<Move>): (r: Hand)
    requires Shape(h)
    ensures Shape(r)
  {
    if moves == [] then h else Step(Run(h, moves[..|moves| - 1]), moves[|moves| - 1])
  }
}
