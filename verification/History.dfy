/**
 The action history as a byte code: what a run writes, how a street's segment is
 found again, and how it decodes to the moves made on that street.
 */
module History {
  import opened Chips
  import opened Hands
  import opened Betting
  import opened HandRuns

  // ----- reading -----

  predicate IsSeparator(code: int) {
    240 <= code <= 243
  }

  function SeparatorCount(codes: seq<int>): nat {
    if codes == [] then 0
    else SeparatorCount(codes[..|codes| - 1]) + if IsSeparator(codes[|codes| - 1]) then 1 else 0
  }

  /** [begin, end) holds a street's codes: it starts after that many separators and runs to the next one. */
  predicate Segment(codes: seq<int>, street: nat, begin: int, end: int) {
    && 0 <= begin <= end <= |codes|
    && SeparatorCount(codes[..begin]) == street
    && (street > 0 ==> begin > 0 && IsSeparator(codes[begin - 1]))
    && (street == 0 ==> begin == 0)
    && (forall i :: begin <= i < end ==> !IsSeparator(codes[i]))
    && (end < |codes| ==> IsSeparator(codes[end]))
  }

  lemma {:induction false} SeparatorsAppend(s: seq<int>, t: seq<int>)
    ensures SeparatorCount(s + t) == SeparatorCount(s) + SeparatorCount(t)
  {
    if t == [] {
      assert s + t == s;
    } else {
      assert (s + t)[..|s + t| - 1] == s + t[..|t| - 1];
      SeparatorsAppend(s, t[..|t| - 1]);
    }
  }

  lemma {:induction false} NoSeparators(s: seq<int>)
    requires forall i :: 0 <= i < |s| ==> !IsSeparator(s[i])
    ensures SeparatorCount(s) == 0
  {
    if s != [] {
      NoSeparators(s[..|s| - 1]);
    }
  }

  /** Scans for a street's segment, as the search does before replaying it. */
  method SegmentBounds(codes: seq<int>, street: int) returns (begin: int, end: int)
    ensures codes == [] ==> begin == end == 0
    ensures street <= 0 ==> Segment(codes, 0, begin, end)
    ensures codes != [] && 0 < street ==>
      if street <= SeparatorCount(codes) then Segment(codes, street, begin, end)
      else if SeparatorCount(codes) == 0 then begin == 0 && end == |codes|
      else begin == end == |codes|
  {
    begin, end := 0, |codes|;
    if codes == [] {
      return;
    }
    if street <= 0 {
      for i := 0 to |codes|
        invariant forall k :: 0 <= k < i ==> !IsSeparator(codes[k])
      {
        if IsSeparator(codes[i]) {
          return 0, i;
        }
      }
      return;
    }
    var seen := 0;
    var i := 0;
    var closed := false;
    while i < |codes| && !closed
      invariant 0 <= i <= |codes| && 0 <= seen <= street && 0 <= begin <= i
      invariant closed ==> seen == street && Segment(codes, street, begin, end)
      invariant !closed ==> end == |codes| && seen == SeparatorCount(codes[..i])
      invariant seen < street ==> begin == 0 && !closed
      invariant seen == street ==> begin > 0 && IsSeparator(codes[begin - 1])
      invariant seen == street ==> SeparatorCount(codes[..begin]) == street
      invariant seen == street && !closed ==> forall k :: begin <= k < i ==> !IsSeparator(codes[k])
      decreases |codes| - i, !closed
    {
      assert codes[..i + 1][..i] == codes[..i];
      if IsSeparator(codes[i]) {
        if seen == street {
          end := i;
          closed := true;
        } else {
          seen := seen + 1;
          if seen == street {
            begin := i + 1;
          }
          i := i + 1;
        }
      } else {
        i := i + 1;
      }
    }
    if closed {
      assert codes == codes[..begin] + codes[begin..];
      SeparatorsAppend(codes[..begin], codes[begin..]);
    } else {
      assert codes[..i] == codes;
      if seen < street && seen > 0 {
        begin, end := |codes|, |codes|;
      }
    }
  }

  /** One recorded move; only a sized raise carries a size class. */
  datatype Event = Event(code: int, bucket: int)

  predicate IsAction(code: int) {
    code == ACT_FOLD || code == ACT_CALL_CHECK || code == ACT_RAISE_TO || code == ACT_ALL_IN
  }

  function Decode(s: seq<int>): seq<Event>
    decreases |s|
  {
    if s == [] then []
    else if IsSeparator(s[0]) then Decode(s[1..])
    else if s[0] == RAISE_MARK then Decode(s[Min(2, |s|)..])
    else if !IsAction(s[0]) then Decode(s[1..])
    else if s[0] == ACT_RAISE_TO && |s| >= 3 && s[1] == RAISE_MARK then [Event(ACT_RAISE_TO, s[2])] + Decode(s[3..])
    else [Event(s[0], -1)] + Decode(s[1..])
  }

  /** Reads the moves out of a segment, skipping markers and unknown codes. */
  method DecodeSegment(codes: seq<int>, begin: nat, end: nat) returns (events: seq<Event>)
    requires begin <= end <= |codes|
    ensures events == Decode(codes[begin..end])
  {
    events := [];
    var i := begin;
    while i < end
      invariant begin <= i <= end
      invariant events + Decode(codes[i..end]) == Decode(codes[begin..end])
    {
      ghost var rest := codes[i..end];
      var code := codes[i];
      assert rest[1..] == codes[i + 1..end];
      if IsSeparator(code) {
        i := i + 1;
      } else if code == RAISE_MARK {
        assert rest[Min(2, |rest|)..] == codes[Min(i + 2, end)..end];
        if i + 1 < end {
          i := i + 1;
        }
        i := i + 1;
      } else if !IsAction(code) {
        i := i + 1;
      } else if code == ACT_RAISE_TO && i + 2 < end && codes[i + 1] == RAISE_MARK {
        assert rest[3..] == codes[i + 3..end];
        ghost var was := events;
        events := events + [Event(code, codes[i + 2])];
        assert events + Decode(rest[3..]) == was + Decode(rest);
        i := i + 3;
      } else {
        ghost var was := events;
        events := events + [Event(code, -1)];
        assert events + Decode(rest[1..]) == was + Decode(rest);
        i := i + 1;
      }
    }
  }

  // ----- writing -----

  predicate IsSized(code: int) {
    code == ACT_RAISE_TO || code == ACT_ALL_IN
  }

  predicate WellCoded(e: Event) {
    IsAction(e.code) && if IsSized(e.code) then 0 <= e.bucket <= 8 else e.bucket == -1
  }

  function Encode(e: Event): seq<int> {
    if IsSized(e.code) then [e.code, RAISE_MARK, e.bucket] else [e.code]
  }

  function EncodeAll(es: seq<Event>): seq<int> {
    if es == [] then [] else EncodeAll(es[..|es| - 1]) + Encode(es[|es| - 1])
  }

  /** What a reader recovers of an event: an all-in's size class is not kept. */
  function Recovered(e: Event): Event {
    if e.code == ACT_ALL_IN then Event(ACT_ALL_IN, -1) else e
  }

  function RecoverAll(es: seq<Event>): (r: seq<Event>)
    ensures |r| == |es|
  {
    seq(|es|, i requires 0 <= i < |es| => Recovered(es[i]))
  }

  lemma {:induction false} EncodeHasNoSeparators(es: seq<Event>)
    requires forall i :: 0 <= i < |es| ==> WellCoded(es[i])
    ensures forall i :: 0 <= i < |EncodeAll(es)| ==> !IsSeparator(EncodeAll(es)[i])
  {
    if es != [] {
      EncodeHasNoSeparators(es[..|es| - 1]);
    }
  }

  lemma DecodeOne(e: Event, t: seq<int>)
    requires WellCoded(e)
    ensures Decode(Encode(e) + t) == [Recovered(e)] + Decode(t)
  {
    var s := Encode(e) + t;
    if e.code == ACT_RAISE_TO {
      assert s[3..] == t;
    } else if e.code == ACT_ALL_IN {
      assert s[1..] == [RAISE_MARK, e.bucket] + t;
      assert s[1..][2..] == t;
    } else {
      assert s[1..] == t;
    }
  }

  lemma {:induction false} DecodeEncodesRest(es: seq<Event>, t: seq<int>)
    requires forall i :: 0 <= i < |es| ==> WellCoded(es[i])
    ensures Decode(EncodeAll(es) + t) == RecoverAll(es) + Decode(t)
  {
    hide Encode;
    if es == [] {
      assert EncodeAll(es) + t == t;
    } else {
      var n := |es| - 1;
      DecodeEncodesRest(es[..n], Encode(es[n]) + t);
      assert EncodeAll(es) + t == EncodeAll(es[..n]) + (Encode(es[n]) + t);
      DecodeOne(es[n], t);
      assert RecoverAll(es) == RecoverAll(es[..n]) + [Recovered(es[n])];
    }
  }

  /** Markers and size classes are never mistaken for moves. */
  lemma DecodeEncodes(es: seq<Event>)
    requires forall i :: 0 <= i < |es| ==> WellCoded(es[i])
    ensures Decode(EncodeAll(es)) == RecoverAll(es)
  {
    DecodeEncodesRest(es, []);
    assert EncodeAll(es) + [] == EncodeAll(es) && RecoverAll(es) + [] == RecoverAll(es);
  }

  // ----- a run writes its moves -----

  /** The event a move leaves: a fold with nothing to call is recorded as a check. */
  function MoveEvent(h: Hand, m: Move): (e: Event)
    requires Shape(h) && Seat(h.current)
    ensures WellCoded(e)
  {
    var a := Effective(h, h.current, m.action);
    if a == ACT_FOLD || a == ACT_CALL_CHECK then Event(a, -1)
    else Event(RaiseCode(a), AmountBucket(RaiseSize(h, m)))
  }

  function StreetMarks(lo: int, hi: int): seq<int>
    requires lo <= hi
    decreases hi - lo
  {
    if lo == hi then [] else StreetMarks(lo, hi - 1) + [STREET_MARK + hi]
  }

  lemma {:induction false} StreetMarksCount(lo: int, hi: int)
    requires 0 <= lo <= hi <= 3
    ensures SeparatorCount(StreetMarks(lo, hi)) == hi - lo
    ensures lo < hi ==> StreetMarks(lo, hi) != [] && IsSeparator(StreetMarks(lo, hi)[|StreetMarks(lo, hi)| - 1])
    decreases hi - lo
  {
    if lo < hi {
      StreetMarksCount(lo, hi - 1);
      assert StreetMarks(lo, hi)[..|StreetMarks(lo, hi)| - 1] == StreetMarks(lo, hi - 1);
    }
  }

  /** The first 128 codes: what fits in the buffer. */
  function Clip(codes: seq<int>): seq<int> {
    if |codes| <= MAX_HISTORY then codes else codes[..MAX_HISTORY]
  }

  lemma ClipAppend(codes: seq<int>, code: int)
    ensures AppendHistory(Clip(codes), code) == Clip(codes + [code])
  {
  }

  lemma {:induction false} MarksPrepend(lo: int, hi: int)
    requires lo < hi
    ensures StreetMarks(lo, hi) == [STREET_MARK + lo + 1] + StreetMarks(lo + 1, hi)
    decreases hi - lo
  {
    if lo + 1 < hi {
      MarksPrepend(lo, hi - 1);
    }
  }

  lemma {:induction false} MarksJoin(codes: seq<int>, lo: int, hi: int)
    requires lo < hi
    ensures codes + [STREET_MARK + lo + 1] + StreetMarks(lo + 1, hi) == codes + StreetMarks(lo, hi)
  {
    MarksPrepend(lo, hi);
  }

  lemma NoMarks(codes: seq<int>, street: int)
    ensures codes + StreetMarks(street, street) == codes
  {
  }

  lemma NextStreetHistory(h: Hand, codes: seq<int>)
    requires Shape(h) && h.street < 3 && h.history == Clip(codes)
    ensures NextStreet(h).history == Clip(codes + [STREET_MARK + h.street + 1])
  {
    ClipAppend(codes, STREET_MARK + h.street + 1);
  }

  lemma {:induction false} AutoAdvanceHistory(h: Hand, codes: seq<int>)
    requires Shape(h) && h.history == Clip(codes)
    ensures var r := AutoAdvance(h);
            h.street <= r.street && r.history == Clip(codes + StreetMarks(h.street, r.street))
    decreases 3 - h.street
  {
    if !h.terminal && CountInHand(h) > 1 && CountNeeding(h) == 0 && h.street < 3 {
      var mark := [STREET_MARK + h.street + 1];
      var last := AutoAdvance(NextStreet(h)).street;
      NextStreetHistory(h, codes);
      assert AutoAdvance(h) == AutoAdvance(NextStreet(h)) && NextStreet(h).street == h.street + 1;
      AutoAdvanceHistory(NextStreet(h), codes + mark);
      MarksJoin(codes, h.street, last);
    } else {
      assert AutoAdvance(h).street == h.street && AutoAdvance(h).history == h.history;
      NoMarks(codes, h.street);
    }
  }

  lemma RaiseHistory(h: Hand, p: int, action: int, target: int)
    requires Bets(h) && Seat(p) && !h.terminal
    ensures var size := Max(ClampTarget(h, p, target) - h.toCall, 0);
            Raise(h, p, action, target).history ==
            AppendHistory(AppendHistory(AppendHistory(h.history, RaiseCode(action)), RAISE_MARK), AmountBucket(size))
  {
    RaiseRecords(h, p, action, target);
  }

  lemma {:induction false} ActHistory(h: Hand, m: Move, codes: seq<int>)
    requires Bets(h) && Seat(h.current) && !h.terminal && h.history == Clip(codes)
    ensures Act(h, h.current, m.action, m.target).history == Clip(codes + Encode(MoveEvent(h, m)))
  {
    hide Raise, SeatOk, Leads;
    var e := MoveEvent(h, m);
    ClipAppend(codes, e.code);
    if IsSized(e.code) {
      RaiseHistory(h, h.current, m.action, m.target);
      ClipAppend(codes + [e.code], RAISE_MARK);
      ClipAppend(codes + [e.code] + [RAISE_MARK], e.bucket);
      assert codes + Encode(e) == codes + [e.code] + [RAISE_MARK] + [e.bucket];
    }
  }

  lemma StepHistory(h: Hand, m: Move, codes: seq<int>)
    requires Inv(h) && !h.terminal && h.history == Clip(codes)
    ensures var r := Step(h, m);
            h.street <= r.street && r.history == Clip(codes + Encode(MoveEvent(h, m)) + StreetMarks(h.street, r.street))
  {
    var p := h.current;
    var a := Act(h, p, m.action, m.target);
    var codes1 := codes + Encode(MoveEvent(h, m));
    ActHistory(h, m, codes);
    if CountInHand(a) <= 1 {
      assert codes1 + StreetMarks(h.street, h.street) == codes1;
    } else {
      AutoAdvanceHistory(a.(current := FindNextActor(a, p)), codes1);
    }
  }

  /**
   A hand as it is played: everything written so far as if the buffer had no end,
   the part of it from earlier streets, and the moves made on the current street.
   */
  datatype Trace = Trace(hand: Hand, codes: seq<int>, earlier: seq<int>, events: seq<Event>)

  /** One more move; a new street opens with the separators that were written for it. */
  function Extend(t: Trace, m: Move): (r: Trace)
    requires Shape(t.hand)
    ensures r.hand == Step(t.hand, m) && Shape(r.hand)
  {
    if t.hand.terminal || t.hand.current < 0 then t
    else
      var h, e := Step(t.hand, m), MoveEvent(t.hand, m);
      var codes := t.codes + Encode(e) + if t.hand.street <= h.street then StreetMarks(t.hand.street, h.street) else [];
      if h.street > t.hand.street then Trace(h, codes, codes, []) else Trace(h, codes, t.earlier, t.events + [e])
  }

  function TraceOf(h0: Hand, moves: seq<Move>): (t: Trace)
    requires Shape(h0)
    ensures t.hand == Run(h0, moves) && Shape(t.hand)
  {
    if moves == [] then Trace(h0, h0.history, h0.history, [])
    else Extend(TraceOf(h0, moves[..|moves| - 1]), moves[|moves| - 1])
  }

  ghost predicate Framed(t: Trace)
    requires Shape(t.hand)
  {
    && (forall i :: 0 <= i < |t.events| ==> WellCoded(t.events[i]))
    && t.hand.history == Clip(t.codes)
    && t.codes == t.earlier + EncodeAll(t.events)
    && SeparatorCount(t.earlier) == t.hand.street
    && (if t.hand.street == 0 then t.earlier == [] else t.earlier != [] && IsSeparator(t.earlier[|t.earlier| - 1]))
  }

  /** The separators before a street number its predecessors. */
  lemma {:induction false} NewStreetFrame(pre: seq<int>, es: seq<Event>, e: Event, lo: int, hi: int)
    requires 0 <= lo < hi <= 3 && SeparatorCount(pre) == lo && WellCoded(e)
    requires forall i :: 0 <= i < |es| ==> WellCoded(es[i])
    ensures var codes := pre + EncodeAll(es) + Encode(e) + StreetMarks(lo, hi);
            SeparatorCount(codes) == hi && codes != [] && IsSeparator(codes[|codes| - 1])
  {
    SeparatorsAppend(pre, EncodeAll(es));
    EncodeHasNoSeparators(es);
    NoSeparators(EncodeAll(es));
    NoSeparators(Encode(e));
    SeparatorsAppend(pre + EncodeAll(es), Encode(e));
    StreetMarksCount(lo, hi);
    SeparatorsAppend(pre + EncodeAll(es) + Encode(e), StreetMarks(lo, hi));
  }

  lemma InitOnFirstStreet(dealer: int, deck: seq<int>)
    requires |deck| == DECK_SIZE
    ensures var h := Init(dealer, deck); h.street == 0 && h.history == []
  {
    var h := AfterBlinds(dealer, deck);
    var third := (dealer % PLAYERS + 3) % PLAYERS;
    assert NeedingFlags(h)[third];
    CountZero(NeedingFlags(h));
  }

  lemma PrefixHasFewer(pre: seq<int>, seg: seq<int>, b: nat)
    requires b < |pre| && IsSeparator(pre[|pre| - 1])
    ensures SeparatorCount((pre + seg)[..b]) < SeparatorCount(pre)
  {
    assert (pre + seg)[..b] == pre[..b] && pre[..|pre| - 1] == pre[..b] + pre[b..|pre| - 1];
    SeparatorsAppend(pre[..b], pre[b..|pre| - 1]);
  }

  lemma SegmentUnique(pre: seq<int>, seg: seq<int>, street: nat, begin: int, end: int)
    requires SeparatorCount(pre) == street && forall i :: 0 <= i < |seg| ==> !IsSeparator(seg[i])
    requires if street == 0 then pre == [] else pre != [] && IsSeparator(pre[|pre| - 1])
    requires Segment(pre + seg, street, begin, end)
    ensures begin == |pre| && end == |pre + seg|
  {
    assert forall i :: |pre| <= i < |pre + seg| ==> !IsSeparator((pre + seg)[i]);
    forall b | 0 <= b < |pre|
      ensures SeparatorCount((pre + seg)[..b]) < street
    {
      PrefixHasFewer(pre, seg, b);
    }
  }

  lemma EncodeAllAppend(es: seq<Event>, e: Event)
    requires WellCoded(e) && forall i :: 0 <= i < |es| ==> WellCoded(es[i])
    ensures EncodeAll(es + [e]) == EncodeAll(es) + Encode(e)
  {
    assert (es + [e])[..|es|] == es;
  }

  lemma SameStreetFrame(pre: seq<int>, es: seq<Event>, e: Event, street: int)
    requires WellCoded(e) && forall i :: 0 <= i < |es| ==> WellCoded(es[i])
    ensures pre + EncodeAll(es) + Encode(e) + StreetMarks(street, street) == pre + EncodeAll(es + [e])
  {
    EncodeAllAppend(es, e);
    NoMarks(pre + EncodeAll(es) + Encode(e), street);
  }

  lemma ExtendKeepsFrame(t: Trace, m: Move)
    requires Inv(t.hand) && Framed(t)
    ensures Framed(Extend(t, m))
  {
    hide Step, Bets, Encode;
    var h := t.hand;
    if !h.terminal {
      var r, e := Step(h, m), MoveEvent(h, m);
      StepRecords(h, m);
      StepHistory(h, m, t.codes);
      if h.street < r.street {
        NewStreetFrame(t.earlier, t.events, e, h.street, r.street);
        assert EncodeAll([]) == [];
      } else {
        SameStreetFrame(t.earlier, t.events, e, h.street);
      }
    }
  }

  lemma StartIsFramed(dealer: int, deck: seq<int>)
    requires |deck| == DECK_SIZE
    ensures Framed(TraceOf(Init(dealer, deck), []))
  {
    InitOnFirstStreet(dealer, deck);
  }

  lemma {:induction false} RunsAreFramed(dealer: int, deck: seq<int>, moves: seq<Move>)
    requires |deck| == DECK_SIZE
    ensures Framed(TraceOf(Init(dealer, deck), moves))
  {
    hide Framed, Init;
    var h0 := Init(dealer, deck);
    if moves == [] {
      StartIsFramed(dealer, deck);
    } else {
      var front := moves[..|moves| - 1];
      RunsAreFramed(dealer, deck, front);
      RunKeeps(dealer, deck, front);
      ExtendKeepsFrame(TraceOf(h0, front), moves[|moves| - 1]);
    }
  }

  lemma FramedReadsBack(t: Trace, begin: int, end: int)
    requires Shape(t.hand) && Framed(t) && |t.codes| <= MAX_HISTORY
    requires Segment(t.hand.history, t.hand.street, begin, end)
    ensures Decode(t.hand.history[begin..end]) == RecoverAll(t.events)
  {
    EncodeHasNoSeparators(t.events);
    SegmentUnique(t.earlier, EncodeAll(t.events), t.hand.street, begin, end);
    assert t.hand.history[begin..end] == EncodeAll(t.events);
    DecodeEncodes(t.events);
  }

  /** The search for a street's codes finds them: the separators before it were written. */
  lemma FramedHasStreet(t: Trace)
    requires Shape(t.hand) && Framed(t) && |t.codes| <= MAX_HISTORY
    ensures t.hand.street <= SeparatorCount(t.hand.history)
    ensures t.hand.history == [] ==> t.hand.street == 0
  {
    SeparatorsAppend(t.earlier, EncodeAll(t.events));
  }

  /**
   A history that fitted in the buffer reads back: the segment found for the
   current street decodes to exactly the moves made on it, in order.
   */
  method ReadStreet(codes: seq<int>, street: int, ghost t: Trace) returns (events: seq<Event>)
    requires Shape(t.hand) && Framed(t) && |t.codes| <= MAX_HISTORY
    requires codes == t.hand.history && street == t.hand.street
    ensures events == RecoverAll(t.events)
  {
    FramedHasStreet(t);
    var begin, end := SegmentBounds(codes, street);
    FramedReadsBack(t, begin, end);
    events := DecodeSegment(codes, begin, end);
  }

  /** Every run whose codes fit: its segment exists, is unique, and decodes to the street's moves. */
  lemma HistoryRoundTrip(dealer: int, deck: seq<int>, moves: seq<Move>)
    requires |deck| == DECK_SIZE && |TraceOf(Init(dealer, deck), moves).codes| <= MAX_HISTORY
    ensures var t := TraceOf(Init(dealer, deck), moves); var begin, end := |t.earlier|, |t.codes|;
            && Framed(t) && t.hand.history == t.codes && begin <= end
            && Segment(t.codes, t.hand.street, begin, end)
            && (forall b, e :: Segment(t.codes, t.hand.street, b, e) ==> b == begin && e == end)
            && Decode(t.codes[begin..end]) == RecoverAll(t.events)
  {
    RunsAreFramed(dealer, deck, moves);
    FramedSegment(TraceOf(Init(dealer, deck), moves));
  }

  lemma FramedSegment(t: Trace)
    requires Shape(t.hand) && Framed(t)
    ensures var begin, end := |t.earlier|, |t.codes|;
            && begin <= end && Segment(t.codes, t.hand.street, begin, end)
            && (forall b, e :: Segment(t.codes, t.hand.street, b, e) ==> b == begin && e == end)
            && Decode(t.codes[begin..end]) == RecoverAll(t.events)
  {
    var rest := EncodeAll(t.events);
    EncodeHasNoSeparators(t.events);
    assert t.codes[..|t.earlier|] == t.earlier && t.codes[|t.earlier|..|t.codes|] == rest;
    forall b, e | Segment(t.codes, t.hand.street, b, e)
      ensures b == |t.earlier| && e == |t.codes|
    {
      SegmentUnique(t.earlier, rest, t.hand.street, b, e);
    }
    DecodeEncodes(t.events);
  }
}
