/**
 Which nodes an overlay has touched: a bit per node, packed in 32-bit words, and
 the list of set bits in the order they were set.
 */
module Touched {
  import opened Sequences


  const WORD_BITS := 32

  /** As many words as it takes, and no more. */
  function WordCount(capacity: nat): (words: nat)
    ensures capacity <= 32 * words < capacity + 32
  {
    (capacity + (WORD_BITS - 1)) / WORD_BITS
  }

  /** A machine word by its bits. */
  type Word = w: seq<bool> | |w| == WORD_BITS witness seq(WORD_BITS, _ => false)

  const EMPTY: Word := seq(WORD_BITS, _ => false)

  predicate Marked(words: seq<Word>, idx: nat)
    requires idx / WORD_BITS < |words|
  {
    words[idx / WORD_BITS][idx % WORD_BITS]
  }

  function WithBit(words: seq<Word>, idx: nat, bit: bool): seq<Word>
    requires idx / WORD_BITS < |words|
  {
    words[idx / WORD_BITS := words[idx / WORD_BITS][idx % WORD_BITS := bit]]
  }

  lemma SamePlace(i: nat, j: nat)
    ensures i == j <==> i / WORD_BITS == j / WORD_BITS && i % WORD_BITS == j % WORD_BITS
  {
  }

  /** Setting or clearing one mark leaves all others alone, those of the same word included. */
  lemma MarkedUpdate(words: seq<Word>, idx: nat, bit: bool, j: nat)
    requires idx / WORD_BITS < |words| && j / WORD_BITS < |words|
    ensures Marked(WithBit(words, idx, bit), j) == if j == idx then bit else Marked(words, j)
  {
    SamePlace(idx, j);
  }

  predicate DistinctBelow(list: seq<nat>, bound: nat) {
    Distinct(list) && forall i :: 0 <= i < |list| ==> list[i] < bound
  }

  /** Distinct numbers below a bound are at most that many. */
  lemma {:induction false} DistinctBound(list: seq<nat>, bound: nat)
    requires DistinctBelow(list, bound)
    ensures |list| <= bound
  {
    assert list != [] ==> list[0] < bound;
    if bound > 0 {
      if i :| 0 <= i < |list| && list[i] == bound - 1 {
        DistinctBound(list[..i] + list[i + 1..], bound - 1);
      } else {
        DistinctBound(list, bound - 1);
      }
    }
  }

  class TouchedSet {
    var capacity: nat
    var words: array<Word>
    var list: array<nat>
    var count: nat

    ghost predicate Sized()
      reads this
    {
      words as object != list && words.Length == WordCount(capacity) && list.Length == capacity && count <= capacity
    }

    ghost function Members(): seq<nat>
      requires Sized()
      reads this, list
    {
      list[..count]
    }

    /** The list is exactly the set bits, without repetition. */
    ghost predicate Valid()
      reads this, words, list
    {
      && Sized() && DistinctBelow(Members(), capacity)
      && forall idx :: 0 <= idx < WORD_BITS * words.Length ==> (Marked(words[..], idx) <==> idx in Members())
    }

    constructor (capacity: nat)
      ensures Valid() && fresh(words) && fresh(list) && this.capacity == capacity && Members() == []
    {
      this.capacity := capacity;
      words := new Word[WordCount(capacity)](_ => EMPTY);
      list := new nat[capacity](_ => 0);
      count := 0;
    }

    method Test(idx: nat) returns (marked: bool)
      requires Valid()
      ensures marked == (idx in Members())
    {
      if idx >= capacity {
        return false;
      }
      marked := words[idx / WORD_BITS][idx % WORD_BITS];
      assert marked == Marked(words[..], idx);
    }

    /** Records a node once; the list always has room. */
    method Touch(idx: nat, usedNodes: nat)
      requires Valid() && usedNodes <= capacity
      modifies this`count, words, list
      ensures Valid()
      ensures Members() == if idx >= usedNodes || idx in old(Members()) then old(Members()) else old(Members()) + [idx]
    {
      if idx >= usedNodes {
        return;
      }
      var marked := Test(idx);
      if marked {
        return;
      }
      ghost var was, bits := Members(), words[..];
      DistinctBound(was + [idx], capacity);
      words[idx / WORD_BITS] := words[idx / WORD_BITS][idx % WORD_BITS := true];
      list[count] := idx;
      count := count + 1;
      assert Members() == was + [idx];
      assert words[..] == WithBit(bits, idx, true);
      forall j | 0 <= j < WORD_BITS * words.Length
        ensures Marked(words[..], j) <==> j in Members()
      {
        MarkedUpdate(bits, idx, true, j);
      }
    }

    /** Clears the listed bits, which are all that are set. */
    method Reset()
      requires Valid()
      modifies this`count, words
      ensures Valid() && Members() == []
    {
      ghost var was := Members();
      for i := 0 to count
        modifies words
        invariant forall j :: 0 <= j < WORD_BITS * words.Length ==> (Marked(words[..], j) <==> j in was[i..])
      {
        var idx := list[i];
        ghost var bits := words[..];
        words[idx / WORD_BITS] := words[idx / WORD_BITS][idx % WORD_BITS := false];
        assert words[..] == WithBit(bits, idx, false);
        assert was[i..] == [idx] + was[i + 1..] && idx !in was[i + 1..];
        forall j | 0 <= j < WORD_BITS * words.Length
          ensures Marked(words[..], j) <==> j in was[i + 1..]
        {
          MarkedUpdate(bits, idx, false, j);
        }
      }
      count := 0;
    }

    /** Moves to larger blocks, the marks copied word by word. */
    method Grow(larger: nat)
      requires Valid() && capacity <= larger
      modifies this
      ensures Valid() && capacity == larger && Members() == old(Members())
      ensures fresh(words) && fresh(list)
    {
      var newWords := new Word[WordCount(larger)](_ => EMPTY);
      var newList := new nat[larger](_ => 0);
      for i := 0 to words.Length
        modifies newWords
        invariant newWords[..i] == words[..i] && forall k :: i <= k < newWords.Length ==> newWords[k] == EMPTY
      {
        newWords[i] := words[i];
      }
      for i := 0 to count
        modifies newList
        invariant newList[..i] == list[..i]
      {
        newList[i] := list[i];
      }
      ghost var bits, was := words[..], Members();
      words, list, capacity := newWords, newList, larger;
      forall j | 0 <= j < WORD_BITS * words.Length
        ensures Marked(words[..], j) <==> j in was
      {
        if j / WORD_BITS < |bits| {
          assert words[..][j / WORD_BITS] == bits[j / WORD_BITS];
          assert Marked(bits, j) <==> j in was;
        }
      }
    }
  }
}
