/** Strictly ascending lists, and the exchange sort that builds them in place. */
module Ascending {
  import opened Sequences


  predicate Increasing(levels: seq<int>) {
    forall i, j :: 0 <= i < j < |levels| ==> levels[i] < levels[j]
  }

  lemma AppendIncreasing(a: seq<int>, x: int)
    requires Increasing(a) && forall y :: y in a ==> y < x
    ensures Increasing(a + [x])
  {
    forall i, j | 0 <= i < j < |a + [x]|
      ensures (a + [x])[i] < (a + [x])[j]
    {
      assert i < |a| && a[i] in a;
    }
  }

  function Insert(levels: seq<int>, x: int): (r: seq<int>)
    ensures forall y :: y in r <==> y == x || y in levels
    ensures Increasing(levels) ==> Increasing(r)
  {
    if levels == [] then [x]
    else
      var n := |levels| - 1;
      assert levels == levels[..n] + [levels[n]];
      if levels[n] == x then levels
      else if levels[n] < x then
        assert Increasing(levels) ==> Increasing(levels + [x]);
        levels + [x]
      else
        var r := Insert(levels[..n], x);
        assert Increasing(levels) ==> Increasing(r + [levels[n]]) by {
          if Increasing(levels) {
            AppendIncreasing(r, levels[n]);
          }
        }
        r + [levels[n]]
  }

  function Drop(a: seq<int>): seq<int>
    requires a != []
  {
    a[..|a| - 1]
  }

  lemma LastIsGreatest(a: seq<int>)
    requires Increasing(a) && a != []
    ensures forall x :: x in a ==> x <= a[|a| - 1]
    ensures Increasing(Drop(a))
    ensures forall x :: x in Drop(a) <==> x in a && x != a[|a| - 1]
  {
    assert a == Drop(a) + [a[|a| - 1]];
  }

  /** An ascending list is determined by its members. */
  lemma {:induction false} IncreasingUnique(a: seq<int>, b: seq<int>)
    requires Increasing(a) && Increasing(b)
    requires forall x :: x in a <==> x in b
    ensures a == b
  {
    assert a != [] ==> a[|a| - 1] in a;
    assert b != [] ==> b[|b| - 1] in b;
    if a != [] {
      LastIsGreatest(a);
      LastIsGreatest(b);
      IncreasingUnique(Drop(a), Drop(b));
      assert a == Drop(a) + [a[|a| - 1]] && b == Drop(b) + [b[|b| - 1]];
    }
  }

  /** The members of s, ascending, each once. */
  function Sorted(s: seq<int>): (r: seq<int>)
    ensures Increasing(r)
    ensures forall x :: x in r <==> x in s
  {
    if s == [] then []
    else
      assert s == s[..|s| - 1] + [s[|s| - 1]];
      Insert(Sorted(s[..|s| - 1]), s[|s| - 1])
  }

  function Swapped(s: seq<int>, i: nat, j: nat): seq<int>
    requires i < |s| && j < |s|
  {
    s[i := s[j]][j := s[i]]
  }

  lemma SwapKeeps(s: seq<int>, i: nat, j: nat)
    requires i < |s| && j < |s|
    ensures forall x :: x in Swapped(s, i, j) <==> x in s
    ensures Distinct(s) ==> Distinct(Swapped(s, i, j))
  {
    var t := Swapped(s, i, j);
    forall x | x in s
      ensures x in t
    {
      var k :| 0 <= k < |s| && s[k] == x;
      assert t[if k == i then j else if k == j then i else k] == x;
    }
  }

  method Swap(a: array<int>, i: nat, j: nat)
    requires i < a.Length && j < a.Length
    modifies a
    ensures a[..] == Swapped(old(a[..]), i, j)
  {
    a[i], a[j] := a[j], a[i];
  }

  /** Selects by exchange, as the source sorts raise targets and pot levels. */
  method ExchangeSort(a: array<int>, n: nat)
    requires n <= a.Length && Distinct(a[..n])
    modifies a
    ensures a[..n] == Sorted(old(a[..n]))
    ensures a[n..] == old(a[n..])
  {
    ghost var was := a[..n];
    for i := 0 to n
      invariant Distinct(a[..n]) && forall x :: x in a[..n] <==> x in was
      invariant forall k, m :: 0 <= k < i && k < m < n ==> a[k] < a[m]
      invariant a[n..] == old(a[n..])
    {
      for j := i + 1 to n
        invariant Distinct(a[..n]) && forall x :: x in a[..n] <==> x in was
        invariant forall k, m :: 0 <= k < i && k < m < n ==> a[k] < a[m]
        invariant forall m :: i < m < j ==> a[i] < a[m]
        invariant a[n..] == old(a[n..])
      {
        if a[j] < a[i] {
          SwapKeeps(a[..n], i, j);
          ghost var before := a[..n];
          Swap(a, i, j);
          assert a[..n] == Swapped(before, i, j);
        } else {
          assert a[..n][i] != a[..n][j];
        }
      }
    }
    IncreasingUnique(a[..n], Sorted(was));
  }
}
