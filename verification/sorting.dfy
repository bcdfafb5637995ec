/** The exchange sort that the memory store runs on its result slices. */
module Sorting {

  ghost predicate StrictOrder<T(!new)>(before: (T, T) -> bool) {
    && (forall x, y :: before(x, y) ==> !before(y, x))
    && (forall x, y, z :: before(x, y) && before(y, z) ==> before(x, z))
  }

  /** No later element belongs before an earlier one. */
  ghost predicate Sorted<T>(before: (T, T) -> bool, s: seq<T>) {
    forall i, k :: 0 <= i < k < |s| ==> !before(s[k], s[i])
  }

  /** The first `i` positions hold their final elements. */
  ghost predicate Settled<T>(before: (T, T) -> bool, s: seq<T>, i: nat) {
    forall p, q :: 0 <= p < i && p < q < |s| ==> !before(s[q], s[p])
  }

  /** Nothing between i and k belongs before position i. */
  ghost predicate Least<T>(before: (T, T) -> bool, s: seq<T>, i: nat, k: nat)
    requires i < k <= |s|
  {
    forall m :: i < m < k ==> !before(s[m], s[i])
  }

  lemma SwapStep<T(!new)>(before: (T, T) -> bool, s: seq<T>, t: seq<T>, i: nat, k: nat)
    requires StrictOrder(before) && i < k < |s| && Settled(before, s, i) && Least(before, s, i, k)
    requires before(s[k], s[i]) && t == s[i := s[k]][k := s[i]]
    ensures Settled(before, t, i) && Least(before, t, i, k + 1)
  {
  }

  method Swap<T>(a: array<T>, i: nat, k: nat)
    requires i < a.Length && k < a.Length
    modifies a
    ensures a[..] == old(a[..])[i := old(a[..])[k]][k := old(a[..])[i]]
    ensures multiset(a[..]) == multiset(old(a[..]))
  {
    a[i], a[k] := a[k], a[i];
  }

  /** Inner loop: bring to position i an element that nothing after it belongs before. */
  method Settle<T(!new)>(a: array<T>, i: nat, before: (T, T) -> bool)
    requires StrictOrder(before)
    requires i < a.Length
    requires Settled(before, a[..], i)
    modifies a
    ensures Settled(before, a[..], i + 1)
    ensures multiset(a[..]) == multiset(old(a[..]))
  {
    for k := i + 1 to a.Length
      invariant Settled(before, a[..], i) && Least(before, a[..], i, k)
      invariant multiset(a[..]) == multiset(old(a[..]))
    {
      ghost var was := a[..];
      if before(a[k], a[i]) {
        Swap(a, i, k);
        SwapStep(before, was, a[..], i, k);
      }
    }
  }

  /** Two nested loops of in-place swaps, as in every listing of the memory store. */
  method ExchangeSort<T(!new)>(a: array<T>, before: (T, T) -> bool)
    requires StrictOrder(before)
    modifies a
    ensures Sorted(before, a[..])
    ensures multiset(a[..]) == multiset(old(a[..]))
  {
    for i := 0 to a.Length
      invariant Settled(before, a[..], i)
      invariant multiset(a[..]) == multiset(old(a[..]))
    {
      Settle(a, i, before);
    }
  }

  predicate Distinct<T(==)>(s: seq<T>) { forall i, k :: 0 <= i < k < |s| ==> s[i] != s[k] }

  lemma {:induction false} CountOfDistinct<T>(s: seq<T>, x: T)
    requires Distinct(s)
    ensures multiset(s)[x] <= 1
  {
    if s != [] {
      assert s == [s[0]] + s[1..];
      CountOfDistinct(s[1..], x);
      if x == s[0] { assert x !in s[1..]; }
    }
  }

  lemma RearrangedDistinct<T>(s: seq<T>, t: seq<T>)
    requires Distinct(s) && multiset(s) == multiset(t)
    ensures Distinct(t)
  {
    forall i, k | 0 <= i < k < |t| ensures t[i] != t[k] {
      CountOfDistinct(s, t[i]);
      assert t == t[..k] + [t[k]] + t[k + 1..];
      assert t[i] in t[..k];
      assert multiset(t)[t[i]] >= multiset(t[..k])[t[i]] + multiset([t[k]])[t[i]];
    }
  }

  /** The sort applied to an appended slice. */
  method Arrange<T(!new)>(list: seq<T>, before: (T, T) -> bool) returns (out: seq<T>)
    requires StrictOrder(before)
    ensures Sorted(before, out)
    ensures |out| == |list|
    ensures forall x :: x in out <==> x in list
    ensures Distinct(list) ==> Distinct(out)
  {
    var a := new T[|list|](i requires 0 <= i < |list| => list[i]);
    assert a[..] == list;
    ExchangeSort(a, before);
    out := a[..];
    assert |multiset(out)| == |multiset(list)|;
    forall x ensures x in out <==> x in list {
      assert x in out <==> x in multiset(out);
      assert x in list <==> x in multiset(list);
    }
    if Distinct(list) { RearrangedDistinct(list, out); }
  }

  /** Sort, then keep the first `cut`. */
  method TakeFirst<T(!new)>(list: seq<T>, before: (T, T) -> bool, cut: nat) returns (out: seq<T>)
    requires StrictOrder(before)
    ensures |out| <= cut && Sorted(before, out)
    ensures forall x <- out :: x in list
    ensures forall x <- list :: x !in out ==> |out| == cut
    ensures forall x, y | x in list && x !in out && y in out :: !before(x, y)
    ensures Distinct(list) ==> Distinct(out)
  {
    var all := Arrange(list, before);
    out := if |all| > cut then all[..cut] else all;
    assert forall x <- out :: x in all;
    forall x, y | x in list && x !in out && y in out ensures !before(x, y) {
      assert x in all;
      var i :| 0 <= i < |all| && all[i] == x;
      var k :| 0 <= k < |out| && out[k] == y;
      assert all == out + all[|out|..];
      assert x in all[|out|..];
      var m :| 0 <= m < |all| - |out| && all[|out|..][m] == x;
      assert all[|out| + m] == x;
    }
  }
}
