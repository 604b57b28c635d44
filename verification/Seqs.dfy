/** Sequence operations standing for the JavaScript array methods the sources call. */
module Seqs {

  /** `findIndex`, with the length standing for -1. */
  function First<T>(s: seq<T>, p: T -> bool): (i: nat)
    ensures i <= |s|
    ensures i < |s| ==> p(s[i])
    ensures forall j :: 0 <= j < i ==> !p(s[j])
  {
    if s == [] then 0 else if p(s[0]) then 0 else 1 + First(s[1..], p)
  }

  /** `findLastIndex`, with the length standing for -1. */
  function Last<T>(s: seq<T>, p: T -> bool): (i: nat)
    ensures i <= |s|
    ensures i < |s| ==> p(s[i])
    ensures i < |s| ==> forall j :: i < j < |s| ==> !p(s[j])
    ensures i == |s| ==> forall j :: 0 <= j < |s| ==> !p(s[j])
  {
    if s == [] then 0
    else
      var n := |s| - 1;
      if p(s[n]) then n
      else
        var i := Last(s[..n], p);
        if i == n then |s| else i
  }

  /** `filter`. */
  function Filter<T(!new)>(s: seq<T>, p: T -> bool): (r: seq<T>)
    ensures |r| <= |s|
    ensures forall x :: x in r <==> x in s && p(x)
  {
    if s == [] then []
    else
      var n := |s| - 1;
      assert s == s[..n] + [s[n]];
      Filter(s[..n], p) + if p(s[n]) then [s[n]] else []
  }

  /** How many elements satisfy `p`. */
  function Count<T>(s: seq<T>, p: T -> bool): nat {
    if s == [] then 0 else Count(s[..|s| - 1], p) + if p(s[|s| - 1]) then 1 else 0
  }

  /** `splice(i, 1)`, as the list it leaves. */
  function RemoveAt<T(!new)>(s: seq<T>, i: nat): (r: seq<T>)
    requires i < |s|
    ensures |r| == |s| - 1
    ensures forall x :: x in s && x != s[i] ==> x in r
    ensures forall x :: x in r ==> x in s
  {
    assert s == s[..i] + [s[i]] + s[i + 1..];
    s[..i] + s[i + 1..]
  }

  /** `slice(-n)`: the last `n` elements. */
  function LastN<T>(s: seq<T>, n: nat): seq<T> {
    if |s| <= n then s else s[|s| - n..]
  }

  /** `[...new Set(s)]`: the first occurrence of each element. */
  function Dedupe<T(==)>(s: seq<T>): (r: seq<T>)
    ensures |r| <= |s|
  {
    if s == [] then []
    else
      var r := Dedupe(s[..|s| - 1]);
      if s[|s| - 1] in r then r else r + [s[|s| - 1]]
  }

  lemma {:induction false} DedupeKeeps<T(!new)>(s: seq<T>)
    ensures forall x :: x in Dedupe(s) <==> x in s
    ensures forall i, j :: 0 <= i < j < |Dedupe(s)| ==> Dedupe(s)[i] != Dedupe(s)[j]
  {
    if s != [] {
      DedupeKeeps(s[..|s| - 1]);
      assert s == s[..|s| - 1] + [s[|s| - 1]];
    }
  }

  /** The elements come in the order of their first occurrences. */
  lemma {:induction false} DedupeOrders<T(!new)>(s: seq<T>, i: nat, j: nat, n: nat)
    requires i < j < |Dedupe(s)| && n < |s| && s[n] == Dedupe(s)[j]
    ensures Dedupe(s)[i] in s[..n]
  {
    var m := |s| - 1;
    DedupeKeeps(s[..m]);
    if n < m {
      assert s[..m][n] == s[n] && s[..m][..n] == s[..n];
      if j < |Dedupe(s[..m])| { DedupeOrders(s[..m], i, j, n); }
    } else {
      assert Dedupe(s)[i] in Dedupe(s[..m]);
    }
  }

  lemma LastNIsSuffix<T>(s: seq<T>, n: nat)
    ensures var r := LastN(s, n); |r| == (if |s| <= n then |s| else n) && r == s[|s| - |r|..]
  {
  }

  lemma LastNOfLastN<T>(s: seq<T>, x: T, n: nat)
    ensures LastN(LastN(s, n) + [x], n) == LastN(s + [x], n)
  {
  }

  lemma PrefixStep<T>(s: seq<T>, i: nat)
    requires i < |s|
    ensures s[..i + 1][..i] == s[..i]
    ensures s[..i + 1][i] == s[i]
    ensures s[..i + 1] == s[..i] + [s[i]]
  {
  }

  lemma {:induction false} CountBound<T(!new)>(s: seq<T>, p: T -> bool)
    ensures Count(s, p) <= |s|
    ensures Count(s, p) == 0 <==> forall x :: x in s ==> !p(x)
  {
    if s != [] {
      CountBound(s[..|s| - 1], p);
      assert s == s[..|s| - 1] + [s[|s| - 1]];
    }
  }

  /** Filtering that removes nothing leaves the list as it was. */
  lemma {:induction false} FilterAll<T(!new)>(s: seq<T>, p: T -> bool)
    ensures |Filter(s, p)| == |s| <==> Filter(s, p) == s
    ensures Filter(s, p) == s <==> forall x :: x in s ==> p(x)
  {
    if s != [] {
      FilterAll(s[..|s| - 1], p);
      assert s == s[..|s| - 1] + [s[|s| - 1]];
    }
  }

  lemma {:induction false} FilterNone<T(!new)>(s: seq<T>, p: T -> bool)
    requires forall x :: x in s ==> !p(x)
    ensures Filter(s, p) == []
  {
    if s != [] {
      assert s == s[..|s| - 1] + [s[|s| - 1]];
      FilterNone(s[..|s| - 1], p);
    }
  }

  lemma {:induction false} FilterConcat<T(!new)>(a: seq<T>, b: seq<T>, p: T -> bool)
    ensures Filter(a + b, p) == Filter(a, p) + Filter(b, p)
  {
    if b == [] {
      assert a + b == a;
    } else {
      var n := |b| - 1;
      var tail := if p(b[n]) then [b[n]] else [];
      FilterConcat(a, b[..n], p);
      assert (a + b)[..|a + b| - 1] == a + b[..n] && (a + b)[|a + b| - 1] == b[n];
      assert Filter(a + b, p) == Filter(a + b[..n], p) + tail;
      assert Filter(b, p) == Filter(b[..n], p) + tail;
      assert (Filter(a, p) + Filter(b[..n], p)) + tail == Filter(a, p) + (Filter(b[..n], p) + tail);
    }
  }

  /** Fewer elements under a stricter test: no more survive. */
  lemma {:induction false} FilterStricter<T(!new)>(s: seq<T>, p: T -> bool, q: T -> bool)
    requires forall x :: x in s && q(x) ==> p(x)
    ensures |Filter(s, q)| <= |Filter(s, p)|
  {
    if s != [] {
      assert s == s[..|s| - 1] + [s[|s| - 1]];
      FilterStricter(s[..|s| - 1], p, q);
    }
  }

  lemma FilterRemoveAt<T(!new)>(s: seq<T>, i: nat, p: T -> bool)
    requires i < |s|
    ensures |Filter(RemoveAt(s, i), p)| <= |Filter(s, p)|
  {
    assert s == s[..i] + ([s[i]] + s[i + 1..]);
    FilterConcat(s[..i], [s[i]] + s[i + 1..], p);
    FilterConcat([s[i]], s[i + 1..], p);
    FilterConcat(s[..i], s[i + 1..], p);
  }

  lemma {:induction false} FilterSame<T(!new)>(s: seq<T>, p: T -> bool, q: T -> bool)
    requires forall x :: x in s ==> p(x) == q(x)
    ensures Filter(s, p) == Filter(s, q)
  {
    if s != [] { FilterSame(s[..|s| - 1], p, q); }
  }

  lemma {:induction false} CountSame<T>(s: seq<T>, p: T -> bool, q: T -> bool)
    requires forall i :: 0 <= i < |s| ==> p(s[i]) == q(s[i])
    ensures Count(s, p) == Count(s, q)
  {
    if s != [] { CountSame(s[..|s| - 1], p, q); }
  }

  lemma FirstIs<T>(s: seq<T>, p: T -> bool, i: nat)
    requires i <= |s| && (i < |s| ==> p(s[i])) && forall j :: 0 <= j < i ==> !p(s[j])
    ensures First(s, p) == i
  {
  }

  lemma LastIs<T>(s: seq<T>, p: T -> bool, i: nat)
    requires i <= |s| && (i < |s| ==> p(s[i])) && forall j :: (if i < |s| then i + 1 else 0) <= j < |s| ==> !p(s[j])
    ensures Last(s, p) == i
  {
  }

  lemma FilterPush<T(!new)>(s: seq<T>, x: T, p: T -> bool)
    ensures Filter(s + [x], p) == Filter(s, p) + if p(x) then [x] else []
  {
    assert (s + [x])[..|s|] == s;
  }

  lemma {:induction false} FilterTwice<T(!new)>(s: seq<T>, p: T -> bool, q: T -> bool, both: T -> bool)
    requires forall x :: x in s ==> both(x) == (p(x) && q(x))
    ensures Filter(Filter(s, p), q) == Filter(s, both)
  {
    if s != [] {
      hide Filter;
      var n := |s| - 1;
      var x := s[n];
      assert s == s[..n] + [x];
      FilterTwice(s[..n], p, q, both);
      FilterPush(s[..n], x, p);
      FilterPush(s[..n], x, both);
      FilterPush(Filter(s[..n], p), x, q);
      assert Filter(s[..n], p) + [] == Filter(s[..n], p);
    }
  }
}
