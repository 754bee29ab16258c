/** Failure values and sequence facts shared by the models. */
module Basics {

  datatype Option<+T> = None | Some(value: T)

  datatype Result<+T, +E> = Ok(value: T) | Err(error: E)

  function Min(x: int, y: int): int {
    if x <= y then x else y
  }

  ghost function Elements<T>(s: seq<T>): set<T> {
    set x | x in s
  }

  ghost predicate Distinct<T>(s: seq<T>) {
    forall i, j :: 0 <= i < j < |s| ==> s[i] != s[j]
  }

  lemma DistinctAppend<T>(a: seq<T>, b: seq<T>)
    requires Distinct(a) && Distinct(b) && Elements(a) !! Elements(b)
    ensures Distinct(a + b)
  {
    forall i, j | 0 <= i < j < |a + b| ensures (a + b)[i] != (a + b)[j] {
      if i < |a| <= j {
        assert a[i] in Elements(a) && b[j - |a|] in Elements(b);
      }
    }
  }

  lemma ElementsAppend<T>(a: seq<T>, b: seq<T>)
    ensures Elements(a + b) == Elements(a) + Elements(b)
  {
  }

  lemma SliceOfTail<T>(s: seq<T>, from: nat, i: nat, j: nat)
    requires i <= j && from + j <= |s|
    ensures s[from..][i..j] == s[from + i..from + j]
  {
  }

  lemma SliceOfPrefix<T>(a: seq<T>, b: seq<T>, i: nat, j: nat)
    requires i <= j <= |a|
    ensures (a + b)[i..j] == a[i..j]
  {
  }

  /** The last `n` elements, or all of them. */
  function LastN<T>(s: seq<T>, n: nat): seq<T> {
    if |s| <= n then s else s[|s| - n..]
  }

  function Filter<T(!new)>(s: seq<T>, p: T -> bool): (r: seq<T>)
    ensures forall x :: x in r <==> x in s && p(x)
  {
    if s == [] then []
    else Filter(s[..|s| - 1], p) + if p(s[|s| - 1]) then [s[|s| - 1]] else []
  }

  lemma {:induction false} FilterCounts<T(!new)>(s: seq<T>, p: T -> bool, x: T)
    ensures multiset(Filter(s, p))[x] == if p(x) then multiset(s)[x] else 0
  {
    if s != [] {
      FilterCounts(s[..|s| - 1], p, x);
      assert s == s[..|s| - 1] + [s[|s| - 1]];
    }
  }

  ghost predicate FirstAt<T(!new)>(s: seq<T>, p: T -> bool, k: int) {
    0 <= k < |s| && p(s[k]) && forall j :: 0 <= j < k ==> !p(s[j])
  }

  /** The first element that satisfies `p`. */
  function FindFirst<T(!new)>(s: seq<T>, p: T -> bool): (r: Option<T>)
    ensures r.None? ==> forall k :: 0 <= k < |s| ==> !p(s[k])
    ensures r.Some? ==> exists k :: FirstAt(s, p, k) && s[k] == r.value
  {
    if s == [] then None
    else if p(s[0]) then
      assert FirstAt(s, p, 0);
      Some(s[0])
    else
      var rest := FindFirst(s[1..], p);
      assert forall k :: 0 < k < |s| ==> s[k] == s[1..][k - 1];
      assert forall k :: FirstAt(s[1..], p, k) ==> FirstAt(s, p, k + 1) && s[k + 1] == s[1..][k];
      rest
  }

  lemma FirstIsFound<T(!new)>(s: seq<T>, p: T -> bool, k: int)
    requires FirstAt(s, p, k)
    ensures FindFirst(s, p) == Some(s[k])
  {
    assert FindFirst(s, p) != None;
    var j :| FirstAt(s, p, j) && s[j] == FindFirst(s, p).value;
    assert !(j < k) && !(k < j);
  }

  /** The distinct elements of `s`, each where it first occurs. */
  function FirstSeen<T(==)>(s: seq<T>): seq<T> {
    if s == [] then []
    else
      var seen := FirstSeen(s[..|s| - 1]);
      var x := s[|s| - 1];
      if x in seen then seen else seen + [x]
  }

  lemma {:induction false} FirstSeenMembers<T(!new)>(s: seq<T>)
    ensures Distinct(FirstSeen(s))
    ensures forall x :: x in FirstSeen(s) <==> x in s
  {
    if s != [] {
      var n := |s| - 1;
      FirstSeenMembers(s[..n]);
      forall x ensures x in FirstSeen(s) <==> x in s {
        assert x in s <==> x in s[..n] || x == s[n];
      }
    }
  }

  /** An entry occurs somewhere before the first occurrence of any later one. */
  lemma {:induction false} FirstSeenOrder<T(!new)>(s: seq<T>, i: nat, j: nat) returns (k: nat)
    requires i < j < |FirstSeen(s)|
    ensures k < |s| && s[k] == FirstSeen(s)[i] && FirstSeen(s)[j] !in s[..k + 1]
  {
    var n := |s| - 1;
    var seen := FirstSeen(s[..n]);
    if j < |seen| {
      k := FirstSeenOrder(s[..n], i, j);
      assert s[..n][..k + 1] == s[..k + 1];
    } else {
      FirstSeenMembers(s[..n]);
      assert seen[i] in s[..n];
      k :| 0 <= k < n && s[..n][k] == seen[i];
      assert s[..k + 1] == s[..n][..k + 1];
      assert s[n] !in s[..n];
    }
  }

  /** `x` occurs in `s` before `y` first does. */
  ghost predicate OccursBefore<T>(s: seq<T>, x: T, y: T) {
    exists k :: 0 <= k < |s| && s[k] == x && y !in s[..k + 1]
  }

  /** No duplicates, nothing lost or made up, and in order of first occurrence. */
  lemma FirstSeenIsExact<T(!new)>(s: seq<T>)
    ensures Distinct(FirstSeen(s))
    ensures forall x :: x in FirstSeen(s) <==> x in s
    ensures forall i, j :: 0 <= i < j < |FirstSeen(s)| ==> OccursBefore(s, FirstSeen(s)[i], FirstSeen(s)[j])
  {
    hide FirstSeen;
    FirstSeenMembers(s);
    forall i, j | 0 <= i < j < |FirstSeen(s)| ensures OccursBefore(s, FirstSeen(s)[i], FirstSeen(s)[j]) {
      var k := FirstSeenOrder(s, i, j);
      assert s[k] == FirstSeen(s)[i];
    }
  }

  function Sum(s: seq<int>): int {
    if s == [] then 0 else Sum(s[..|s| - 1]) + s[|s| - 1]
  }

  /** Every index below `n` once. */
  ghost predicate IsIndexOrder(order: seq<nat>, n: nat) {
    && Distinct(order)
    && (forall k :: 0 <= k < |order| ==> order[k] < n)
    && (forall i: nat :: i < n ==> i in order)
  }

  lemma RemoveIndex(order: seq<nat>, k: nat, n: nat)
    requires IsIndexOrder(order, n + 1) && k < |order| && order[k] == n
    ensures IsIndexOrder(order[..k] + order[k + 1..], n)
  {
    var order' := order[..k] + order[k + 1..];
    forall j | 0 <= j < |order'| ensures order'[j] < n {
      var at := if j < k then j else j + 1;
      assert order'[j] == order[at];
    }
    forall i: nat | i < n ensures i in order' {
      assert i in order;
      var at :| 0 <= at < |order| && order[at] == i;
      assert order'[if at < k then at else at - 1] == i;
    }
  }

  lemma MultisetWithout<T>(s: seq<T>, k: nat)
    requires k < |s|
    ensures multiset(s) == multiset(s[..k] + s[k + 1..]) + multiset{s[k]}
  {
    assert s == s[..k] + [s[k]] + s[k + 1..];
  }

  /** A duplicate-free list of all indices of `s` picks out a permutation of `s`. */
  lemma {:induction false} IndexPermutation<T>(s: seq<T>, order: seq<nat>, picked: seq<T>)
    requires IsIndexOrder(order, |s|)
    requires |picked| == |order| && forall k :: 0 <= k < |order| ==> picked[k] == s[order[k]]
    ensures |order| == |s| && multiset(picked) == multiset(s)
  {
    if s == [] {
      assert order == [];
    } else {
      var n := |s| - 1;
      assert n in order;
      var k :| 0 <= k < |order| && order[k] == n;
      RemoveIndex(order, k, n);
      var order' := order[..k] + order[k + 1..];
      var picked' := picked[..k] + picked[k + 1..];
      IndexPermutation(s[..n], order', picked');
      MultisetWithout(picked, k);
      MultisetWithout(s, n);
      assert s[..n] + s[n + 1..] == s[..n];
    }
  }
}
