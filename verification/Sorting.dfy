/** A stable sort on sequences, specified by order, contents and stability. */
module Sorting {
  import opened Basics

  ghost predicate TotalPreorder<T(!new)>(leq: (T, T) -> bool) {
    && (forall x, y :: leq(x, y) || leq(y, x))
    && (forall x, y, z :: leq(x, y) && leq(y, z) ==> leq(x, z))
  }

  ghost predicate SortedBy<T>(s: seq<T>, leq: (T, T) -> bool) {
    forall i, j :: 0 <= i < j < |s| ==> leq(s[i], s[j])
  }

  function Insert<T>(s: seq<T>, x: T, leq: (T, T) -> bool): (r: seq<T>)
    ensures |r| == |s| + 1 && multiset(r) == multiset(s) + multiset{x}
  {
    if s == [] || leq(s[|s| - 1], x) then s + [x]
    else
      assert s == s[..|s| - 1] + [s[|s| - 1]];
      Insert(s[..|s| - 1], x, leq) + [s[|s| - 1]]
  }

  function StableSort<T>(s: seq<T>, leq: (T, T) -> bool): (r: seq<T>)
    ensures |r| == |s| && multiset(r) == multiset(s)
  {
    if s == [] then []
    else
      assert s == s[..|s| - 1] + [s[|s| - 1]];
      Insert(StableSort(s[..|s| - 1], leq), s[|s| - 1], leq)
  }

  lemma SortedPairStays<T(!new)>(a: T, b: T, leq: (T, T) -> bool)
    requires leq(a, b)
    ensures StableSort([a, b], leq) == [a, b]
  {
    assert [a, b][..1] == [a] && [a][..0] == [];
    assert StableSort([a], leq) == Insert([], a, leq) == [a];
    assert Insert([a], b, leq) == [a, b];
  }

  lemma {:induction false} InsertSorts<T(!new)>(s: seq<T>, x: T, leq: (T, T) -> bool)
    requires TotalPreorder(leq) && SortedBy(s, leq)
    ensures SortedBy(Insert(s, x, leq), leq)
  {
    if s != [] {
      var n := |s| - 1;
      var r := Insert(s[..n], x, leq);
      InsertSorts(s[..n], x, leq);
      if !leq(s[n], x) {
        forall i | 0 <= i < |r| ensures leq(r[i], s[n]) {
          assert r[i] in multiset(r);
          assert r[i] in multiset(s[..n]) || r[i] == x;
        }
      }
    }
  }

  lemma {:induction false} SortSorts<T(!new)>(s: seq<T>, leq: (T, T) -> bool)
    requires TotalPreorder(leq)
    ensures SortedBy(StableSort(s, leq), leq)
  {
    if s != [] {
      SortSorts(s[..|s| - 1], leq);
      InsertSorts(StableSort(s[..|s| - 1], leq), s[|s| - 1], leq);
    }
  }

  /** The members of `s` that tie with `x`, in their order in `s`. */
  ghost function Ties<T>(s: seq<T>, x: T, leq: (T, T) -> bool): seq<T> {
    if s == [] then []
    else
      var e := s[|s| - 1];
      Ties(s[..|s| - 1], x, leq) + if leq(e, x) && leq(x, e) then [e] else []
  }

  lemma TiesGrow<T(!new)>(s: seq<T>, e: T, x: T, leq: (T, T) -> bool)
    ensures Ties(s + [e], x, leq) == Ties(s, x, leq) + if leq(e, x) && leq(x, e) then [e] else []
  {
    assert (s + [e])[..|s|] == s;
  }

  lemma {:induction false} InsertKeepsTies<T(!new)>(s: seq<T>, y: T, x: T, leq: (T, T) -> bool)
    requires TotalPreorder(leq)
    ensures Ties(Insert(s, y, leq), x, leq) == Ties(s, x, leq) + if leq(y, x) && leq(x, y) then [y] else []
  {
    hide Ties;
    if s == [] || leq(s[|s| - 1], y) {
      TiesGrow(s, y, x, leq);
    } else {
      var front, last := s[..|s| - 1], s[|s| - 1];
      InsertKeepsTies(front, y, x, leq);
      TiesGrow(Insert(front, y, leq), last, x, leq);
      TiesGrow(front, last, x, leq);
      assert s == front + [last];
    }
  }

  /** Stability: elements that tie keep their input order. */
  lemma {:induction false} SortIsStable<T(!new)>(s: seq<T>, x: T, leq: (T, T) -> bool)
    requires TotalPreorder(leq)
    ensures Ties(StableSort(s, leq), x, leq) == Ties(s, x, leq)
  {
    if s != [] {
      SortIsStable(s[..|s| - 1], x, leq);
      InsertKeepsTies(StableSort(s[..|s| - 1], leq), s[|s| - 1], x, leq);
    }
  }

  function Reverse<T>(s: seq<T>): (r: seq<T>)
    ensures |r| == |s| && forall i :: 0 <= i < |s| ==> r[i] == s[|s| - 1 - i]
    ensures multiset(r) == multiset(s)
  {
    if s == [] then []
    else
      assert s == [s[0]] + s[1..];
      Reverse(s[1..]) + [s[0]]
  }

  /** `rows` shows tied elements as `input` lists them, or the other way round. */
  ghost predicate TiesKept<T(!new)>(rows: seq<T>, input: seq<T>, leq: (T, T) -> bool, reversed: bool) {
    forall x :: Ties(rows, x, leq) == if reversed then Reverse(Ties(input, x, leq)) else Ties(input, x, leq)
  }

  lemma {:induction false} TiesOfHead<T(!new)>(e: T, s: seq<T>, x: T, leq: (T, T) -> bool)
    ensures Ties([e] + s, x, leq) == (if leq(e, x) && leq(x, e) then [e] else []) + Ties(s, x, leq)
  {
    if s == [] {
      assert [e] + s == [] + [e];
      TiesGrow([], e, x, leq);
    } else {
      var n := |s| - 1;
      TiesOfHead(e, s[..n], x, leq);
      TiesGrow([e] + s[..n], s[n], x, leq);
      TiesGrow(s[..n], s[n], x, leq);
      assert [e] + s == ([e] + s[..n]) + [s[n]] && s == s[..n] + [s[n]];
    }
  }

  lemma {:induction false} TiesOfReverse<T(!new)>(s: seq<T>, x: T, leq: (T, T) -> bool)
    ensures Ties(Reverse(s), x, leq) == Reverse(Ties(s, x, leq))
  {
    if s != [] {
      TiesOfReverse(s[1..], x, leq);
      TiesGrow(Reverse(s[1..]), s[0], x, leq);
      TiesOfHead(s[0], s[1..], x, leq);
      assert s == [s[0]] + s[1..];
      if leq(s[0], x) && leq(x, s[0]) {
        assert ([s[0]] + Ties(s[1..], x, leq))[1..] == Ties(s[1..], x, leq);
      } else {
        assert [] + Ties(s[1..], x, leq) == Ties(s[1..], x, leq);
      }
    }
  }

  /** A stable sort keeps ties in input order; reversing the result afterwards reverses them. */
  lemma SortKeepsTies<T(!new)>(s: seq<T>, leq: (T, T) -> bool)
    requires TotalPreorder(leq)
    ensures TiesKept(StableSort(s, leq), s, leq, false)
    ensures TiesKept(Reverse(StableSort(s, leq)), s, leq, true)
  {
    hide StableSort, Ties, Reverse;
    forall x
      ensures Ties(StableSort(s, leq), x, leq) == Ties(s, x, leq)
      ensures Ties(Reverse(StableSort(s, leq)), x, leq) == Reverse(Ties(s, x, leq))
    {
      SortIsStable(s, x, leq);
      TiesOfReverse(StableSort(s, leq), x, leq);
    }
  }

  lemma {:induction false} TiesOf<T(!new)>(s: seq<T>, x: T, leq: (T, T) -> bool, i: nat, j: nat)
    returns (p: nat, q: nat)
    requires i < j < |s| && leq(s[i], x) && leq(x, s[i]) && leq(s[j], x) && leq(x, s[j])
    ensures p < q < |Ties(s, x, leq)| && Ties(s, x, leq)[p] == s[i] && Ties(s, x, leq)[q] == s[j]
  {
    var n := |s| - 1;
    if j < n {
      p, q := TiesOf(s[..n], x, leq, i, j);
    } else {
      q := |Ties(s, x, leq)| - 1;
      p := TieOf(s[..n], x, leq, i);
    }
  }

  lemma {:induction false} TieOf<T(!new)>(s: seq<T>, x: T, leq: (T, T) -> bool, i: nat) returns (p: nat)
    requires i < |s| && leq(s[i], x) && leq(x, s[i])
    ensures p < |Ties(s, x, leq)| && Ties(s, x, leq)[p] == s[i]
  {
    if i < |s| - 1 {
      p := TieOf(s[..|s| - 1], x, leq, i);
    } else {
      p := |Ties(s, x, leq)| - 1;
    }
  }

  lemma {:induction false} WhereTieWas<T(!new)>(s: seq<T>, x: T, leq: (T, T) -> bool, p: nat) returns (i: nat)
    requires p < |Ties(s, x, leq)|
    ensures i < |s| && s[i] == Ties(s, x, leq)[p]
  {
    var n := |s| - 1;
    if p < |Ties(s[..n], x, leq)| {
      i := WhereTieWas(s[..n], x, leq, p);
    } else {
      i := n;
    }
  }

  lemma {:induction false} WhereTiesWere<T(!new)>(s: seq<T>, x: T, leq: (T, T) -> bool, p: nat, q: nat)
    returns (i: nat, j: nat)
    requires p < q < |Ties(s, x, leq)|
    ensures i < j < |s| && s[i] == Ties(s, x, leq)[p] && s[j] == Ties(s, x, leq)[q]
  {
    var n := |s| - 1;
    if q < |Ties(s[..n], x, leq)| {
      i, j := WhereTiesWere(s[..n], x, leq, p, q);
    } else {
      j := n;
      i := WhereTieWas(s[..n], x, leq, p);
    }
  }

  /** `x` is at `a` and `y` at `b`, in that order or the other way round. */
  ghost predicate Placed<T(!new)>(s: seq<T>, x: T, y: T, a: int, b: int, reversed: bool) {
    && 0 <= a < |s| && 0 <= b < |s| && s[a] == x && s[b] == y
    && if reversed then b < a else a < b
  }

  /** Of two rows that tie, the upper one stands first in the input too, or last if the ties are reversed. */
  lemma TiedRowsKeepTheirOrder<T(!new)>(
    rows: seq<T>, input: seq<T>, leq: (T, T) -> bool, reversed: bool, i: nat, j: nat)
    requires TotalPreorder(leq) && TiesKept(rows, input, leq, reversed)
    requires i < j < |rows| && leq(rows[j], rows[i]) && leq(rows[i], rows[j])
    ensures exists a, b :: Placed(input, rows[i], rows[j], a, b, reversed)
  {
    hide Ties, Reverse, TiesKept;
    var x := rows[i];
    var p, q := TiesOf(rows, x, leq, i, j);
    var ties := Ties(input, x, leq);
    TiesOfRow(rows, input, leq, reversed, x);
    var n := |ties|;
    if reversed {
      assert Reverse(ties)[p] == ties[n - 1 - p] && Reverse(ties)[q] == ties[n - 1 - q];
      var b, a := WhereTiesWere(input, x, leq, n - 1 - q, n - 1 - p);
      assert Placed(input, rows[i], rows[j], a, b, reversed);
    } else {
      var a, b := WhereTiesWere(input, x, leq, p, q);
      assert Placed(input, rows[i], rows[j], a, b, reversed);
    }
  }

  lemma TiesOfRow<T(!new)>(rows: seq<T>, input: seq<T>, leq: (T, T) -> bool, reversed: bool, x: T)
    requires TiesKept(rows, input, leq, reversed)
    ensures Ties(rows, x, leq) == if reversed then Reverse(Ties(input, x, leq)) else Ties(input, x, leq)
  {
    hide Ties, Reverse;
  }
}
