/**
  Process records, the sort and the case-insensitive filter of the process list.

  `lower` stands for `str::to_lowercase`: any function that lowers ASCII letters
  on ASCII strings (`ExtendsAscii`).
*/
module Process {
  import opened Basics
  import opened Sorting

  datatype ProcessInfo = ProcessInfo(
    pid: nat,
    parentPid: Option<nat>,
    name: string,
    command: string,
    user: string,
    cpuPercent: real,
    memoryBytes: nat,
    memoryPercent: real,
    status: string)

  datatype SortField = Cpu | Mem | Pid | Name | User

  datatype SortOrder = Asc | Desc

  type Lower = string -> string

  // ------------------------------------------------------------------ sorting

  predicate StringLeq(a: string, b: string) {
    a == "" || (b != "" && (a[0] < b[0] || (a[0] == b[0] && StringLeq(a[1..], b[1..]))))
  }

  lemma StringLeqIsTotal(a: string, b: string)
    ensures StringLeq(a, b) || StringLeq(b, a)
  {
  }

  lemma {:induction false} StringLeqIsTransitive(a: string, b: string, c: string)
    requires StringLeq(a, b) && StringLeq(b, c)
    ensures StringLeq(a, c)
  {
    if a != "" && a[0] == b[0] == c[0] {
      StringLeqIsTransitive(a[1..], b[1..], c[1..]);
    }
  }

  /** `a` and `b` agree up to `k`, where `a` ends or has the smaller character. */
  ghost predicate DivergesAt(a: string, b: string, k: int) {
    && 0 <= k <= |a| && k <= |b| && a[..k] == b[..k]
    && (k == |a| || (k < |b| && a[k] < b[k]))
  }

  ghost predicate DictionaryLeq(a: string, b: string) {
    exists k :: DivergesAt(a, b, k)
  }

  /** Strings are compared as in a dictionary. */
  lemma {:induction false} StringLeqIsLexicographic(a: string, b: string)
    ensures StringLeq(a, b) <==> DictionaryLeq(a, b)
  {
    if a == "" {
      assert DivergesAt(a, b, 0);
    } else if b != "" {
      var x, y := a[1..], b[1..];
      StringLeqIsLexicographic(x, y);
      if a[0] < b[0] {
        assert DivergesAt(a, b, 0);
      } else if a[0] == b[0] && StringLeq(x, y) {
        var k :| DivergesAt(x, y, k);
        assert a[..k + 1] == [a[0]] + x[..k] && b[..k + 1] == [b[0]] + y[..k];
        assert DivergesAt(a, b, k + 1);
      }
      forall k | DivergesAt(a, b, k) ensures StringLeq(a, b) {
        if k > 0 {
          assert a[..k][0] == b[..k][0];
          assert x[..k - 1] == a[..k][1..] && y[..k - 1] == b[..k][1..];
          assert DivergesAt(x, y, k - 1);
        }
      }
    }
  }

  predicate KeyLeq(field: SortField, lower: Lower, a: ProcessInfo, b: ProcessInfo) {
    match field
    case Cpu => a.cpuPercent <= b.cpuPercent
    case Mem => a.memoryBytes <= b.memoryBytes
    case Pid => a.pid <= b.pid
    case Name => StringLeq(lower(a.name), lower(b.name))
    case User => StringLeq(lower(a.user), lower(b.user))
  }

  function ByKey(field: SortField, lower: Lower): (ProcessInfo, ProcessInfo) -> bool {
    (a, b) => KeyLeq(field, lower, a, b)
  }

  lemma KeysAreOrdered(field: SortField, lower: Lower)
    ensures TotalPreorder(ByKey(field, lower))
  {
    forall a, b: ProcessInfo ensures ByKey(field, lower)(a, b) || ByKey(field, lower)(b, a) {
      StringLeqIsTotal(lower(a.name), lower(b.name));
      StringLeqIsTotal(lower(a.user), lower(b.user));
    }
    forall a, b, c: ProcessInfo | ByKey(field, lower)(a, b) && ByKey(field, lower)(b, c)
      ensures ByKey(field, lower)(a, c)
    {
      match field
      case Name => StringLeqIsTransitive(lower(a.name), lower(b.name), lower(c.name));
      case User => StringLeqIsTransitive(lower(a.user), lower(b.user), lower(c.user));
      case _ =>
    }
  }

  function Sorted(procs: seq<ProcessInfo>, field: SortField, order: SortOrder, lower: Lower): seq<ProcessInfo> {
    var ascending := StableSort(procs, ByKey(field, lower));
    if order == Desc then Reverse(ascending) else ascending
  }

  ghost predicate InOrder(rows: seq<ProcessInfo>, field: SortField, order: SortOrder, lower: Lower) {
    forall i, j :: 0 <= i < j < |rows| ==>
                     if order == Asc then KeyLeq(field, lower, rows[i], rows[j])
                     else KeyLeq(field, lower, rows[j], rows[i])
  }

  /** Names and users are sorted by a stable sort; the others leave the order of ties open. */
  predicate IsStableField(field: SortField) {
    field == Name || field == User
  }

  /**
    What the sort promises: the input rearranged, in the direction asked for, and on
    a stable field the ties in input order, or reversed with everything else.
  */
  ghost predicate IsSortOf(
    rows: seq<ProcessInfo>, procs: seq<ProcessInfo>, field: SortField, order: SortOrder, lower: Lower)
  {
    && multiset(rows) == multiset(procs) && |rows| == |procs|
    && InOrder(rows, field, order, lower)
    && (IsStableField(field) ==> TiesKept(rows, procs, ByKey(field, lower), order == Desc))
  }

  /** What each column compares: figures by size, names and users by their lowered text. */
  lemma ColumnsCompare(rows: seq<ProcessInfo>, field: SortField, order: SortOrder, lower: Lower, i: nat, j: nat)
    requires InOrder(rows, field, order, lower) && i < j < |rows|
    ensures var (low, high) := if order == Asc then (rows[i], rows[j]) else (rows[j], rows[i]);
            match field
            case Cpu => low.cpuPercent <= high.cpuPercent
            case Mem => low.memoryBytes <= high.memoryBytes
            case Pid => low.pid <= high.pid
            case Name => DictionaryLeq(lower(low.name), lower(high.name))
            case User => DictionaryLeq(lower(low.user), lower(high.user))
  {
    hide DictionaryLeq;
    var (low, high) := if order == Asc then (rows[i], rows[j]) else (rows[j], rows[i]);
    StringLeqIsLexicographic(lower(low.name), lower(high.name));
    StringLeqIsLexicographic(lower(low.user), lower(high.user));
  }

  lemma SortedIsInOrder(rows: seq<ProcessInfo>, field: SortField, lower: Lower)
    requires SortedBy(rows, ByKey(field, lower))
    ensures InOrder(rows, field, Asc, lower) && InOrder(Reverse(rows), field, Desc, lower)
  {
    hide KeyLeq, Reverse;
    forall i, j | 0 <= i < j < |rows|
      ensures KeyLeq(field, lower, rows[i], rows[j])
    {
      assert ByKey(field, lower)(rows[i], rows[j]);
    }
  }

  lemma SortedIsSort(procs: seq<ProcessInfo>, field: SortField, order: SortOrder, lower: Lower)
    ensures IsSortOf(Sorted(procs, field, order, lower), procs, field, order, lower)
  {
    hide TiesKept, InOrder, StableSort, Reverse;
    var leq := ByKey(field, lower);
    KeysAreOrdered(field, lower);
    SortSorts(procs, leq);
    SortKeepsTies(procs, leq);
    SortedIsInOrder(StableSort(procs, leq), field, lower);
  }

  lemma SortsKeepNameTies(
    rows: seq<ProcessInfo>, procs: seq<ProcessInfo>, field: SortField, order: SortOrder, lower: Lower)
    requires IsSortOf(rows, procs, field, order, lower)
    ensures |rows| == |procs|
    ensures field == Name || field == User ==> TiesKept(rows, procs, ByKey(field, lower), order == Desc)
  {
    hide InOrder, TiesKept;
  }

  method SortProcesses(procs: array<ProcessInfo>, field: SortField, order: SortOrder, lower: Lower)
    modifies procs
    ensures IsSortOf(procs[..], old(procs[..]), field, order, lower)
    ensures field == Name || field == User ==> TiesKept(procs[..], old(procs[..]), ByKey(field, lower), order == Desc)
  {
    hide IsSortOf;
    var sorted := StableSort(procs[..], ByKey(field, lower));
    if order == Desc {
      sorted := Reverse(sorted);
    }
    SortedIsSort(procs[..], field, order, lower);
    SortsKeepNameTies(sorted, procs[..], field, order, lower);
    assert |sorted| == procs.Length;
    forall i | 0 <= i < procs.Length {
      procs[i] := sorted[i];
    }
    assert procs[..] == sorted;
  }

  // ---------------------------------------------------------------- filtering

  predicate IsAscii(s: string) {
    forall i :: 0 <= i < |s| ==> s[i] as int < 128
  }

  function LowerChar(c: char): char {
    if 'A' <= c <= 'Z' then (c as int + 32) as char else c
  }

  function AsciiLower(s: string): (r: string)
    ensures |r| == |s| && forall i :: 0 <= i < |s| ==> r[i] == LowerChar(s[i])
  {
    seq(|s|, i requires 0 <= i < |s| => LowerChar(s[i]))
  }

  /** The 26 capitals become the 26 small letters, and nothing else changes. */
  lemma CapitalsAreLowered(c: char, letter: nat)
    ensures letter < 26 ==> LowerChar(('A' as int + letter) as char) == ('a' as int + letter) as char
    ensures !('A' <= c <= 'Z') ==> LowerChar(c) == c
  {
  }

  ghost predicate ExtendsAscii(lower: Lower) {
    forall s :: IsAscii(s) ==> lower(s) == AsciiLower(s)
  }

  predicate OccursAt(haystack: string, needle: string, i: int) {
    0 <= i <= |haystack| - |needle| && haystack[i..i + |needle|] == needle
  }

  predicate Contains(haystack: string, needle: string) {
    exists i :: 0 <= i <= |haystack| - |needle| && OccursAt(haystack, needle, i)
  }

  lemma ContainsIsSubstring(haystack: string, needle: string)
    ensures Contains(haystack, needle) <==> exists before, after :: haystack == before + needle + after
  {
    if Contains(haystack, needle) {
      var i :| 0 <= i <= |haystack| - |needle| && OccursAt(haystack, needle, i);
      assert haystack == haystack[..i] + haystack[i..i + |needle|] + haystack[i + |needle|..];
    }
    forall before, after | haystack == before + needle + after ensures Contains(haystack, needle) {
      assert haystack[|before|..|before| + |needle|] == needle;
      assert OccursAt(haystack, needle, |before|);
    }
  }

  /** One window of the allocation-free path: equal up to ASCII case, byte by byte. */
  predicate WindowMatches(haystack: string, needle: string, i: int) {
    && 0 <= i <= |haystack| - |needle|
    && forall j :: 0 <= j < |needle| ==> LowerChar(haystack[i + j]) == LowerChar(needle[j])
  }

  predicate ContainsIgnoreCase(haystack: string, needle: string, lower: Lower) {
    if needle == "" then true
    else if IsAscii(needle) && IsAscii(haystack) then
      exists i :: 0 <= i <= |haystack| - |needle| && WindowMatches(haystack, needle, i)
    else Contains(lower(haystack), needle)
  }

  lemma WindowIsOccurrence(haystack: string, needle: string, i: int)
    requires AsciiLower(needle) == needle
    ensures WindowMatches(haystack, needle, i) <==> OccursAt(AsciiLower(haystack), needle, i)
  {
    if 0 <= i <= |haystack| - |needle| {
      var window := AsciiLower(haystack)[i..i + |needle|];
      assert forall j :: 0 <= j < |needle| ==> window[j] == LowerChar(haystack[i + j]) && LowerChar(needle[j]) == needle[j];
      if WindowMatches(haystack, needle, i) {
        assert window == needle;
      }
      if window == needle {
        assert forall j :: 0 <= j < |needle| ==> window[j] == needle[j];
      }
    }
  }

  /** The fast path answers as the allocating one does, on every haystack. */
  lemma FastPathAgrees(haystack: string, needle: string, lower: Lower)
    requires ExtendsAscii(lower) && AsciiLower(needle) == needle
    ensures ContainsIgnoreCase(haystack, needle, lower) <==> Contains(lower(haystack), needle)
  {
    if needle == "" {
      assert OccursAt(lower(haystack), needle, 0);
    } else if IsAscii(needle) && IsAscii(haystack) {
      forall i ensures WindowMatches(haystack, needle, i) <==> OccursAt(AsciiLower(haystack), needle, i) {
        WindowIsOccurrence(haystack, needle, i);
      }
      if ContainsIgnoreCase(haystack, needle, lower) {
        var i :| 0 <= i <= |haystack| - |needle| && WindowMatches(haystack, needle, i);
        assert OccursAt(lower(haystack), needle, i);
      }
    }
  }

  /** Lowering the needle first is what the agreement takes, no more and no less. */
  lemma FastPathNeedsLoweredNeedle(needle: string, lower: Lower)
    requires ExtendsAscii(lower) && IsAscii(needle)
    ensures (forall h :: ContainsIgnoreCase(h, needle, lower) <==> Contains(lower(h), needle))
            <==> AsciiLower(needle) == needle
  {
    if AsciiLower(needle) == needle {
      forall h ensures ContainsIgnoreCase(h, needle, lower) <==> Contains(lower(h), needle) {
        FastPathAgrees(h, needle, lower);
      }
    } else {
      assert WindowMatches(needle, needle, 0);
      assert ContainsIgnoreCase(needle, needle, lower);
      assert AsciiLower(needle)[0..|needle|] == AsciiLower(needle);
    }
  }

  predicate Matches(p: ProcessInfo, lowered: string, lower: Lower) {
    ContainsIgnoreCase(p.name, lowered, lower) || ContainsIgnoreCase(p.command, lowered, lower)
  }

  function FilterProcesses(procs: seq<ProcessInfo>, pattern: string, lower: Lower): seq<ProcessInfo> {
    if pattern == "" then procs
    else Filter(procs, (p: ProcessInfo) => Matches(p, lower(pattern), lower))
  }

  /**
    The filter keeps every matching process as often as it occurs and no other,
    a match being a lowered occurrence in the name or the command line.
  */
  lemma FilterIsExact(procs: seq<ProcessInfo>, pattern: string, lower: Lower, p: ProcessInfo)
    requires ExtendsAscii(lower) && AsciiLower(lower(pattern)) == lower(pattern)
    ensures multiset(FilterProcesses(procs, pattern, lower))[p] ==
            if Contains(lower(p.name), lower(pattern)) || Contains(lower(p.command), lower(pattern))
            then multiset(procs)[p] else 0
  {
    var lowered := lower(pattern);
    FastPathAgrees(p.name, lowered, lower);
    FastPathAgrees(p.command, lowered, lower);
    if pattern == "" {
      assert lower("") == AsciiLower("") == "";
    } else {
      FilterCounts(procs, (q: ProcessInfo) => Matches(q, lowered, lower), p);
    }
  }
}
