/**
  What the TUI derives from a snapshot and its settings: the process table, the
  process tree and the container table.
*/
module Projections {
  import opened Basics
  import opened Sorting
  import opened Process
  import opened ProcessTree
  import opened Containers

  // ---------------------------------------------------------- process table

  /** `table` is a process table for these settings; ties of the unstable fields may come in any order. */
  ghost predicate IsTable(
    table: seq<ProcessInfo>, procs: seq<ProcessInfo>, filter: string, field: SortField, order: SortOrder, lower: Lower)
  {
    IsSortOf(table, FilterProcesses(procs, filter, lower), field, order, lower)
  }

  ghost function VisibleTree(procs: seq<ProcessInfo>, filter: string, treeMode: bool, lower: Lower): seq<Row> {
    if treeMode then Flatten(Forest(FilterProcesses(procs, filter, lower))) else []
  }

  /**
    The table shows every matching process as often as the snapshot lists it, and
    no other, in the order asked for; the tree shows the same processes.
  */
  lemma TablesShowExactlyTheMatches(
    table: seq<ProcessInfo>, procs: seq<ProcessInfo>, filter: string, field: SortField, order: SortOrder,
    lower: Lower, p: ProcessInfo)
    requires ExtendsAscii(lower) && AsciiLower(lower(filter)) == lower(filter)
    requires IsTable(table, procs, filter, field, order, lower)
    ensures multiset(table)[p] ==
            if Contains(lower(p.name), lower(filter)) || Contains(lower(p.command), lower(filter))
            then multiset(procs)[p] else 0
    ensures multiset(Processes(VisibleTree(procs, filter, true, lower))) == multiset(table)
    ensures |VisibleTree(procs, filter, true, lower)| == |table|
    ensures InOrder(table, field, order, lower)
  {
    hide Contains, FilterProcesses, Forest, Flatten, InOrder, TiesKept;
    FilterIsExact(procs, filter, lower, p);
    EveryProcessOnce(FilterProcesses(procs, filter, lower));
  }

  /** Both presentations have the same number of rows, all of them the snapshot's. */
  lemma TreeHasTheTablesRows(
    table: seq<ProcessInfo>, procs: seq<ProcessInfo>, filter: string, field: SortField, order: SortOrder, lower: Lower)
    requires IsTable(table, procs, filter, field, order, lower)
    ensures var rows := VisibleTree(procs, filter, true, lower);
            && |rows| == |table|
            && (forall k :: 0 <= k < |rows| ==> rows[k].0 in procs)
            && (forall k :: 0 <= k < |table| ==> table[k] in procs)
  {
    hide Forest, Flatten, Matches, InOrder, TiesKept;
    var filtered := FilterProcesses(procs, filter, lower);
    var rows := VisibleTree(procs, filter, true, lower);
    EveryProcessOnce(filtered);
    forall k | 0 <= k < |rows| ensures rows[k].0 in procs {
      assert Processes(rows)[k] in multiset(filtered);
    }
    forall k | 0 <= k < |table| ensures table[k] in procs {
      assert table[k] in multiset(filtered);
    }
  }

  lemma NoTreeWithoutTreeMode(procs: seq<ProcessInfo>, filter: string, lower: Lower)
    ensures VisibleTree(procs, filter, false, lower) == []
  {
  }

  // -------------------------------------------------------- container table

  datatype ContainerSortField = Name | Cpu | Mem | NetRx | NetTx | Uptime

  predicate ContainerKeyLeq(field: ContainerSortField, a: Container, b: Container) {
    match field
    case Name => StringLeq(a.name, b.name)
    case Cpu => a.cpuPct <= b.cpuPct
    case Mem => a.memUsedBytes <= b.memUsedBytes
    case NetRx => a.netRxBytes <= b.netRxBytes
    case NetTx => a.netTxBytes <= b.netTxBytes
    case Uptime => a.startedAtMs <= b.startedAtMs
  }

  predicate SortsAscending(field: ContainerSortField) {
    field == ContainerSortField.Name || field == ContainerSortField.Uptime
  }

  /** The order each column is first sorted in: names and start times upwards, figures downwards. */
  function NaturalOrder(field: ContainerSortField): (Container, Container) -> bool {
    (a, b) => if SortsAscending(field) then ContainerKeyLeq(field, a, b) else ContainerKeyLeq(field, b, a)
  }

  lemma NaturalOrderIsTotal(field: ContainerSortField)
    ensures TotalPreorder(NaturalOrder(field))
  {
    var leq := NaturalOrder(field);
    forall a, b: Container ensures leq(a, b) || leq(b, a) {
      StringLeqIsTotal(a.name, b.name);
    }
    forall a, b, c: Container | leq(a, b) && leq(b, c) ensures leq(a, c) {
      if field == ContainerSortField.Name {
        StringLeqIsTransitive(a.name, b.name, c.name);
      }
    }
  }

  predicate ContainerMatches(c: Container, lowered: string, lower: Lower) {
    Contains(lower(c.name), lowered) || Contains(lower(c.image), lowered) || Contains(lower(c.id), lowered)
  }

  function MatchingContainers(cs: ContainersSnapshot, filter: string, lower: Lower): seq<Container> {
    if filter == "" then cs.containers
    else Filter(cs.containers, (c: Container) => ContainerMatches(c, lower(filter), lower))
  }

  function ContainerRows(
    containers: Option<ContainersSnapshot>, filter: string, field: ContainerSortField, order: SortOrder, lower: Lower)
    : seq<Container>
  {
    match containers
    case None => []
    case Some(cs) =>
      if !cs.daemonUp then [] else
      var rows := StableSort(MatchingContainers(cs, filter, lower), NaturalOrder(field));
      if (order == Asc) != SortsAscending(field) then Reverse(rows) else rows
  }

  /**
    With the daemon up the table holds every matching container once per listing
    and runs in the requested direction of the requested column, whichever way the
    column is first sorted.
  */
  lemma ContainerRowsAreOrderedMatches(
    cs: ContainersSnapshot, filter: string, field: ContainerSortField, order: SortOrder, lower: Lower, c: Container)
    ensures var rows := ContainerRows(Some(cs), filter, field, order, lower);
            && (forall i, j :: 0 <= i < j < |rows| ==>
                  if order == Asc then ContainerKeyLeq(field, rows[i], rows[j])
                  else ContainerKeyLeq(field, rows[j], rows[i]))
            && multiset(rows)[c] ==
               (if cs.daemonUp && (filter == "" || Contains(lower(c.name), lower(filter))
                                   || Contains(lower(c.image), lower(filter)) || Contains(lower(c.id), lower(filter)))
                then multiset(cs.containers)[c] else 0)
  {
    hide Contains, ContainerKeyLeq;
    var matching := MatchingContainers(cs, filter, lower);
    NaturalOrderIsTotal(field);
    SortSorts(matching, NaturalOrder(field));
    if filter != "" {
      FilterCounts(cs.containers, (d: Container) => ContainerMatches(d, lower(filter), lower), c);
    }
  }

  /** What each column compares. */
  lemma ContainerRowsByField(
    cs: ContainersSnapshot, filter: string, field: ContainerSortField, order: SortOrder, lower: Lower, i: nat, j: nat)
    requires i < j < |ContainerRows(Some(cs), filter, field, order, lower)|
    ensures var rows := ContainerRows(Some(cs), filter, field, order, lower);
            var (low, high) := if order == Asc then (rows[i], rows[j]) else (rows[j], rows[i]);
            match field
            case Name => DictionaryLeq(low.name, high.name)
            case Cpu => low.cpuPct <= high.cpuPct
            case Mem => low.memUsedBytes <= high.memUsedBytes
            case NetRx => low.netRxBytes <= high.netRxBytes
            case NetTx => low.netTxBytes <= high.netTxBytes
            case Uptime => low.startedAtMs <= high.startedAtMs
  {
    hide ContainerRows, DictionaryLeq;
    var rows := ContainerRows(Some(cs), filter, field, order, lower);
    var (low, high) := if order == Asc then (rows[i], rows[j]) else (rows[j], rows[i]);
    ContainerRowsAreOrderedMatches(cs, filter, field, order, lower, low);
    StringLeqIsLexicographic(low.name, high.name);
  }

  lemma NoContainersNoRows(filter: string, field: ContainerSortField, order: SortOrder, lower: Lower)
    ensures ContainerRows(None, filter, field, order, lower) == []
  {
  }

  /** Containers that tie keep the daemon's order under the column's first direction, and its reverse under the other. */
  lemma ContainerTiesFollowTheSnapshot(
    cs: ContainersSnapshot, filter: string, field: ContainerSortField, order: SortOrder, lower: Lower)
    requires cs.daemonUp
    ensures TiesKept(ContainerRows(Some(cs), filter, field, order, lower), MatchingContainers(cs, filter, lower),
                     NaturalOrder(field),
                     (order == Asc) != (field == ContainerSortField.Name || field == ContainerSortField.Uptime))
  {
    hide TiesKept, MatchingContainers;
    NaturalOrderIsTotal(field);
    SortKeepsTies(MatchingContainers(cs, filter, lower), NaturalOrder(field));
  }

  /** The row count used for cursor bounds, which looks past the state of the daemon. */
  function ContainersCount(containers: Option<ContainersSnapshot>, filter: string, lower: Lower): nat {
    match containers
    case None => 0
    case Some(cs) => |MatchingContainers(cs, filter, lower)|
  }

  /**
    The count is the number of rows shown exactly while the daemon is up or nothing
    matches. The collector publishes no containers with a daemon that is down, so only
    a snapshot decoded from a foreign server can set the two apart.
  */
  lemma CountIsRowsIff(
    cs: ContainersSnapshot, filter: string, field: ContainerSortField, order: SortOrder, lower: Lower)
    ensures ContainersCount(Some(cs), filter, lower) == |ContainerRows(Some(cs), filter, field, order, lower)| <==>
            cs.daemonUp || forall c :: c in cs.containers ==>
                                         && filter != "" && !Contains(lower(c.name), lower(filter))
                                         && !Contains(lower(c.image), lower(filter)) && !Contains(lower(c.id), lower(filter))
  {
    hide Contains, ContainerKeyLeq;
    var matching := MatchingContainers(cs, filter, lower);
    if !cs.daemonUp && matching == [] {
      forall c | c in cs.containers ensures filter != "" && !ContainerMatches(c, lower(filter), lower) {
        assert c !in matching;
      }
    }
    if !cs.daemonUp && matching != [] {
      assert matching[0] in matching && matching[0] in cs.containers;
    }
  }

  /** What the collector here publishes: a daemon that is down comes with an empty list. */
  predicate DownIsEmpty(cs: ContainersSnapshot) {
    !cs.daemonUp ==> cs.containers == []
  }

  lemma CountIsRowsHere(
    cs: ContainersSnapshot, filter: string, field: ContainerSortField, order: SortOrder, lower: Lower)
    requires DownIsEmpty(cs)
    ensures ContainersCount(Some(cs), filter, lower) == |ContainerRows(Some(cs), filter, field, order, lower)|
  {
    hide ContainersCount, ContainerRows;
    CountIsRowsIff(cs, filter, field, order, lower);
  }

  /** A decoded snapshot that counts one row and shows none. */
  lemma ForeignSnapshotSetsThemApart(c: Container, field: ContainerSortField, order: SortOrder, lower: Lower)
    ensures var cs := ContainersSnapshot(false, [c]);
            && ContainersCount(Some(cs), "", lower) == 1
            && ContainerRows(Some(cs), "", field, order, lower) == []
  {
  }
}
