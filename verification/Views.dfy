/**
  The TUI's derived views: settings, cursors, and the caches drawn from the last
  snapshot applied.

  `inForce` is the process filter of the last recompute, which debouncing can leave
  behind the filter being typed; `applied` lists the snapshots applied so far.
*/
module Views {
  import opened Basics
  import opened Sorting
  import opened Process
  import opened ProcessTree
  import opened Containers
  import opened Projections
  import opened Tabs
  import Network

  datatype KubeSubview = Pods | Nodes | Deployments

  datatype KubeSortField =
    | PodName | PodCpu | PodMem | PodRestarts | PodAge | PodPhase
    | NodeName | NodeCpuPct | NodeMemPct | NodePodCount | NodeAge
    | DeployNamespace | DeployName | DeployReadyRatio | DeployAge

  datatype KubeSnapshot = KubeSnapshot(pods: seq<string>, nodes: seq<string>, deployments: seq<string>)

  datatype Snapshot = Snapshot(
    processes: seq<ProcessInfo>,
    networks: Network.NetworkSnapshot,
    containers: Option<ContainersSnapshot>,
    kube: Option<KubeSnapshot>)

  datatype Arrival = Arrival(snapshot: Snapshot, now: real)

  datatype Event =
    | Snap(arrival: Arrival)
    | TogglePause | Refresh
    | GoToTab(to: Tab)
    | SwitchSubview(sv: KubeSubview)
    | ToggleTree
    | Move(delta: int) | Select(index: nat) | Wheel(rows: int)
    | TypeFilter(c: char, at: real) | EraseFilter(at: real) | EnterFilter | ClearFilter | SetFilter(text: string)
    | CycleSort | ReverseSort | SortProcesses(field: SortField) | SortContainers(column: ContainerSortField)

  const FILTER_DEBOUNCE: real := 0.05
  const NETWORK_HISTORY_LEN: nat := 60

  function Max(x: int, y: int): int {
    if x >= y then x else y
  }

  function Flip(order: SortOrder): SortOrder {
    if order == Asc then Desc else Asc
  }

  function NextSortField(field: SortField): SortField {
    match field
    case Cpu => SortField.Mem
    case Mem => SortField.Pid
    case Pid => SortField.Name
    case Name => SortField.User
    case User => SortField.Cpu
  }

  function NextContainerSortField(field: ContainerSortField): ContainerSortField {
    match field
    case Cpu => ContainerSortField.Mem
    case Mem => ContainerSortField.Name
    case Name => ContainerSortField.NetRx
    case NetRx => ContainerSortField.NetTx
    case NetTx => ContainerSortField.Uptime
    case Uptime => ContainerSortField.Cpu
  }

  function DefaultKubeSort(sv: KubeSubview): KubeSortField {
    match sv
    case Pods => PodCpu
    case Nodes => NodeCpuPct
    case Deployments => DeployName
  }

  function NextKubeSortField(field: KubeSortField, sv: KubeSubview): KubeSortField {
    match (sv, field)
    case (Pods, PodCpu) => PodMem
    case (Pods, PodMem) => PodName
    case (Pods, PodName) => PodRestarts
    case (Pods, PodRestarts) => PodAge
    case (Pods, PodAge) => PodPhase
    case (Pods, PodPhase) => PodCpu
    case (Nodes, NodeCpuPct) => NodeMemPct
    case (Nodes, NodeMemPct) => NodeName
    case (Nodes, NodeName) => NodePodCount
    case (Nodes, NodePodCount) => NodeAge
    case (Nodes, NodeAge) => NodeCpuPct
    case (Deployments, DeployName) => DeployReadyRatio
    case (Deployments, DeployReadyRatio) => DeployNamespace
    case (Deployments, DeployNamespace) => DeployAge
    case (Deployments, DeployAge) => DeployName
    case _ => DefaultKubeSort(sv)
  }

  /** A sort key pressed again and again visits every column of the table in front, in this order. */
  lemma SortsGoRound(i: nat)
    ensures var columns := [SortField.Cpu, SortField.Mem, SortField.Pid, SortField.Name, SortField.User];
            i < |columns| ==> NextSortField(columns[i]) == columns[(i + 1) % |columns|]
    ensures var columns := [
              ContainerSortField.Cpu, ContainerSortField.Mem, ContainerSortField.Name, ContainerSortField.NetRx,
              ContainerSortField.NetTx, ContainerSortField.Uptime];
            i < |columns| ==> NextContainerSortField(columns[i]) == columns[(i + 1) % |columns|]
    ensures var columns := [PodCpu, PodMem, PodName, PodRestarts, PodAge, PodPhase];
            i < |columns| ==> NextKubeSortField(columns[i], Pods) == columns[(i + 1) % |columns|]
    ensures var columns := [NodeCpuPct, NodeMemPct, NodeName, NodePodCount, NodeAge];
            i < |columns| ==> NextKubeSortField(columns[i], Nodes) == columns[(i + 1) % |columns|]
    ensures var columns := [DeployName, DeployReadyRatio, DeployNamespace, DeployAge];
            i < |columns| ==> NextKubeSortField(columns[i], Deployments) == columns[(i + 1) % |columns|]
  {
  }

  /** The filter text in front after an event. */
  function Edited(text: string, e: Event): string {
    match e
    case TypeFilter(c, _) => if Utf8Len(text) < MAX_FILTER_LEN then text + [c] else text
    case EraseFilter(_) => if text == "" then "" else text[..|text| - 1]
    case ClearFilter => ""
    case SetFilter(t) => t
    case _ => text
  }

  /** What the user has set: the process table, the container table, the sub-view. */
  datatype Setup = Setup(
    treeMode: bool, filter: string, sortField: SortField, sortOrder: SortOrder,
    containersFilter: string, containersSortField: ContainerSortField, containersSortOrder: SortOrder,
    kubeSubview: KubeSubview, kubeFilter: string, kubeSortField: KubeSortField, kubeSortOrder: SortOrder)

  /** The settings after an event on `tab`. */
  function Reset(s: Setup, tab: Tab, e: Event): Setup {
    match e
    case ToggleTree => s.(treeMode := !s.treeMode)
    case SwitchSubview(sv) =>
      s.(kubeSubview := sv, kubeFilter := "", kubeSortField := DefaultKubeSort(sv), kubeSortOrder := Desc)
    case SortProcesses(field) => s.(sortField := field)
    case SortContainers(column) => s.(containersSortField := column)
    case _ =>
      match tab
      case Network => s
      case Gpu => s
      case Containers =>
        s.(containersFilter := Edited(s.containersFilter, e),
           containersSortField := if e.CycleSort? then NextContainerSortField(s.containersSortField) else s.containersSortField,
           containersSortOrder := if e.ReverseSort? then Flip(s.containersSortOrder) else s.containersSortOrder)
      case Kube =>
        s.(kubeFilter := Edited(s.kubeFilter, e),
           kubeSortField := if e.CycleSort? then NextKubeSortField(s.kubeSortField, s.kubeSubview) else s.kubeSortField,
           kubeSortOrder := if e.ReverseSort? then Flip(s.kubeSortOrder) else s.kubeSortOrder)
      case _ =>
        s.(filter := Edited(s.filter, e),
           sortField := if e.CycleSort? then NextSortField(s.sortField) else s.sortField,
           sortOrder := if e.ReverseSort? then Flip(s.sortOrder) else s.sortOrder)
  }

  /** The filter of `tab`; a tab without one here keeps none. */
  function WithFilter(s: Setup, tab: Tab, text: string): Setup {
    match tab
    case Network => s
    case Gpu => s
    case Containers => s.(containersFilter := text)
    case Kube => s.(kubeFilter := text)
    case _ => s.(filter := text)
  }

  function FilterOf(s: Setup, tab: Tab): string {
    match tab
    case Containers => s.containersFilter
    case Kube => s.kubeFilter
    case _ => s.filter
  }

  lemma FilterEventsEdit(s: Setup, tab: Tab, e: Event)
    requires e.TypeFilter? || e.EraseFilter? || e.EnterFilter? || e.ClearFilter? || e.SetFilter?
    ensures Reset(s, tab, e) == WithFilter(s, tab, Edited(FilterOf(s, tab), e))
    ensures WithFilter(s, tab, FilterOf(s, tab)) == s
  {
    hide Edited;
  }

  lemma ModeEventsSet(s: Setup, tab: Tab, e: Event)
    requires !(e.TypeFilter? || e.EraseFilter? || e.EnterFilter? || e.ClearFilter? || e.SetFilter?)
    requires !e.CycleSort? && !e.ReverseSort?
    ensures Reset(s, tab, e) ==
            match e
            case ToggleTree => s.(treeMode := !s.treeMode)
            case SwitchSubview(sv) =>
              s.(kubeSubview := sv, kubeFilter := "", kubeSortField := DefaultKubeSort(sv), kubeSortOrder := Desc)
            case SortProcesses(field) => s.(sortField := field)
            case SortContainers(column) => s.(containersSortField := column)
            case _ => s
  {
    hide DefaultKubeSort;
  }

  /** Setting by setting, which events change it, and to what. */
  lemma SettingsFollowEvents(s: Setup, tab: Tab, e: Event)
    ensures var t := Reset(s, tab, e);
            var onProcesses := tab == General || tab == Processes;
            && t.treeMode == (if e.ToggleTree? then !s.treeMode else s.treeMode)
            && t.filter == (if onProcesses then Edited(s.filter, e) else s.filter)
            && t.containersFilter == (if tab == Tab.Containers then Edited(s.containersFilter, e) else s.containersFilter)
            && t.kubeFilter == (if e.SwitchSubview? then ""
                                else if tab == Tab.Kube then Edited(s.kubeFilter, e) else s.kubeFilter)
            && t.sortField == (if e.SortProcesses? then e.field
                               else if e.CycleSort? && onProcesses then NextSortField(s.sortField) else s.sortField)
            && t.sortOrder == (if e.ReverseSort? && onProcesses then (if s.sortOrder == Asc then Desc else Asc)
                               else s.sortOrder)
            && t.containersSortField == (
                 if e.SortContainers? then e.column
                 else if e.CycleSort? && tab == Tab.Containers then NextContainerSortField(s.containersSortField)
                 else s.containersSortField)
            && t.containersSortOrder == (
                 if e.ReverseSort? && tab == Tab.Containers then (if s.containersSortOrder == Asc then Desc else Asc)
                 else s.containersSortOrder)
            && t.kubeSubview == (if e.SwitchSubview? then e.sv else s.kubeSubview)
            && t.kubeSortField == (
                 if e.SwitchSubview? then
                   (match e.sv case Pods => PodCpu case Nodes => NodeCpuPct case Deployments => DeployName)
                 else if e.CycleSort? && tab == Tab.Kube then NextKubeSortField(s.kubeSortField, s.kubeSubview)
                 else s.kubeSortField)
            && t.kubeSortOrder == (
                 if e.SwitchSubview? then Desc
                 else if e.ReverseSort? && tab == Tab.Kube then (if s.kubeSortOrder == Asc then Desc else Asc)
                 else s.kubeSortOrder)
  {
    hide NextSortField, NextContainerSortField, NextKubeSortField, Utf8Len;
  }

  /** Erasing takes back what was typed; at 256 bytes nothing more is typed. */
  lemma EditsMean(text: string, c: char, at: real, later: real)
    ensures Utf8Len(text) < 256 ==>
              && |Edited(text, TypeFilter(c, at))| == |text| + 1
              && Edited(text, TypeFilter(c, at))[|text|] == c
              && Edited(Edited(text, TypeFilter(c, at)), EraseFilter(later)) == text
    ensures Utf8Len(text) >= 256 ==> Edited(text, TypeFilter(c, at)) == text
    ensures Edited("", EraseFilter(at)) == Edited(text, ClearFilter) == "" && Edited("", SetFilter(text)) == text
    ensures Edited(text, EnterFilter) == text
  {
  }

  /** A wheel turn on a tab with rows: the window moves within them, the cursor into the window and onto a row. */
  predicate Scrolled(active: bool, count: nat, delta: int, top: nat, selected: nat, top': nat, selected': nat) {
    if active && count > 0 then top' == Clamped(top + delta, count) && selected' == Clamped(Max(selected, top'), count)
    else top' == top && selected' == selected
  }

  // ------------------------------------------------- what a run has applied

  function PausedAfter(paused: bool, e: Event): bool {
    match e
    case TogglePause => !paused
    case Refresh => false
    case _ => paused
  }

  function AcceptedOne(paused: bool, e: Event): seq<Arrival> {
    if e.Snap? && !paused then [e.arrival] else []
  }

  /** The snapshots that arrive while the view is not paused. */
  function Accepted(paused: bool, events: seq<Event>): seq<Arrival>
    decreases |events|
  {
    if events == [] then []
    else AcceptedOne(paused, events[0]) + Accepted(PausedAfter(paused, events[0]), events[1..])
  }

  function ContainerLists(arrivals: seq<Arrival>): seq<seq<Container>> {
    if arrivals == [] then []
    else
      var lists := ContainerLists(arrivals[..|arrivals| - 1]);
      match arrivals[|arrivals| - 1].snapshot.containers
      case Some(cs) => lists + [cs.containers]
      case None => lists
  }

  function Samples(arrivals: seq<Arrival>): seq<Network.Sample> {
    seq(|arrivals|, i requires 0 <= i < |arrivals| => Network.Sample(arrivals[i].snapshot.networks, arrivals[i].now))
  }

  lemma OneMoreArrival(arrivals: seq<Arrival>, a: Arrival)
    ensures ContainerLists(arrivals + [a]) ==
            ContainerLists(arrivals) + (if a.snapshot.containers.Some? then [a.snapshot.containers.value.containers] else [])
    ensures PushSnapshots(ContainerLists(arrivals + [a])) ==
            if a.snapshot.containers.Some?
            then PushSnapshot(PushSnapshots(ContainerLists(arrivals)), a.snapshot.containers.value.containers)
            else PushSnapshots(ContainerLists(arrivals))
    ensures Network.PushAll(NETWORK_HISTORY_LEN, Samples(arrivals + [a])) ==
            Network.Pushed(Network.PushAll(NETWORK_HISTORY_LEN, Samples(arrivals)), NETWORK_HISTORY_LEN,
                           Network.Sample(a.snapshot.networks, a.now))
  {
    hide PushSnapshot, Network.Pushed;
    assert (arrivals + [a])[..|arrivals|] == arrivals;
    var lists := ContainerLists(arrivals);
    if a.snapshot.containers.Some? {
      var cs := a.snapshot.containers.value.containers;
      assert (lists + [cs])[..|lists|] == lists;
    } else {
      assert lists + [] == lists;
    }
    var samples, sample := Samples(arrivals), Network.Sample(a.snapshot.networks, a.now);
    assert Samples(arrivals + [a]) == samples + [sample];
    assert (samples + [sample])[..|samples|] == samples;
  }

  class AppViews {
    const lower: Lower
    const kubeView: (KubeSnapshot, KubeSubview, string, KubeSortField, SortOrder) -> seq<nat>
    const containerHistory: ContainerHistory
    const networkHistory: Network.NetworkHistory

    var tab: Tab
    var paused: bool
    var lastSnapshot: Option<Snapshot>

    var sortField: SortField
    var sortOrder: SortOrder
    var filterInput: string
    var treeMode: bool
    var selected: nat
    var scrollOffset: nat
    var visibleProcesses: seq<ProcessInfo>
    var visibleTree: seq<Row>
    var lastFilterChange: Option<real>

    var containersSortField: ContainerSortField
    var containersSortOrder: SortOrder
    var containersFilterInput: string
    var containersSelected: nat
    var containersScrollOffset: nat
    var containersCache: seq<Container>

    var kubeSubview: KubeSubview
    var kubeSortField: KubeSortField
    var kubeSortOrder: SortOrder
    var kubeFilterInput: string
    var kubeSelected: nat
    var kubeScrollOffset: nat
    var kubeViewCache: seq<nat>

    ghost var inForce: string
    ghost var applied: seq<Arrival>

    // -------------------------------------------------------------- invariant

    ghost function Containers(): Option<ContainersSnapshot>
      reads `lastSnapshot
    {
      match lastSnapshot case Some(s) => s.containers case None => None
    }

    ghost function Kube(): Option<KubeSnapshot>
      reads `lastSnapshot
    {
      match lastSnapshot case Some(s) => s.kube case None => None
    }

    /** What the user has set so far. */
    function SetupNow(): Setup
      reads `treeMode, `filterInput, `sortField, `sortOrder
      reads `containersFilterInput, `containersSortField, `containersSortOrder
      reads `kubeSubview, `kubeFilterInput, `kubeSortField, `kubeSortOrder
    {
      Setup(treeMode, filterInput, sortField, sortOrder, containersFilterInput, containersSortField, containersSortOrder,
            kubeSubview, kubeFilterInput, kubeSortField, kubeSortOrder)
    }

    lemma SetupFields()
      ensures var s := SetupNow();
              s.treeMode == treeMode && s.sortOrder == sortOrder && s.containersSortOrder == containersSortOrder
    {
    }

    function ProcessCount(): nat
      reads `treeMode, `visibleTree, `visibleProcesses
    {
      if treeMode then |visibleTree| else |visibleProcesses|
    }

    /** The process table and tree are those of the last snapshot under the filter in force. */
    ghost predicate ProcessesShown()
      reads `lastSnapshot, `inForce, `sortField, `sortOrder, `treeMode, `visibleProcesses, `visibleTree
    {
      match lastSnapshot
      case None => visibleProcesses == [] && visibleTree == []
      case Some(s) =>
        && IsTable(visibleProcesses, s.processes, inForce, sortField, sortOrder, lower)
        && visibleTree == VisibleTree(s.processes, inForce, treeMode, lower)
    }

    /** The process cursor is on a row, or at zero when there is none. */
    ghost predicate CursorInTable()
      reads `treeMode, `visibleProcesses, `visibleTree, `selected, `scrollOffset
    {
      && (if ProcessCount() == 0 then selected == 0 else selected < ProcessCount())
      && (if ProcessCount() == 0 then scrollOffset == 0 else scrollOffset < ProcessCount())
    }

    ghost predicate ContainersShown()
      reads `lastSnapshot, `containersCache, `containersFilterInput, `containersSortField, `containersSortOrder
    {
      containersCache ==
      ContainerRows(Containers(), containersFilterInput, containersSortField, containersSortOrder, lower)
    }

    ghost predicate KubeShown()
      reads `lastSnapshot, `kubeViewCache, `kubeSubview, `kubeFilterInput, `kubeSortField, `kubeSortOrder
    {
      kubeViewCache == match Kube()
                       case Some(k) => kubeView(k, kubeSubview, kubeFilterInput, kubeSortField, kubeSortOrder)
                       case None => []
    }

    /** The last snapshot and both histories are those of the snapshots applied. */
    ghost predicate FollowsApplied()
      reads `lastSnapshot, `applied, containerHistory, networkHistory
    {
      && lastSnapshot == (if applied == [] then None else Some(applied[|applied| - 1].snapshot))
      && containerHistory.View() == PushSnapshots(ContainerLists(applied))
      && networkHistory.Valid() && networkHistory.capacity == NETWORK_HISTORY_LEN
      && networkHistory.samples == Network.PushAll(NETWORK_HISTORY_LEN, Samples(applied))
    }

    ghost predicate Valid()
      reads this, containerHistory, networkHistory
    {
      && ProcessesShown() && CursorInTable() && ContainersShown() && KubeShown() && FollowsApplied()
      && (inForce != filterInput ==> lastFilterChange.Some?)
    }

    constructor (
      sortField: SortField, treeMode: bool, filter: string, lower: Lower,
      kubeView: (KubeSnapshot, KubeSubview, string, KubeSortField, SortOrder) -> seq<nat>)
      ensures Valid() && applied == [] && !paused && tab == General
      ensures this.sortField == sortField && this.treeMode == treeMode && filterInput == filter
      ensures this.lower == lower && this.kubeView == kubeView
      ensures fresh(containerHistory) && fresh(networkHistory)
    {
      this.lower, this.kubeView := lower, kubeView;
      containerHistory := new ContainerHistory();
      networkHistory := new Network.NetworkHistory(NETWORK_HISTORY_LEN);
      tab, paused, lastSnapshot := General, false, None;
      this.sortField, sortOrder, filterInput, this.treeMode := sortField, Desc, filter, treeMode;
      selected, scrollOffset, visibleProcesses, visibleTree, lastFilterChange := 0, 0, [], [], None;
      containersSortField, containersSortOrder, containersFilterInput := ContainerSortField.Cpu, Desc, "";
      containersSelected, containersScrollOffset, containersCache := 0, 0, [];
      kubeSubview, kubeSortField, kubeSortOrder, kubeFilterInput := Pods, DefaultKubeSort(Pods), Desc, "";
      kubeSelected, kubeScrollOffset, kubeViewCache := 0, 0, [];
      inForce, applied := filter, [];
    }

    // ------------------------------------------------------------- recomputes

    method RecomputeVisible()
      requires lastSnapshot.None? ==> selected == scrollOffset == 0
      modifies `visibleProcesses, `visibleTree, `selected, `scrollOffset, `inForce
      ensures inForce == filterInput
      ensures ProcessesShown() && CursorInTable()
      ensures selected == Clamped(old(selected), ProcessCount())
      ensures scrollOffset == Clamped(old(scrollOffset), ProcessCount())
    {
      hide IsSortOf, FilterProcesses, Forest, Flatten;
      inForce := filterInput;
      match lastSnapshot {
        case None =>
          visibleProcesses, visibleTree := [], [];
          return;
        case Some(snapshot) =>
          var filtered := FilterProcesses(snapshot.processes, filterInput, lower);
          if treeMode {
            var tree := BuildProcessTree(filtered);
            visibleTree := FlattenTree(tree);
          } else {
            visibleTree := [];
          }
          var rows := new ProcessInfo[|filtered|](i requires 0 <= i < |filtered| => filtered[i]);
          assert rows[..] == filtered;
          Process.SortProcesses(rows, sortField, sortOrder, lower);
          visibleProcesses := rows[..];
      }
      var count := ProcessCount();
      if count > 0 {
        selected := Min(selected, count - 1);
        scrollOffset := Min(scrollOffset, count - 1);
      } else {
        selected, scrollOffset := 0, 0;
      }
    }

    lemma CursorRests()
      requires CursorInTable()
      ensures selected == Clamped(selected, ProcessCount()) && scrollOffset == Clamped(scrollOffset, ProcessCount())
    {
    }

    /** Recomputes unless the previous keystroke is less than the debounce window old. */
    method RecomputeVisibleDebounced(now: real)
      requires lastSnapshot.None? ==> selected == scrollOffset == 0
      requires ProcessesShown() && CursorInTable()
      modifies `visibleProcesses, `visibleTree, `selected, `scrollOffset, `inForce, `lastFilterChange
      ensures lastFilterChange == Some(now)
      ensures ProcessesShown() && CursorInTable()
      ensures var due := old(lastFilterChange).None? || now - old(lastFilterChange).value >= FILTER_DEBOUNCE;
              if due then inForce == filterInput
              else inForce == old(inForce) && visibleProcesses == old(visibleProcesses) && visibleTree == old(visibleTree)
                   && selected == old(selected) && scrollOffset == old(scrollOffset)
      ensures selected == Clamped(old(selected), ProcessCount())
    {
      hide ProcessesShown, CursorInTable;
      CursorRests();
      var shouldRecompute := lastFilterChange.None? || now - lastFilterChange.value >= FILTER_DEBOUNCE;
      lastFilterChange := Some(now);
      if shouldRecompute {
        RecomputeVisible();
      }
    }

    method RecomputeContainersView()
      modifies `containersCache
      ensures ContainersShown()
    {
      containersCache := [];
      if lastSnapshot.None? || lastSnapshot.value.containers.None? || !lastSnapshot.value.containers.value.daemonUp {
        return;
      }
      var rows := MatchingContainers(lastSnapshot.value.containers.value, containersFilterInput, lower);
      rows := StableSort(rows, NaturalOrder(containersSortField));
      var isAsc := containersSortOrder == Asc;
      var defaultAsc := containersSortField == ContainerSortField.Name || containersSortField == ContainerSortField.Uptime;
      if isAsc != defaultAsc {
        rows := Reverse(rows);
      }
      containersCache := rows;
    }

    method RecomputeKubeView()
      modifies `kubeViewCache
      ensures KubeShown()
    {
      if lastSnapshot.Some? && lastSnapshot.value.kube.Some? {
        kubeViewCache := kubeView(
          lastSnapshot.value.kube.value, kubeSubview, kubeFilterInput, kubeSortField, kubeSortOrder);
      } else {
        kubeViewCache := [];
      }
    }

    // ----------------------------------------------------------------- events

    /** A snapshot is ignored while paused and otherwise refreshes every view under the current settings. */
    method ApplySnapshot(a: Arrival)
      requires Valid()
      modifies `lastSnapshot, `visibleProcesses, `visibleTree, `selected, `scrollOffset, `inForce
      modifies `containersCache, `kubeViewCache, `applied, containerHistory, networkHistory
      ensures Valid()
      ensures applied == old(applied) + if paused then [] else [a]
      ensures inForce == if paused then old(inForce) else filterInput
      ensures lastSnapshot == if paused then old(lastSnapshot) else Some(a.snapshot)
      ensures selected == Clamped(old(selected), ProcessCount())
      ensures scrollOffset == Clamped(old(scrollOffset), ProcessCount())
    {
      hide ProcessesShown, CursorInTable, ContainersShown, KubeShown, FollowsApplied;
      CursorRests();
      if paused {
        assert applied + [] == applied;
        return;
      }
      RecordSnapshot(a);
      RecomputeVisible();
      RecomputeContainersView();
      RecomputeKubeView();
    }

    /** Feeds both histories and makes the snapshot the last one. */
    method RecordSnapshot(a: Arrival)
      requires FollowsApplied()
      modifies `lastSnapshot, `applied, containerHistory, networkHistory
      ensures FollowsApplied() && applied == old(applied) + [a] && lastSnapshot == Some(a.snapshot)
    {
      hide PushSnapshots, PushSnapshot, Network.PushAll, Network.Pushed;
      OneMoreArrival(applied, a);
      assert (applied + [a])[|applied|] == a;
      networkHistory.Push(a.snapshot.networks, a.now);
      match a.snapshot.containers {
        case Some(cs) => containerHistory.PushContainerHistory(cs);
        case None =>
      }
      applied := applied + [a];
      lastSnapshot := Some(a.snapshot);
    }

    method GoToTab(to: Tab)
      modifies `tab
      ensures tab == to
    {
      tab := to;
    }

    method SwitchKubeSubview(sv: KubeSubview)
      modifies `kubeSubview, `kubeSortField, `kubeSortOrder, `kubeFilterInput
      modifies `kubeSelected, `kubeScrollOffset, `kubeViewCache
      ensures KubeShown()
      ensures kubeSubview == sv && kubeSortField == DefaultKubeSort(sv) && kubeSortOrder == Desc
      ensures kubeFilterInput == "" && kubeSelected == 0 && kubeScrollOffset == 0
      ensures SetupNow() == old(SetupNow()).(
                              kubeSubview := sv, kubeFilter := "", kubeSortField := DefaultKubeSort(sv), kubeSortOrder := Desc)
    {
      hide DefaultKubeSort;
      kubeSubview, kubeSortField, kubeSortOrder, kubeFilterInput := sv, DefaultKubeSort(sv), Desc, "";
      kubeSelected, kubeScrollOffset := 0, 0;
      RecomputeKubeView();
    }

    method SetTreeMode(on: bool)
      requires Valid()
      modifies `treeMode, `visibleProcesses, `visibleTree, `selected, `scrollOffset, `inForce
      ensures Valid() && treeMode == on && inForce == filterInput && selected == 0 && scrollOffset == 0
      ensures SetupNow() == old(SetupNow()).(treeMode := on)
    {
      hide ProcessesShown, CursorInTable, ContainersShown, KubeShown, FollowsApplied;
      treeMode, selected, scrollOffset := on, 0, 0;
      RecomputeVisible();
    }

    // ---------------------------------------------------------------- cursors

    /** Rows of the active tab; `others` is the count on the Network and GPU tabs. */
    function Items(others: nat): nat
      reads `tab, `lastSnapshot, `containersFilterInput, `kubeViewCache, `treeMode, `visibleTree, `visibleProcesses
    {
      match tab
      case Network => others
      case Gpu => others
      case Containers =>
        if lastSnapshot.None? then 0 else ContainersCount(lastSnapshot.value.containers, containersFilterInput, lower)
      case Kube => |kubeViewCache|
      case _ => ProcessCount()
    }

    /** Moves the cursor of the active tab to `target`, kept within `count` rows. */
    method SetSelected(target: int, count: nat)
      requires count > 0
      modifies `selected, `containersSelected, `kubeSelected
      ensures selected == if ProcessTab() then Clamped(target, count) else old(selected)
      ensures containersSelected == if tab == Tab.Containers then Clamped(target, count) else old(containersSelected)
      ensures kubeSelected == if tab == Tab.Kube then Clamped(target, count) else old(kubeSelected)
    {
      match tab
      case Containers => containersSelected := Clamped(target, count);
      case Kube => kubeSelected := Clamped(target, count);
      case General => selected := Clamped(target, count);
      case Processes => selected := Clamped(target, count);
      case _ =>
    }

    method SetScroll(target: int, count: nat)
      requires count > 0
      modifies `scrollOffset, `containersScrollOffset, `kubeScrollOffset
      ensures scrollOffset == if ProcessTab() then Clamped(target, count) else old(scrollOffset)
      ensures containersScrollOffset ==
              if tab == Tab.Containers then Clamped(target, count) else old(containersScrollOffset)
      ensures kubeScrollOffset == if tab == Tab.Kube then Clamped(target, count) else old(kubeScrollOffset)
    {
      match tab
      case Containers => containersScrollOffset := Clamped(target, count);
      case Kube => kubeScrollOffset := Clamped(target, count);
      case General => scrollOffset := Clamped(target, count);
      case Processes => scrollOffset := Clamped(target, count);
      case _ =>
    }

    predicate ProcessTab()
      reads `tab
    {
      tab == General || tab == Processes
    }

    function Selected(): nat
      reads `tab, `selected, `containersSelected, `kubeSelected
    {
      if tab == Tab.Containers then containersSelected else if tab == Tab.Kube then kubeSelected else selected
    }

    function Scroll(): nat
      reads `tab, `scrollOffset, `containersScrollOffset, `kubeScrollOffset
    {
      if tab == Tab.Containers then containersScrollOffset
      else if tab == Tab.Kube then kubeScrollOffset else scrollOffset
    }

    method MoveSelection(delta: int, others: nat)
      requires Valid()
      modifies `selected, `containersSelected, `kubeSelected
      ensures Valid()
      ensures var count := Items(others);
              && selected == (if ProcessTab() && count > 0 then Clamped(old(selected) + delta, count) else old(selected))
              && containersSelected == (if tab == Tab.Containers && count > 0 then
                                          Clamped(old(containersSelected) + delta, count) else old(containersSelected))
              && kubeSelected == (if tab == Tab.Kube && count > 0 then
                                    Clamped(old(kubeSelected) + delta, count) else old(kubeSelected))
    {
      hide ProcessesShown, ContainersShown, KubeShown, FollowsApplied, ContainersCount;
      var count := Items(others);
      if count > 0 {
        SetSelected(Selected() + delta, count);
      }
    }

    method SelectIndex(index: nat, others: nat)
      requires Valid()
      modifies `selected, `containersSelected, `kubeSelected
      ensures Valid()
      ensures var count := Items(others);
              && selected == (if ProcessTab() && count > 0 then Clamped(index, count) else old(selected))
              && containersSelected == (if tab == Tab.Containers && count > 0 then
                                          Clamped(index, count) else old(containersSelected))
              && kubeSelected == (if tab == Tab.Kube && count > 0 then Clamped(index, count) else old(kubeSelected))
    {
      hide ProcessesShown, ContainersShown, KubeShown, FollowsApplied, ContainersCount;
      var count := Items(others);
      if count > 0 {
        SetSelected(index, count);
      }
    }

    /** The wheel moves the window and pulls the cursor into it. */
    method ScrollRows(delta: int, others: nat)
      requires Valid()
      modifies `selected, `containersSelected, `kubeSelected
      modifies `scrollOffset, `containersScrollOffset, `kubeScrollOffset
      ensures Valid()
      ensures var count := Items(others);
              && Scrolled(ProcessTab(), count, delta, old(scrollOffset), old(selected), scrollOffset, selected)
              && Scrolled(tab == Tab.Containers, count, delta, old(containersScrollOffset), old(containersSelected),
                          containersScrollOffset, containersSelected)
              && Scrolled(tab == Tab.Kube, count, delta, old(kubeScrollOffset), old(kubeSelected),
                          kubeScrollOffset, kubeSelected)
    {
      hide ProcessesShown, ContainersShown, KubeShown, FollowsApplied, ContainersCount;
      var count := Items(others);
      if count == 0 {
        return;
      }
      SetScroll(Scroll() + delta, count);
      SetSelected(Max(Selected(), Scroll()), count);
    }

    /** The row of the process table or tree at the cursor. */
    function UnderCursor(): Option<ProcessInfo>
      reads `treeMode, `visibleTree, `visibleProcesses, `selected
    {
      if selected >= ProcessCount() then None
      else if treeMode then Some(visibleTree[selected].0)
      else Some(visibleProcesses[selected])
    }

    function ContainerUnderCursor(): Option<Container>
      reads `containersCache, `containersSelected
    {
      if containersSelected < |containersCache| then Some(containersCache[containersSelected]) else None
    }

    /** There is a selected process whenever a row is shown, and it is one of the snapshot's. */
    method SelectedProcess() returns (p: Option<ProcessInfo>)
      requires Valid()
      ensures p == UnderCursor()
      ensures p.Some? <==> ProcessCount() > 0
      ensures p.Some? ==> lastSnapshot.Some? && p.value in lastSnapshot.value.processes
    {
      hide IsTable, VisibleTree, ContainersShown, KubeShown, FollowsApplied;
      p := None;
      if treeMode && selected < |visibleTree| {
        p := Some(visibleTree[selected].0);
      }
      if !treeMode && selected < |visibleProcesses| {
        p := Some(visibleProcesses[selected]);
      }
      RowsComeFromTheSnapshot();
    }

    lemma RowsComeFromTheSnapshot()
      requires ProcessesShown()
      ensures lastSnapshot.None? ==> visibleProcesses == [] && visibleTree == []
      ensures lastSnapshot.Some? ==>
                && (forall k :: 0 <= k < |visibleProcesses| ==> visibleProcesses[k] in lastSnapshot.value.processes)
                && (forall k :: 0 <= k < |visibleTree| ==> visibleTree[k].0 in lastSnapshot.value.processes)
    {
      hide IsTable, VisibleTree;
      if lastSnapshot.Some? {
        var procs := lastSnapshot.value.processes;
        TreeHasTheTablesRows(visibleProcesses, procs, inForce, sortField, sortOrder, lower);
        NoTreeWithoutTreeMode(procs, inForce, lower);
      }
    }

    /** The container at the cursor, if the daemon is up and the cursor is on a row. */
    method SelectedContainer() returns (c: Option<Container>)
      requires Valid()
      ensures c == ContainerUnderCursor()
    {
      hide ProcessesShown, CursorInTable, KubeShown, FollowsApplied, MatchingContainers;
      if lastSnapshot.None? || lastSnapshot.value.containers.None? || !lastSnapshot.value.containers.value.daemonUp {
        return None;
      }
      c := if containersSelected < |containersCache| then Some(containersCache[containersSelected]) else None;
    }

    lemma ContainersComeFromTheSnapshot()
      requires ContainersShown()
      ensures containersCache != [] ==> Containers().Some?
      ensures forall k :: 0 <= k < |containersCache| ==> containersCache[k] in Containers().value.containers
    {
      hide ContainerRows;
      if Containers().Some? {
        var cs := Containers().value;
        forall k | 0 <= k < |containersCache| ensures containersCache[k] in cs.containers {
          ContainerRowsAreOrderedMatches(
            cs, containersFilterInput, containersSortField, containersSortOrder, lower, containersCache[k]);
          assert containersCache[k] in multiset(containersCache);
        }
      } else {
        NoContainersNoRows(containersFilterInput, containersSortField, containersSortOrder, lower);
      }
    }

    // ---------------------------------------------------------------- filters

    function FilterText(): string
      reads `tab, `filterInput, `containersFilterInput, `kubeFilterInput
    {
      match tab
      case Containers => containersFilterInput
      case Kube => kubeFilterInput
      case _ => filterInput
    }

    lemma EmptyViewsRestAtZero()
      requires ProcessesShown() && CursorInTable()
      ensures lastSnapshot.None? ==> selected == scrollOffset == 0
    {
    }

    /** With no keystroke involved the new filter is in force at once. */
    method FilterNow(text: string)
      requires Valid()
      modifies `filterInput, `visibleProcesses, `visibleTree, `selected, `scrollOffset, `inForce, `lastFilterChange
      ensures Valid() && filterInput == inForce == text && lastFilterChange == None
      ensures selected == Clamped(old(selected), ProcessCount()) && scrollOffset == 0
    {
      hide ProcessesShown, CursorInTable, ContainersShown, KubeShown, FollowsApplied;
      EmptyViewsRestAtZero();
      filterInput, lastFilterChange := text, None;
      RecomputeVisible();
      BackToTop();
    }

    /** A keystroke puts the new filter in force unless it follows another within the debounce window. */
    method FilterTyped(text: string, at: real)
      requires Valid()
      modifies `filterInput, `visibleProcesses, `visibleTree, `selected, `scrollOffset, `inForce, `lastFilterChange
      ensures Valid() && filterInput == text && lastFilterChange == Some(at)
      ensures var due := old(lastFilterChange).None? || at - old(lastFilterChange).value >= 0.05;
              inForce == if due then text else old(inForce)
      ensures selected == Clamped(old(selected), ProcessCount()) && scrollOffset == 0
    {
      hide ProcessesShown, CursorInTable, ContainersShown, KubeShown, FollowsApplied;
      EmptyViewsRestAtZero();
      filterInput := text;
      RecomputeVisibleDebounced(at);
      BackToTop();
    }

    /** The cursor stays on a row and the window returns to the first one. */
    method BackToTop()
      modifies `selected, `scrollOffset
      ensures CursorInTable() && selected == Clamped(old(selected), ProcessCount()) && scrollOffset == 0
    {
      selected, scrollOffset := Clamped(selected, ProcessCount()), 0;
    }

    method ChangeContainersFilter(text: string)
      requires Valid()
      modifies `containersFilterInput, `containersCache, `containersSelected, `containersScrollOffset
      ensures Valid() && containersFilterInput == text && containersScrollOffset == 0
      ensures containersSelected == Clamped(old(containersSelected), ContainersCount(Containers(), text, lower))
      ensures SetupNow() == old(SetupNow()).(containersFilter := text)
    {
      hide ProcessesShown, CursorInTable, KubeShown, FollowsApplied, ContainersShown;
      containersFilterInput := text;
      RecomputeContainersView();
      var count := if lastSnapshot.None? then 0 else ContainersCount(lastSnapshot.value.containers, text, lower);
      containersSelected, containersScrollOffset := Clamped(containersSelected, count), 0;
    }

    method ChangeKubeFilter(text: string)
      requires Valid()
      modifies `kubeFilterInput, `kubeViewCache, `kubeSelected, `kubeScrollOffset
      ensures Valid() && kubeFilterInput == text && kubeScrollOffset == 0
      ensures kubeSelected == Clamped(old(kubeSelected), |kubeViewCache|)
      ensures SetupNow() == old(SetupNow()).(kubeFilter := text)
    {
      hide ProcessesShown, CursorInTable, ContainersShown, FollowsApplied, KubeShown;
      kubeFilterInput := text;
      RecomputeKubeView();
      kubeSelected, kubeScrollOffset := Clamped(kubeSelected, |kubeViewCache|), 0;
    }

    /** Replaces the active tab's filter and refreshes what depends on it. */
    method ChangeFilter(text: string, at: Option<real>)
      requires Valid()
      modifies `filterInput, `containersFilterInput, `kubeFilterInput
      modifies `visibleProcesses, `visibleTree, `selected, `scrollOffset, `inForce, `lastFilterChange
      modifies `containersCache, `containersSelected, `containersScrollOffset
      modifies `kubeViewCache, `kubeSelected, `kubeScrollOffset
      ensures Valid()
      ensures if ProcessTab() then filterInput == text && scrollOffset == 0
              else filterInput == old(filterInput) && scrollOffset == old(scrollOffset) && inForce == old(inForce)
                   && lastFilterChange == old(lastFilterChange)
      ensures selected == Clamped(old(selected), ProcessCount())
      ensures if tab == Tab.Containers then
                && containersFilterInput == text && containersScrollOffset == 0
                && containersSelected == Clamped(old(containersSelected), ContainersCount(Containers(), text, lower))
              else containersFilterInput == old(containersFilterInput) && containersSelected == old(containersSelected)
                   && containersScrollOffset == old(containersScrollOffset)
      ensures if tab == Tab.Kube then
                kubeFilterInput == text && kubeScrollOffset == 0 && kubeSelected == Clamped(old(kubeSelected), |kubeViewCache|)
              else kubeFilterInput == old(kubeFilterInput) && kubeSelected == old(kubeSelected)
                   && kubeScrollOffset == old(kubeScrollOffset)
      ensures ProcessTab() && at == None ==> inForce == filterInput && lastFilterChange == None
      ensures ProcessTab() && at.Some? ==>
                && lastFilterChange == at
                && inForce == if old(lastFilterChange).None? || at.value - old(lastFilterChange).value >= 0.05
                              then text else old(inForce)
      ensures SetupNow() == WithFilter(old(SetupNow()), tab, text)
    {
      hide ProcessesShown, CursorInTable, ContainersShown, KubeShown, FollowsApplied;
      hide Clamped, ProcessCount, ContainersCount;
      CursorRests();
      match tab
      case Network =>
      case Gpu =>
      case Containers =>
        ChangeContainersFilter(text);
      case Kube =>
        ChangeKubeFilter(text);
      case _ =>
        if at == None {
          FilterNow(text);
        } else {
          FilterTyped(text, at.value);
        }
    }

    // ---------------------------------------------------------------- sorting

    method SetProcessSort(field: SortField, order: SortOrder)
      requires Valid()
      modifies `sortField, `sortOrder, `visibleProcesses, `visibleTree, `selected, `scrollOffset, `inForce
      ensures Valid() && sortField == field && sortOrder == order && inForce == filterInput
      ensures selected == Clamped(old(selected), ProcessCount())
      ensures scrollOffset == Clamped(old(scrollOffset), ProcessCount())
      ensures SetupNow() == old(SetupNow()).(sortField := field, sortOrder := order)
    {
      hide ContainersShown, KubeShown, FollowsApplied, IsTable, VisibleTree;
      sortField, sortOrder := field, order;
      RecomputeVisible();
    }

    method SetContainerSort(field: ContainerSortField, order: SortOrder)
      requires Valid()
      modifies `containersSortField, `containersSortOrder, `containersCache
      ensures Valid() && containersSortField == field && containersSortOrder == order
      ensures SetupNow() == old(SetupNow()).(containersSortField := field, containersSortOrder := order)
    {
      hide ProcessesShown, CursorInTable, ContainersShown, KubeShown, FollowsApplied;
      containersSortField, containersSortOrder := field, order;
      RecomputeContainersView();
    }

    predicate IsSortEvent(e: Event) {
      e.CycleSort? || e.ReverseSort? || e.SortProcesses? || e.SortContainers?
    }

    /** Column and direction of the active table, or of the one the command names. */
    method HandleSortEvent(e: Event)
      requires Valid() && IsSortEvent(e)
      modifies `sortField, `visibleProcesses, `visibleTree, `selected, `scrollOffset, `inForce
      modifies `sortOrder, `containersSortField, `containersSortOrder, `containersCache
      modifies `kubeSortField, `kubeSortOrder, `kubeSelected, `kubeScrollOffset, `kubeViewCache
      ensures Valid()
      ensures SetupNow() == Reset(old(SetupNow()), old(tab), e)
      ensures selected == Clamped(old(selected), ProcessCount())
      ensures scrollOffset == Clamped(old(scrollOffset), ProcessCount())
      ensures if e.CycleSort? && tab == Tab.Kube then kubeSelected == kubeScrollOffset == 0
              else kubeSelected == old(kubeSelected) && kubeScrollOffset == old(kubeScrollOffset)
    {
      hide ProcessesShown, CursorInTable, ContainersShown, KubeShown, FollowsApplied, SetupNow, Reset;
      SetupFields();
      if e.SortProcesses? || e.SortContainers? {
        ModeEventsSet(SetupNow(), tab, e);
      }
      CursorRests();
      match e
      case CycleSort => CycleSort();
      case ReverseSort => ReverseSort();
      case SortProcesses(field) => SetProcessSort(field, sortOrder);
      case SortContainers(column) => SetContainerSort(column, containersSortOrder);
      case _ =>
    }

    method CycleKubeSort()
      requires Valid()
      modifies `kubeSortField, `kubeSelected, `kubeScrollOffset, `kubeViewCache
      ensures Valid() && kubeSelected == kubeScrollOffset == 0
      ensures SetupNow() == old(SetupNow()).(kubeSortField := NextKubeSortField(old(kubeSortField), kubeSubview))
    {
      hide ProcessesShown, CursorInTable, ContainersShown, KubeShown, FollowsApplied, NextKubeSortField;
      kubeSortField := NextKubeSortField(kubeSortField, kubeSubview);
      kubeSelected, kubeScrollOffset := 0, 0;
      RecomputeKubeView();
    }

    method CycleSort()
      requires Valid()
      modifies `sortField, `visibleProcesses, `visibleTree, `selected, `scrollOffset, `inForce
      modifies `sortOrder, `containersSortField, `containersSortOrder, `containersCache
      modifies `kubeSortField, `kubeSelected, `kubeScrollOffset, `kubeViewCache
      ensures Valid()
      ensures selected == Clamped(old(selected), ProcessCount())
      ensures scrollOffset == Clamped(old(scrollOffset), ProcessCount())
      ensures if tab == Tab.Kube then kubeSelected == kubeScrollOffset == 0
              else kubeSelected == old(kubeSelected) && kubeScrollOffset == old(kubeScrollOffset)
      ensures SetupNow() == Reset(old(SetupNow()), tab, Event.CycleSort)
    {
      hide ProcessesShown, CursorInTable, ContainersShown, KubeShown, FollowsApplied;
      hide Clamped, ProcessCount, NextSortField, NextContainerSortField, NextKubeSortField;
      CursorRests();
      match tab
      case Network =>
      case Gpu =>
      case Containers => SetContainerSort(NextContainerSortField(containersSortField), containersSortOrder);
      case Kube => CycleKubeSort();
      case _ => SetProcessSort(NextSortField(sortField), sortOrder);
    }

    method ReverseSort()
      requires Valid()
      modifies `sortField, `visibleProcesses, `visibleTree, `selected, `scrollOffset, `inForce
      modifies `sortOrder, `containersSortField, `containersSortOrder, `containersCache
      modifies `kubeSortOrder, `kubeViewCache
      ensures Valid()
      ensures selected == Clamped(old(selected), ProcessCount())
      ensures scrollOffset == Clamped(old(scrollOffset), ProcessCount())
      ensures SetupNow() == Reset(old(SetupNow()), tab, Event.ReverseSort)
    {
      hide ProcessesShown, CursorInTable, ContainersShown, KubeShown, FollowsApplied;
      hide Clamped, ProcessCount;
      CursorRests();
      match tab
      case Network =>
      case Gpu =>
      case Containers => SetContainerSort(containersSortField, Flip(containersSortOrder));
      case Kube =>
        kubeSortOrder := Flip(kubeSortOrder);
        RecomputeKubeView();
      case _ => SetProcessSort(sortField, Flip(sortOrder));
    }

    // ------------------------------------------------------------------- runs

    lemma FilterTextIsSet()
      ensures FilterText() == FilterOf(SetupNow(), tab)
    {
    }

    predicate IsFilterEvent(e: Event) {
      e.TypeFilter? || e.EraseFilter? || e.EnterFilter? || e.ClearFilter? || e.SetFilter?
    }

    lemma AppliesNothingElse(e: Event, paused: bool)
      ensures !IsArrival(e) ==> PausedAfter(paused, e) == paused && AcceptedOne(paused, e) == []
    {
    }

    method HandleFilterEvent(e: Event)
      requires Valid() && IsFilterEvent(e)
      modifies `filterInput, `containersFilterInput, `kubeFilterInput
      modifies `visibleProcesses, `visibleTree, `selected, `scrollOffset, `inForce, `lastFilterChange
      modifies `containersCache, `containersSelected, `containersScrollOffset
      modifies `kubeViewCache, `kubeSelected, `kubeScrollOffset
      ensures Valid()
      ensures SetupNow() == Reset(old(SetupNow()), old(tab), e)
      ensures selected == Clamped(old(selected), ProcessCount())
      ensures scrollOffset == if ProcessTab() && (!e.TypeFilter? || Utf8Len(old(filterInput)) < MAX_FILTER_LEN) then 0
                              else old(scrollOffset)
      ensures !e.TypeFilter? && !e.EraseFilter? && ProcessTab() ==> inForce == filterInput && lastFilterChange == None
      ensures tab != Tab.Containers ==>
                containersSelected == old(containersSelected) && containersScrollOffset == old(containersScrollOffset)
      ensures tab == Tab.Containers && (!e.TypeFilter? || Utf8Len(old(containersFilterInput)) < MAX_FILTER_LEN) ==>
                && containersScrollOffset == 0
                && containersSelected ==
                   Clamped(old(containersSelected), ContainersCount(Containers(), containersFilterInput, lower))
      ensures tab != Tab.Kube ==> kubeSelected == old(kubeSelected) && kubeScrollOffset == old(kubeScrollOffset)
      ensures tab == Tab.Kube && (!e.TypeFilter? || Utf8Len(old(kubeFilterInput)) < MAX_FILTER_LEN) ==>
                kubeScrollOffset == 0 && kubeSelected == Clamped(old(kubeSelected), |kubeViewCache|)
    {
      hide ProcessesShown, CursorInTable, ContainersShown, KubeShown, FollowsApplied, ContainersCount, Utf8Len;
      hide SetupNow, Reset, WithFilter, FilterOf, Clamped;
      FilterEventsEdit(SetupNow(), tab, e);
      FilterTextIsSet();
      CursorRests();
      var text := FilterText();
      match e
      case TypeFilter(c, at) =>
        if Utf8Len(text) < MAX_FILTER_LEN {
          ChangeFilter(text + [c], Some(at));
        }
      case EraseFilter(at) => ChangeFilter(if text == "" then "" else text[..|text| - 1], Some(at));
      case EnterFilter => ChangeFilter(text, None);
      case ClearFilter => ChangeFilter("", None);
      case SetFilter(t) => ChangeFilter(t, None);
      case _ =>
    }

    /** Tab and pause as the input routing left them. */
    method FollowRouting(to: Tab, paused: bool)
      requires Valid()
      modifies `tab, `paused
      ensures Valid() && tab == to && this.paused == paused
    {
      hide ProcessesShown, CursorInTable, ContainersShown, KubeShown, FollowsApplied;
      tab, this.paused := to, paused;
    }

    lemma LastIsApplied()
      requires Valid()
      ensures lastSnapshot == if applied == [] then None else Some(applied[|applied| - 1].snapshot)
    {
    }

    predicate IsCursorEvent(e: Event) {
      e.Move? || e.Select? || e.Wheel?
    }

    /** Cursor and window of the active tab. */
    method HandleCursorEvent(e: Event, others: nat)
      requires Valid() && IsCursorEvent(e)
      modifies `selected, `containersSelected, `kubeSelected
      modifies `scrollOffset, `containersScrollOffset, `kubeScrollOffset
      ensures Valid()
      ensures SetupNow() == Reset(old(SetupNow()), old(tab), e)
      ensures var count := ProcessCount();
              && scrollOffset == Clamped(
                   if e.Wheel? && ProcessTab() then old(scrollOffset) + e.rows else old(scrollOffset), count)
              && selected == Clamped(
                   if !ProcessTab() then old(selected)
                   else if e.Move? then old(selected) + e.delta
                   else if e.Select? then e.index else Max(old(selected), scrollOffset), count)
      ensures var count := ContainersCount(Containers(), containersFilterInput, lower);
              if tab != Tab.Containers || count == 0 then
                containersSelected == old(containersSelected) && containersScrollOffset == old(containersScrollOffset)
              else
                && containersScrollOffset ==
                   (if e.Wheel? then Clamped(old(containersScrollOffset) + e.rows, count) else old(containersScrollOffset))
                && containersSelected == Clamped(
                     if e.Move? then old(containersSelected) + e.delta
                     else if e.Select? then e.index else Max(old(containersSelected), containersScrollOffset), count)
      ensures var count := |kubeViewCache|;
              if tab != Tab.Kube || count == 0 then
                kubeSelected == old(kubeSelected) && kubeScrollOffset == old(kubeScrollOffset)
              else
                && kubeScrollOffset ==
                   (if e.Wheel? then Clamped(old(kubeScrollOffset) + e.rows, count) else old(kubeScrollOffset))
                && kubeSelected == Clamped(
                     if e.Move? then old(kubeSelected) + e.delta
                     else if e.Select? then e.index else Max(old(kubeSelected), kubeScrollOffset), count)
    {
      hide ProcessesShown, CursorInTable, ContainersShown, KubeShown, FollowsApplied, MatchingContainers, SetupNow, Reset;
      hide Max;
      ModeEventsSet(SetupNow(), tab, e);
      CursorRests();
      match e
      case Move(delta) => MoveSelection(delta, others);
      case Select(index) => SelectIndex(index, others);
      case Wheel(rows) => ScrollRows(rows, others);
      case _ =>
    }

    predicate IsArrival(e: Event) {
      e.Snap? || e.TogglePause? || e.Refresh?
    }

    /** Snapshots and pausing leave every setting alone. */
    method HandleArrival(e: Event)
      requires Valid() && IsArrival(e)
      modifies `paused, `lastSnapshot, `applied, containerHistory, networkHistory
      modifies `visibleProcesses, `visibleTree, `selected, `scrollOffset, `inForce, `containersCache, `kubeViewCache
      ensures Valid()
      ensures paused == PausedAfter(old(paused), e)
      ensures applied == old(applied) + AcceptedOne(old(paused), e)
      ensures lastSnapshot == if e.Snap? && !old(paused) then Some(e.arrival.snapshot) else old(lastSnapshot)
      ensures SetupNow() == Reset(old(SetupNow()), tab, e)
      ensures selected == Clamped(old(selected), ProcessCount())
      ensures e.Snap? && !paused ==> inForce == filterInput
    {
      hide ProcessesShown, CursorInTable, ContainersShown, KubeShown, FollowsApplied, SetupNow, Reset, ProcessCount, Clamped;
      assert applied + [] == applied;
      CursorRests();
      ModeEventsSet(SetupNow(), tab, e);
      match e
      case Snap(arrival) => ApplySnapshot(arrival);
      case TogglePause => paused := !paused;
      case Refresh => paused := false;
      case _ =>
    }

    predicate IsLayoutEvent(e: Event) {
      e.GoToTab? || e.SwitchSubview? || e.ToggleTree?
    }

    method HandleLayoutEvent(e: Event)
      requires Valid() && IsLayoutEvent(e)
      modifies `tab, `treeMode, `visibleProcesses, `visibleTree, `selected, `scrollOffset, `inForce
      modifies `kubeSubview, `kubeSortField, `kubeSortOrder, `kubeFilterInput
      modifies `kubeSelected, `kubeScrollOffset, `kubeViewCache
      ensures Valid()
      ensures tab == if e.GoToTab? then e.to else old(tab)
      ensures SetupNow() == Reset(old(SetupNow()), old(tab), e)
      ensures selected == Clamped(if e.ToggleTree? then 0 else old(selected), ProcessCount())
    {
      hide ProcessesShown, CursorInTable, ContainersShown, KubeShown, FollowsApplied, SetupNow, Reset, ProcessCount;
      CursorRests();
      SetupFields();
      ModeEventsSet(SetupNow(), tab, e);
      match e
      case GoToTab(to) => GoToTab(to);
      case SwitchSubview(sv) => SwitchKubeSubview(sv);
      case ToggleTree => SetTreeMode(!treeMode);
      case _ =>
    }

    /** Every key and command sets what it is about and moves the cursors as it says. */
    method HandleInput(e: Event, others: nat)
      requires Valid() && !IsArrival(e)
      modifies `tab, `visibleProcesses, `visibleTree, `selected, `scrollOffset, `inForce, `lastFilterChange
      modifies `treeMode, `filterInput, `sortField, `sortOrder
      modifies `containersFilterInput, `containersSortField, `containersSortOrder
      modifies `containersSelected, `containersScrollOffset, `containersCache
      modifies `kubeSubview, `kubeSortField, `kubeSortOrder, `kubeFilterInput
      modifies `kubeSelected, `kubeScrollOffset, `kubeViewCache
      ensures Valid()
      ensures tab == if e.GoToTab? then e.to else old(tab)
      ensures SetupNow() == Reset(old(SetupNow()), old(tab), e)
      ensures selected == Clamped(
                if e.ToggleTree? then 0
                else if tab != General && tab != Processes then old(selected)
                else if e.Move? then old(selected) + e.delta
                else if e.Select? then e.index
                else if e.Wheel? then Max(old(selected), scrollOffset) else old(selected), ProcessCount())
      ensures e.Wheel? && (tab == General || tab == Processes) ==>
                scrollOffset == Clamped(old(scrollOffset) + e.rows, ProcessCount())
      ensures (e.EnterFilter? || e.ClearFilter? || e.SetFilter?) && ProcessTab() ==> inForce == filterInput
      ensures var count := ContainersCount(Containers(), containersFilterInput, lower);
              e.Move? && tab == Tab.Containers && count > 0 ==>
                containersSelected == Clamped(old(containersSelected) + e.delta, count)
      ensures e.Move? && tab == Tab.Kube && kubeViewCache != [] ==>
                kubeSelected == Clamped(old(kubeSelected) + e.delta, |kubeViewCache|)
    {
      hide Valid, ProcessesShown, CursorInTable, ContainersShown, KubeShown, FollowsApplied, ContainersCount;
      hide Clamped, Max, SetupNow, Reset, ProcessCount, Containers;
      if IsFilterEvent(e) {
        HandleFilterEvent(e);
      } else if IsSortEvent(e) {
        HandleSortEvent(e);
      } else if IsCursorEvent(e) {
        HandleCursorEvent(e, others);
      } else {
        HandleLayoutEvent(e);
      }
    }

    /** Every event sets what it is about, moves the cursors as it says, and leaves all views consistent. */
    method Handle(e: Event, others: nat)
      requires Valid()
      modifies this, containerHistory, networkHistory
      ensures Valid()
      ensures paused == PausedAfter(old(paused), e)
      ensures applied == old(applied) + AcceptedOne(old(paused), e)
      ensures tab == if e.GoToTab? then e.to else old(tab)
      ensures lastSnapshot == if e.Snap? && !old(paused) then Some(e.arrival.snapshot) else old(lastSnapshot)
      ensures SetupNow() == Reset(old(SetupNow()), old(tab), e)
      ensures selected == Clamped(
                if e.ToggleTree? then 0
                else if tab != General && tab != Processes then old(selected)
                else if e.Move? then old(selected) + e.delta
                else if e.Select? then e.index
                else if e.Wheel? then Max(old(selected), scrollOffset) else old(selected), ProcessCount())
      ensures e.Wheel? && (tab == General || tab == Processes) ==>
                scrollOffset == Clamped(old(scrollOffset) + e.rows, ProcessCount())
      ensures (e.EnterFilter? || e.ClearFilter? || e.SetFilter?) && ProcessTab() ==> inForce == filterInput
      ensures e.Snap? && !paused ==> inForce == filterInput
      ensures var count := ContainersCount(Containers(), containersFilterInput, lower);
              e.Move? && tab == Tab.Containers && count > 0 ==>
                containersSelected == Clamped(old(containersSelected) + e.delta, count)
      ensures e.Move? && tab == Tab.Kube && kubeViewCache != [] ==>
                kubeSelected == Clamped(old(kubeSelected) + e.delta, |kubeViewCache|)
    {
      hide Valid, ProcessesShown, CursorInTable, ContainersShown, KubeShown, FollowsApplied, ContainersCount;
      hide Clamped, PausedAfter, AcceptedOne, Max, SetupNow, Reset, ProcessCount, Containers;
      assert applied + [] == applied;
      AppliesNothingElse(e, paused);
      if IsArrival(e) {
        HandleArrival(e);
      } else {
        HandleInput(e, others);
      }
    }

    /** Over every run: all views stay consistent, and the snapshots applied are exactly those let through. */
    method RunAll(events: seq<Event>, others: seq<nat>)
      requires Valid() && |others| == |events|
      modifies this, containerHistory, networkHistory
      ensures Valid()
      ensures applied == old(applied) + Accepted(old(paused), events)
    {
      hide ProcessesShown, CursorInTable, ContainersShown, KubeShown, FollowsApplied, AcceptedOne, PausedAfter;
      assert events[0..] == events;
      var i := 0;
      while i < |events|
        invariant 0 <= i <= |events| && Valid()
        invariant applied + Accepted(paused, events[i..]) == old(applied) + Accepted(old(paused), events)
      {
        assert events[i..][1..] == events[i + 1..];
        Handle(events[i], others[i]);
        i := i + 1;
      }
      assert applied + [] == applied;
    }
  }
}
