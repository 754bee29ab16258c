/**
  Input routing of the TUI and the confirm dialog: which key may lead to an action on
  a process, a container or the cluster scope.

  The keymap, the action menus, the fuzzy matcher and the views are parameters. `raised`
  records every confirm dialog, what it was aimed at and what became of it; `executed`
  lists the actions carried out.
*/
module Modality {
  import opened Basics
  import opened Tabs
  import opened Palette
  import P = Process
  import C = Containers
  import S = Sorting

  datatype KeyCode =
    | Char(c: char) | Esc | Enter | Backspace | Up | Down | PageUp | PageDown | Home | OtherKey(n: nat)

  datatype Key = Key(code: KeyCode, ctrl: bool)

  datatype Signal = Term | KillSignal

  /** `View` stands for the actions that only move cursors, sort or copy. */
  datatype Action =
    | Leave | Help | OpenPalette | CommandMode | ToggleLog | Pause | Refresh
    | GoTo(tab: Tab) | Subview(of: Tab) | OpenInspector | ActionsMenu | EditFilter | Back
    | Renice(delta: int) | Kill(signal: Signal)
    | ContainerStop | ContainerKill | ContainerRestart | ToggleKubeScope
    | View(n: nat)

  datatype Overlay = NoOverlay | PaletteOverlay | CommandLine | HelpScreen | Actions | Inspector | Log

  datatype ConfirmAction =
    | KillProc(pid: nat, name: string, signal: Signal)
    | ReniceProc(pid: nat, name: string, delta: int)
    | StopCont(id: string, name: string)
    | KillCont(id: string, name: string)
    | RestartCont(id: string, name: string)

  datatype ContainerVerb = Stop | KillNow | Restart

  /** The dialog carries the full identifier, not the short one shown. */
  function ActOn(verb: ContainerVerb, c: C.Container): ConfirmAction {
    match verb
    case Stop => StopCont(c.idFull, c.name)
    case KillNow => KillCont(c.idFull, c.name)
    case Restart => RestartCont(c.idFull, c.name)
  }

  predicate IsLocalOnly(a: Action) {
    a.Renice? || a.Kill? || a.ContainerStop? || a.ContainerKill? || a.ContainerRestart? || a.ToggleKubeScope?
  }

  /** What the views show when an event arrives. */
  datatype Scene = Scene(
    process: Option<P.ProcessInfo>,
    container: Option<C.Container>,
    processes: seq<P.ProcessInfo>,
    containers: seq<C.Container>,
    itemCount: nat,
    toasts: bool)

  // ------------------------------------------------------------- the targets

  predicate IsNamed(p: P.ProcessInfo, needle: string, lower: Lower) {
    P.Contains(lower(p.name), lower(needle)) || P.Contains(lower(p.command), lower(needle))
  }

  function NamedProcess(processes: seq<P.ProcessInfo>, needle: string, lower: Lower): Option<P.ProcessInfo> {
    FindFirst(processes, (p: P.ProcessInfo) => IsNamed(p, needle, lower))
  }

  predicate IsContainerNamed(c: C.Container, needle: string, lower: Lower) {
    P.Contains(lower(c.name), lower(needle)) || P.Contains(lower(c.image), lower(needle))
    || lower(needle) <= lower(c.id)
  }

  function NamedContainer(s: Scene, needle: string, lower: Lower): Option<C.Container> {
    FindFirst(s.containers, (c: C.Container) => IsContainerNamed(c, needle, lower))
  }

  /** `kill <name>` is described as taking the busiest match. */
  ghost predicate TakesTheBusiest(table: seq<P.ProcessInfo>, needle: string, lower: Lower) {
    var target := NamedProcess(table, needle, lower);
    target.Some? ==> forall k :: 0 <= k < |table| && IsNamed(table[k], needle, lower) ==>
                                   table[k].cpuPercent <= target.value.cpuPercent
  }

  /** It takes the first match shown, which is the busiest of every table exactly under the CPU sort, descending. */
  lemma TakesTheBusiestIff(field: P.SortField, order: P.SortOrder, lower: Lower)
    requires P.ExtendsAscii(lower)
    ensures (forall table, procs, needle :: P.IsSortOf(table, procs, field, order, lower) ==>
                                              TakesTheBusiest(table, needle, lower)) <==>
            (field == P.Cpu && order == P.Desc)
  {
    hide S.TiesKept;
    if field == P.Cpu && order == P.Desc {
      forall table, procs, needle | P.IsSortOf(table, procs, field, order, lower)
        ensures TakesTheBusiest(table, needle, lower)
      {
        FirstIsBusiest(table, needle, lower);
      }
    } else {
      var procs := TwoProcesses(order);
      P.SortedIsSort(procs, field, order, lower);
      IdlerIsTaken(field, order, lower);
    }
  }

  lemma FirstIsBusiest(table: seq<P.ProcessInfo>, needle: string, lower: Lower)
    requires P.InOrder(table, P.Cpu, P.Desc, lower)
    ensures TakesTheBusiest(table, needle, lower)
  {
    hide IsNamed;
    assert forall i, j :: 0 <= i < j < |table| ==> table[j].cpuPercent <= table[i].cpuPercent;
  }

  lemma IdlerIsTaken(field: P.SortField, order: P.SortOrder, lower: Lower)
    requires P.ExtendsAscii(lower) && !(field == P.Cpu && order == P.Desc)
    ensures !TakesTheBusiest(P.Sorted(TwoProcesses(order), field, order, lower), "", lower)
  {
    hide P.Sorted, IsNamed, P.ExtendsAscii;
    var table := P.Sorted(TwoProcesses(order), field, order, lower);
    TwoProcessesSorted(field, order, lower);
    EmptyNameMatches(table[0], lower);
    EmptyNameMatches(table[1], lower);
    assert NamedProcess(table, "", lower) == Some(table[0]);
  }

  lemma EmptyNameMatches(p: P.ProcessInfo, lower: Lower)
    requires P.ExtendsAscii(lower)
    ensures IsNamed(p, "", lower)
  {
    assert P.IsAscii("") && lower("") == P.AsciiLower("") == "";
    assert P.OccursAt(lower(p.name), "", 0);
  }

  lemma TwoProcessesSorted(field: P.SortField, order: P.SortOrder, lower: Lower)
    requires P.ExtendsAscii(lower) && !(field == P.Cpu && order == P.Desc)
    ensures var procs := TwoProcesses(order);
            P.Sorted(procs, field, order, lower) == if order == P.Desc then [procs[1], procs[0]] else procs
  {
    hide P.KeyLeq, P.ExtendsAscii, P.Sorted;
    var procs := TwoProcesses(order);
    KeysRise(field, order, lower);
    SortedPair(procs[0], procs[1], field, order, lower);
    assert procs == [procs[0], procs[1]];
  }

  lemma SortedPair(a: P.ProcessInfo, b: P.ProcessInfo, field: P.SortField, order: P.SortOrder, lower: Lower)
    requires P.KeyLeq(field, lower, a, b)
    ensures P.Sorted([a, b], field, order, lower) == if order == P.Desc then [b, a] else [a, b]
  {
    hide P.KeyLeq, S.StableSort;
    S.SortedPairStays(a, b, P.ByKey(field, lower));
    assert S.Reverse([a, b]) == [b, a];
  }

  lemma KeysRise(field: P.SortField, order: P.SortOrder, lower: Lower)
    requires P.ExtendsAscii(lower) && !(field == P.Cpu && order == P.Desc)
    ensures P.KeyLeq(field, lower, TwoProcesses(order)[0], TwoProcesses(order)[1])
  {
    assert P.IsAscii("a") && lower("a") == P.AsciiLower("a") == "a";
    assert P.IsAscii("b") && lower("b") == P.AsciiLower("b") == "b";
    assert P.StringLeq("a", "b");
  }

  /** Two processes ordered alike by every key but CPU, the idle one first in the given direction. */
  function TwoProcesses(order: P.SortOrder): seq<P.ProcessInfo> {
    var (low, high) := if order == P.Desc then (1.0, 0.0) else (0.0, 1.0);
    [P.ProcessInfo(1, None, "a", "a", "a", low, 1, 1.0, ""), P.ProcessInfo(2, None, "b", "b", "b", high, 2, 2.0, "")]
  }

  /** A dialog is asked for on the selected row, or on the first row that a name matches. */
  datatype Origin = SelectedRow | Named(needle: string)

  predicate AimedAt(a: ConfirmAction, origin: Origin, s: Scene, lower: Lower) {
    match a
    case KillProc(pid, name, _) =>
      var target := if origin.Named? then NamedProcess(s.processes, origin.needle, lower) else s.process;
      target.Some? && pid == target.value.pid && name == target.value.name
    case ReniceProc(pid, name, _) =>
      origin == SelectedRow && s.process.Some? && pid == s.process.value.pid && name == s.process.value.name
    case _ =>
      var target := if origin.Named? then NamedContainer(s, origin.needle, lower) else s.container;
      target.Some? && a.id == target.value.idFull && a.name == target.value.name
  }

  datatype Outcome = Standing | Executed | Cancelled | Unavailable

  datatype Dialog = Dialog(action: ConfirmAction, origin: Origin, scene: Scene, outcome: Outcome)

  predicate NeedsEngine(a: ConfirmAction) {
    a.StopCont? || a.KillCont? || a.RestartCont?
  }

  /** The actions of the dialogs answered with yes and carried out, in order. */
  function Carried(dialogs: seq<Dialog>): seq<ConfirmAction> {
    if dialogs == [] then []
    else
      var last := dialogs[|dialogs| - 1];
      Carried(dialogs[..|dialogs| - 1]) + if last.outcome == Executed then [last.action] else []
  }

  function Answered(dialogs: seq<Dialog>, outcome: Outcome): seq<Dialog>
    requires dialogs != []
  {
    dialogs[|dialogs| - 1 := dialogs[|dialogs| - 1].(outcome := outcome)]
  }

  lemma CarriedOnAnswer(dialogs: seq<Dialog>, outcome: Outcome)
    requires dialogs != [] && dialogs[|dialogs| - 1].outcome == Standing
    ensures Carried(Answered(dialogs, outcome)) ==
            Carried(dialogs) + if outcome == Executed then [dialogs[|dialogs| - 1].action] else []
  {
    var n := |dialogs| - 1;
    var answered := Answered(dialogs, outcome);
    assert answered[..n] == dialogs[..n];
    assert Carried(dialogs) == Carried(dialogs[..n]) + [];
  }

  lemma CarriedOnRaise(dialogs: seq<Dialog>, d: Dialog)
    requires d.outcome == Standing
    ensures Carried(dialogs + [d]) == Carried(dialogs)
  {
    assert (dialogs + [d])[..|dialogs|] == dialogs;
  }

  /** Every execution answers a dialog of its own, raised before it, with that dialog's action. */
  lemma {:induction false} EachExecutionHasItsDialog(dialogs: seq<Dialog>, k: nat)
    requires k < |Carried(dialogs)|
    ensures exists j :: 0 <= j < |dialogs| && dialogs[j].outcome == Executed
                        && dialogs[j].action == Carried(dialogs)[k] && |Carried(dialogs[..j])| == k
  {
    var n := |dialogs| - 1;
    var front := Carried(dialogs[..n]);
    if k < |front| {
      EachExecutionHasItsDialog(dialogs[..n], k);
      var j :| 0 <= j < n && dialogs[..n][j].outcome == Executed
               && dialogs[..n][j].action == front[k] && |Carried(dialogs[..n][..j])| == k;
      assert dialogs[..n][..j] == dialogs[..j];
      assert dialogs[j].outcome == Executed;
    } else {
      assert dialogs[n].outcome == Executed && dialogs[n].action == Carried(dialogs)[k];
    }
  }

  function OnProcess(s: Scene, build: P.ProcessInfo -> ConfirmAction): seq<Dialog> {
    match s.process
    case Some(p) => [Dialog(build(p), SelectedRow, s, Standing)]
    case None => []
  }

  function OnContainer(s: Scene, verb: ContainerVerb): seq<Dialog> {
    match s.container
    case Some(c) => [Dialog(ActOn(verb, c), SelectedRow, s, Standing)]
    case None => []
  }

  predicate IsCtrlC(key: Key) {
    key.ctrl && key.code == Char('c')
  }

  predicate IsYes(key: Key) {
    key.code == Char('y') || key.code == Char('Y') || key.code == Enter
  }

  predicate IsNo(key: Key) {
    key.code == Char('n') || key.code == Char('N') || key.code == Esc
  }

  function FilterOwner(tab: Tab): Tab {
    if tab == General then Processes else tab
  }

  datatype Input = Press(key: Key, scene: Scene) | WheelDown | WheelUp | OtherMouse

  // ----------------------------------------------------- what keys do to the mode

  /** The modal state, dialogs and palette text apart. */
  datatype Mode = Mode(
    running: bool, tab: Tab, overlay: Overlay, overlayScroll: nat, paused: bool, actionsSelected: nat, editing: set<Tab>)

  function Opened(m: Mode, o: Overlay): Mode {
    m.(overlay := o, overlayScroll := 0)
  }

  /** Changing tab ends a filter being typed anywhere but on the GPU tab. */
  function Switched(m: Mode, to: Tab): Mode {
    if m.tab == to then m else m.(tab := to, editing := m.editing - {Processes, Network, Containers, Kube})
  }

  /** `menu` says whether the tab has any action to offer. */
  function Acted(a: Action, m: Mode, s: Scene, menu: bool): Mode {
    match a
    case Leave => m.(running := false)
    case Help => Opened(m, HelpScreen)
    case OpenPalette => m.(overlay := PaletteOverlay)
    case CommandMode => m.(overlay := CommandLine)
    case ToggleLog => Opened(m, Log)
    case Pause => m.(paused := !m.paused)
    case Refresh => m.(paused := false)
    case GoTo(t) => Switched(m, t)
    case Subview(t) => m.(editing := m.editing - {t})
    case OpenInspector => if s.itemCount > 0 then Opened(m, Inspector) else m
    case ActionsMenu => if menu then Opened(m, Actions).(actionsSelected := 0) else m
    case EditFilter => m.(editing := m.editing + {FilterOwner(m.tab)})
    case Back =>
      if m.overlay != NoOverlay then Opened(m, NoOverlay)
      else if s.toasts then m else m.(editing := m.editing - {FilterOwner(m.tab)})
    case _ => m
  }

  function NamedTab(name: string, lower: Lower, isSpace: char -> bool): Option<Tab> {
    var n := lower(Trim(name, isSpace));
    FindFirst(TABS, (t: Tab) => n <= lower(Label(t)))
  }

  function Commanded(
    cmd: Command, arg: Option<string>, m: Mode, s: Scene, remote: bool, lower: Lower, isSpace: char -> bool): Mode
  {
    match cmd
    case Quit => m.(running := false)
    case ToggleTreeView => Switched(m, Processes)
    case SwitchTo(t) => Switched(m, t)
    case SwitchToGpu => m.(tab := Gpu)
    case NextTab => Switched(m, Tabs.NextTab(m.tab))
    case PrevTab => Switched(m, Tabs.PrevTab(m.tab))
    case OpenFilter => m.(editing := m.editing + {FilterOwner(m.tab)})
    case ShowHelp => Opened(m, HelpScreen)
    case ShowLog => Opened(m, Log)
    case TogglePause => m.(paused := !m.paused)
    case RefreshNow => m.(paused := false)
    case InspectRow => if s.itemCount > 0 then Opened(m, Inspector) else m
    case KubeView(_) => Switched(m, Kube).(editing := Switched(m, Kube).editing - {Kube})
    case KubeToggleScope => if remote then m else Switched(m, Kube)
    case GoToTab =>
      if arg.None? then m
      else (match NamedTab(arg.value, lower, isSpace) case Some(t) => Switched(m, t) case None => m)
    case _ => m
  }

  /** Keys of the read-only overlays. */
  function OverlayKeyed(key: Key, m: Mode): Mode {
    if key.code == Esc || key.code == Char('q') || (key.code == Char('?') && m.overlay == HelpScreen)
       || (key.code == Enter && m.overlay == Inspector) || (key.code == Char('l') && key.ctrl)
    then Opened(m, NoOverlay)
    else if key.code == Down || key.code == Char('j') then m.(overlayScroll := m.overlayScroll + 1)
    else if key.code == Up || key.code == Char('k') then m.(overlayScroll := Less(m.overlayScroll, 1))
    else if key.code == PageDown then m.(overlayScroll := m.overlayScroll + PAGE)
    else if key.code == PageUp then m.(overlayScroll := Less(m.overlayScroll, PAGE))
    else if key.code == Home || key.code == Char('g') then m.(overlayScroll := 0)
    else m
  }

  function Less(a: nat, b: nat): nat {
    if a < b then 0 else a - b
  }

  /** Keys of the actions menu that run nothing. */
  function MenuKeyed(key: Key, m: Mode, entries: nat): Mode {
    if key.code == Esc || key.code == Char('x') then Opened(m, NoOverlay)
    else if key.code == Down || key.code == Char('j') then m.(actionsSelected := Clamped(m.actionsSelected + 1, entries))
    else if key.code == Up || key.code == Char('k') then m.(actionsSelected := Less(m.actionsSelected, 1))
    else m
  }

  /** Keys of the palette that run nothing. */
  function PaletteKeyed(key: Key, m: Mode): Mode {
    if key.code == Esc || (key.ctrl && (key.code == Char('p') || key.code == Char('k'))) then Opened(m, NoOverlay) else m
  }

  /** What the actions that open and close do. */
  lemma OverlayActionsMean(m: Mode, s: Scene, menu: bool)
    ensures Acted(Help, m, s, menu) == m.(overlay := HelpScreen, overlayScroll := 0)
    ensures Acted(ToggleLog, m, s, menu) == m.(overlay := Log, overlayScroll := 0)
    ensures Acted(OpenPalette, m, s, menu).overlay == PaletteOverlay && Acted(CommandMode, m, s, menu).overlay == CommandLine
    ensures s.itemCount > 0 ==> Acted(Action.OpenInspector, m, s, menu).overlay == Inspector
    ensures s.itemCount == 0 ==> Acted(Action.OpenInspector, m, s, menu) == m
    ensures menu ==> Acted(ActionsMenu, m, s, menu).overlay == Actions && Acted(ActionsMenu, m, s, menu).actionsSelected == 0
    ensures !menu ==> Acted(ActionsMenu, m, s, menu) == m
    ensures Acted(Back, m, s, menu).overlay == NoOverlay && Acted(Back, m, s, menu).running == m.running
  {
    hide Switched;
  }

  /** What the keys of an open overlay do: leave it, or move by one row, by a page of 20, or to the top. */
  lemma OverlayKeysMean(m: Mode, ctrl: bool, entries: nat)
    ensures forall code :: code in {Esc, Char('q')} ==>
                             OverlayKeyed(Key(code, ctrl), m) == m.(overlay := NoOverlay, overlayScroll := 0)
    ensures forall code :: code in {Down, Char('j')} ==>
                             OverlayKeyed(Key(code, ctrl), m) == m.(overlayScroll := m.overlayScroll + 1)
    ensures forall code :: code in {Up, Char('k')} && m.overlayScroll > 0 ==>
                             OverlayKeyed(Key(code, ctrl), m) == m.(overlayScroll := m.overlayScroll - 1)
    ensures OverlayKeyed(Key(PageDown, ctrl), m) == m.(overlayScroll := m.overlayScroll + 20)
    ensures m.overlayScroll >= 20 ==> OverlayKeyed(Key(PageUp, ctrl), m) == m.(overlayScroll := m.overlayScroll - 20)
    ensures m.overlayScroll == 0 ==> OverlayKeyed(Key(PageUp, ctrl), m) == OverlayKeyed(Key(Up, ctrl), m) == m
    ensures OverlayKeyed(Key(Home, ctrl), m) == m.(overlayScroll := 0)
    ensures MenuKeyed(Key(Esc, ctrl), m, entries) == m.(overlay := NoOverlay, overlayScroll := 0)
    ensures PaletteKeyed(Key(Esc, ctrl), m) == m.(overlay := NoOverlay, overlayScroll := 0)
    ensures m.actionsSelected + 1 < entries ==>
              var down := MenuKeyed(Key(Down, ctrl), m, entries);
              down == m.(actionsSelected := m.actionsSelected + 1) && MenuKeyed(Key(Up, ctrl), down, entries) == m
  {
  }

  /** `tab <name>` finds a tab whose label begins with the name, if there is one. */
  lemma NamedTabsMean(name: string, lower: Lower, isSpace: char -> bool, t: Tab)
    ensures NamedTab(name, lower, isSpace) == Some(t) ==> lower(Trim(name, isSpace)) <= lower(Label(t))
    ensures lower(Trim(name, isSpace)) <= lower(Label(t)) ==> NamedTab(name, lower, isSpace).Some?
  {
    hide Label, Trim;
    assert TABS[TabIndex(t)] == t;
  }

  /** What the actions on tabs, pause and filter typing do. */
  lemma OtherActionsMean(m: Mode, s: Scene, menu: bool, t: Tab)
    ensures Acted(Leave, m, s, menu) == m.(running := false)
    ensures Acted(Pause, m, s, menu) == m.(paused := !m.paused) && Acted(Refresh, m, s, menu) == m.(paused := false)
    ensures Acted(GoTo(t), m, s, menu).tab == t
    ensures m.tab != t ==> Acted(GoTo(t), m, s, menu).editing == m.editing - {Processes, Network, Containers, Kube}
    ensures Acted(Subview(t), m, s, menu) == m.(editing := m.editing - {t})
    ensures FilterOwner(m.tab) in Acted(EditFilter, m, s, menu).editing
    ensures m.overlay == NoOverlay && !s.toasts ==> FilterOwner(m.tab) !in Acted(Back, m, s, menu).editing
  {
  }

  /** What the commands that change tab do. */
  lemma TabCommandsMean(
    cmd: Command, arg: Option<string>, m: Mode, s: Scene, remote: bool, lower: Lower, isSpace: char -> bool)
    ensures var r := Commanded(cmd, arg, m, s, remote, lower, isSpace);
            && (cmd.SwitchTo? ==> r.tab == cmd.tab)
            && (cmd == SwitchToGpu ==> r == m.(tab := Gpu))
            && (cmd == ToggleTreeView ==> r.tab == Processes)
            && (cmd.KubeView? ==> r.tab == Kube && Kube !in r.editing)
            && (cmd == KubeToggleScope ==> r.tab == if remote then m.tab else Kube)
  {
    hide NamedTab, Tabs.NextTab, Tabs.PrevTab;
  }

  /** What the other commands do beyond raising a dialog. */
  lemma ModeCommandsMean(
    cmd: Command, arg: Option<string>, m: Mode, s: Scene, remote: bool, lower: Lower, isSpace: char -> bool)
    ensures var r := Commanded(cmd, arg, m, s, remote, lower, isSpace);
            && (cmd == Quit ==> r == m.(running := false))
            && (cmd == OpenFilter ==> FilterOwner(m.tab) in r.editing)
            && (cmd == ShowHelp ==> r.overlay == HelpScreen)
            && (cmd == ShowLog ==> r.overlay == Log)
            && (cmd == TogglePause ==> r.paused == !m.paused)
            && (cmd == RefreshNow ==> !r.paused)
            && (cmd == InspectRow && s.itemCount > 0 ==> r.overlay == Inspector)
  {
    hide NamedTab, Switched, Tabs.NextTab, Tabs.PrevTab;
  }

  lemma BlockedCommandsStay(
    cmd: Command, arg: Option<string>, m: Mode, s: Scene, remote: bool, lower: Lower, isSpace: char -> bool)
    requires cmd in REMOTE_BLOCKED
    ensures Commanded(cmd, arg, m, s, remote, lower, isSpace) ==
            if cmd == KubeToggleScope && !remote then Switched(m, Kube) else m
  {
    hide NamedTab, Switched;
  }

  /** The tabs go round: previous undoes next, and next moves. */
  lemma TabsGoRound(arg: Option<string>, m: Mode, s: Scene, remote: bool, lower: Lower, isSpace: char -> bool)
    ensures var next := Commanded(NextTab, arg, m, s, remote, lower, isSpace);
            next.tab != m.tab && Commanded(PrevTab, arg, next, s, remote, lower, isSpace).tab == m.tab
  {
    hide NamedTab;
  }

  const PAGE: nat := 20
  const WHEEL_ROWS: nat := 3

  class App {
    const remote: bool
    const engine: bool
    const clusterEngine: bool
    const lower: Lower
    const isSpace: char -> bool
    const score: Scorer
    const keymap: (Key, Tab) -> Option<Action>
    const menu: Tab -> seq<Action>
    const palette: PaletteState

    var running: bool
    var tab: Tab
    var overlay: Overlay
    var overlayScroll: nat
    var confirm: Option<ConfirmAction>
    var paused: bool
    var actionsSelected: nat
    /** Tabs whose filter input has the keyboard; General and Processes share one. */
    var editing: set<Tab>
    var scopeToggles: nat

    ghost var raised: seq<Dialog>
    ghost var executed: seq<ConfirmAction>

    ghost function Now(): Mode
      reads `running, `tab, `overlay, `overlayScroll, `paused, `actionsSelected, `editing
    {
      Mode(running, tab, overlay, overlayScroll, paused, actionsSelected, editing)
    }

    function Excluded(): seq<Command> {
      if remote then REMOTE_BLOCKED else []
    }

    predicate TextOverlay()
      reads `overlay
    {
      overlay == PaletteOverlay || overlay == CommandLine
    }

    ghost predicate DialogsHold()
      reads `confirm, `raised, `executed
    {
      && executed == Carried(raised)
      && (forall k :: 0 <= k < |raised| ==> AimedAt(raised[k].action, raised[k].origin, raised[k].scene, lower))
      && (forall k :: 0 <= k < |raised| - 1 ==> raised[k].outcome != Standing)
      && confirm == (if raised != [] && raised[|raised| - 1].outcome == Standing
                     then Some(raised[|raised| - 1].action) else None)
    }

    /** A remote session never raises a dialog, executes an action or changes the cluster scope. */
    ghost predicate RemoteIsReadOnly()
      reads `raised, `executed, `scopeToggles
    {
      remote ==> raised == [] && executed == [] && scopeToggles == 0
    }

    /** While the palette is open it lists exactly the offers for its input. */
    ghost predicate PaletteHolds()
      reads `overlay, `tab, palette
    {
      palette.Valid() &&
      (TextOverlay() ==>
         Listing(palette.offers, palette.arg) ==
         List(palette.input, palette.history, Excluded(), tab, lower, isSpace, score))
    }

    ghost predicate Valid()
      reads this, palette
    {
      DialogsHold() && RemoteIsReadOnly() && PaletteHolds()
    }

    constructor (
      remote: bool, engine: bool, clusterEngine: bool, lower: Lower, isSpace: char -> bool, score: Scorer,
      keymap: (Key, Tab) -> Option<Action>, menu: Tab -> seq<Action>)
      ensures Valid() && running && raised == [] && executed == [] && overlay == NoOverlay
      ensures this.remote == remote && this.keymap == keymap && this.menu == menu && fresh(palette)
    {
      this.remote, this.engine, this.clusterEngine := remote, engine, clusterEngine;
      this.lower, this.isSpace, this.score, this.keymap, this.menu := lower, isSpace, score, keymap, menu;
      palette := new PaletteState();
      running, tab, overlay, overlayScroll, confirm, paused := true, General, NoOverlay, 0, None, false;
      actionsSelected, editing, scopeToggles, raised, executed := 0, {}, 0, [], [];
    }

    // ---------------------------------------------------------------- dialogs

    method Raise(a: ConfirmAction, ghost origin: Origin, ghost scene: Scene)
      requires DialogsHold() && confirm == None && AimedAt(a, origin, scene, lower)
      modifies `confirm, `raised
      ensures DialogsHold() && confirm == Some(a)
      ensures raised == old(raised) + [Dialog(a, origin, scene, Standing)]
    {
      hide AimedAt, Carried;
      CarriedOnRaise(raised, Dialog(a, origin, scene, Standing));
      confirm := Some(a);
      raised := raised + [Dialog(a, origin, scene, Standing)];
    }

    /** Yes carries out the standing action once, no drops it, any other key leaves it standing. */
    method HandleConfirmKey(key: Key)
      requires DialogsHold() && confirm.Some?
      modifies `confirm, `raised, `executed
      ensures DialogsHold()
      ensures var a := old(confirm).value; var possible := engine || !NeedsEngine(a);
              && executed == old(executed) + (if IsYes(key) && possible then [a] else [])
              && confirm == (if IsYes(key) || IsNo(key) then None else Some(a))
              && raised == AnsweredBy(old(raised), a, key)
    {
      var a := confirm.value;
      if IsYes(key) {
        confirm := None;
        Execute(a);
      } else if IsNo(key) {
        CarriedOnAnswer(raised, Cancelled);
        confirm := None;
        raised := Answered(raised, Cancelled);
      }
    }

    /** What a key makes of the standing dialog, the last one. */
    ghost function AnsweredBy(dialogs: seq<Dialog>, a: ConfirmAction, key: Key): seq<Dialog> {
      if dialogs == [] then []
      else if IsYes(key) then Answered(dialogs, if engine || !NeedsEngine(a) then Executed else Unavailable)
      else if IsNo(key) then Answered(dialogs, Cancelled)
      else dialogs
    }

    method Execute(a: ConfirmAction)
      requires raised != [] && raised[|raised| - 1].outcome == Standing && raised[|raised| - 1].action == a
      requires executed == Carried(raised)
      modifies `raised, `executed
      ensures var possible := engine || !NeedsEngine(a);
              && raised == Answered(old(raised), if possible then Executed else Unavailable)
              && executed == Carried(raised) == old(executed) + if possible then [a] else []
    {
      if NeedsEngine(a) && !engine {
        CarriedOnAnswer(raised, Unavailable);
        raised := Answered(raised, Unavailable);
        return;
      }
      CarriedOnAnswer(raised, Executed);
      raised := Answered(raised, Executed);
      executed := executed + [a];
    }

    method RequestKill(signal: Signal, s: Scene)
      requires DialogsHold() && confirm == None
      modifies `confirm, `raised
      ensures DialogsHold()
      ensures raised == old(raised) + if s.process.None? then []
                else [Dialog(KillProc(s.process.value.pid, s.process.value.name, signal), SelectedRow, s, Standing)]
    {
      match s.process
      case Some(p) => Raise(KillProc(p.pid, p.name, signal), SelectedRow, s);
      case None => assert raised + [] == raised;
    }

    method RequestRenice(delta: int, s: Scene)
      requires DialogsHold() && confirm == None
      modifies `confirm, `raised
      ensures DialogsHold()
      ensures raised == old(raised) + if s.process.None? then []
                else [Dialog(ReniceProc(s.process.value.pid, s.process.value.name, delta), SelectedRow, s, Standing)]
    {
      match s.process
      case Some(p) => Raise(ReniceProc(p.pid, p.name, delta), SelectedRow, s);
      case None => assert raised + [] == raised;
    }

    method RequestContainer(verb: ContainerVerb, s: Scene)
      requires DialogsHold() && confirm == None
      modifies `confirm, `raised
      ensures DialogsHold()
      ensures raised == old(raised) + if remote || s.container.None? then []
                else [Dialog(ActOn(verb, s.container.value), SelectedRow, s, Standing)]
    {
      assert raised + [] == raised;
      if remote {
        return;
      }
      match s.container
      case Some(c) => Raise(ActOn(verb, c), SelectedRow, s);
      case None =>
    }

    ghost function OnNamedProcess(name: string, s: Scene): seq<Dialog> {
      match NamedProcess(s.processes, name, lower)
      case Some(p) => [Dialog(KillProc(p.pid, p.name, Term), Named(name), s, Standing)]
      case None => []
    }

    ghost function OnNamedContainer(name: string, verb: ContainerVerb, s: Scene): seq<Dialog> {
      match NamedContainer(s, name, lower)
      case Some(c) => if remote then [] else [Dialog(ActOn(verb, c), Named(name), s, Standing)]
      case None => []
    }

    /** This one looks at no mode: only the palette's exclusions keep it local. */
    method KillByName(needle: string, s: Scene)
      requires DialogsHold() && confirm == None
      modifies `confirm, `raised
      ensures DialogsHold()
      ensures raised == old(raised) + OnNamedProcess(needle, s)
      ensures raised == old(raised) <==>
              (forall k :: 0 <= k < |s.processes| ==>
                             !P.Contains(lower(s.processes[k].name), lower(needle))
                             && !P.Contains(lower(s.processes[k].command), lower(needle)))
      ensures forall k :: 0 <= k < |s.processes| &&
                          (P.Contains(lower(s.processes[k].name), lower(needle))
                           || P.Contains(lower(s.processes[k].command), lower(needle))) &&
                          (forall j :: 0 <= j < k ==> !P.Contains(lower(s.processes[j].name), lower(needle))
                                                      && !P.Contains(lower(s.processes[j].command), lower(needle))) ==>
                            raised == old(raised) +
                              [Dialog(KillProc(s.processes[k].pid, s.processes[k].name, Term), Named(needle), s, Standing)]
    {
      hide DialogsHold, Carried;
      forall k | FirstAt(s.processes, (p: P.ProcessInfo) => IsNamed(p, needle, lower), k)
        ensures NamedProcess(s.processes, needle, lower) == Some(s.processes[k])
      {
        FirstIsFound(s.processes, (p: P.ProcessInfo) => IsNamed(p, needle, lower), k);
      }
      match NamedProcess(s.processes, needle, lower)
      case Some(p) => Raise(KillProc(p.pid, p.name, Term), Named(needle), s);
      case None => assert raised + [] == raised;
    }

    method ContainerByName(needle: string, verb: ContainerVerb, s: Scene)
      requires DialogsHold() && confirm == None
      modifies `confirm, `raised
      ensures DialogsHold()
      ensures raised == old(raised) + OnNamedContainer(needle, verb, s)
      ensures raised == old(raised) <==>
              (remote || forall k :: 0 <= k < |s.containers| ==>
                                       !P.Contains(lower(s.containers[k].name), lower(needle))
                                       && !P.Contains(lower(s.containers[k].image), lower(needle))
                                       && !(lower(needle) <= lower(s.containers[k].id)))
      ensures forall k :: !remote && 0 <= k < |s.containers| &&
                          (P.Contains(lower(s.containers[k].name), lower(needle))
                           || P.Contains(lower(s.containers[k].image), lower(needle))
                           || lower(needle) <= lower(s.containers[k].id)) &&
                          (forall j :: 0 <= j < k ==> !P.Contains(lower(s.containers[j].name), lower(needle))
                                                      && !P.Contains(lower(s.containers[j].image), lower(needle))
                                                      && !(lower(needle) <= lower(s.containers[j].id))) ==>
                            raised == old(raised) + [Dialog(ActOn(verb, s.containers[k]), Named(needle), s, Standing)]
    {
      hide DialogsHold, Carried;
      assert raised + [] == raised;
      if remote {
        return;
      }
      forall k | FirstAt(s.containers, (c: C.Container) => IsContainerNamed(c, needle, lower), k)
        ensures NamedContainer(s, needle, lower) == Some(s.containers[k])
      {
        FirstIsFound(s.containers, (c: C.Container) => IsContainerNamed(c, needle, lower), k);
      }
      match NamedContainer(s, needle, lower)
      case Some(c) => Raise(ActOn(verb, c), Named(needle), s);
      case None =>
    }

    method ToggleScope()
      modifies `scopeToggles
      ensures scopeToggles == old(scopeToggles) + if clusterEngine then 1 else 0
    {
      if clusterEngine {
        scopeToggles := scopeToggles + 1;
      }
    }

    // --------------------------------------------------------- tabs, overlays

    /** A filter being typed on the GPU tab survives leaving it; all others end. */
    method GoToTab(to: Tab)
      requires PaletteHolds() && !TextOverlay()
      modifies `tab, `editing
      ensures PaletteHolds() && Now() == Switched(old(Now()), to)
    {
      hide List;
      if tab == to {
        return;
      }
      tab := to;
      editing := editing - {Processes, Network, Containers, Kube};
    }

    method GoToNamedTab(name: string)
      requires PaletteHolds() && !TextOverlay()
      modifies `tab, `editing
      ensures PaletteHolds()
      ensures Now() == match NamedTab(name, lower, isSpace)
                       case Some(t) => Switched(old(Now()), t)
                       case None => old(Now())
    {
      hide PaletteHolds, NamedTab;
      match NamedTab(name, lower, isSpace)
      case Some(t) => GoToTab(t);
      case None =>
    }

    method OpenOverlay(o: Overlay)
      requires o != PaletteOverlay && o != CommandLine && PaletteHolds()
      modifies `overlay, `overlayScroll
      ensures PaletteHolds() && Now() == Opened(old(Now()), o)
    {
      overlay, overlayScroll := o, 0;
    }

    method OpenText(o: Overlay)
      requires o == PaletteOverlay || o == CommandLine
      requires PaletteHolds()
      modifies `overlay, palette`input, palette`selected, palette`offers, palette`arg
      ensures PaletteHolds() && palette.input == "" && Now() == old(Now()).(overlay := o)
    {
      hide List;
      overlay := o;
      palette.input, palette.selected := "", 0;
      palette.Refilter(Excluded(), tab, lower, isSpace, score);
    }

    method CloseOverlay()
      requires PaletteHolds()
      modifies `overlay, `overlayScroll, palette`input, palette`selected, palette`arg
      ensures PaletteHolds() && Now() == Opened(old(Now()), NoOverlay)
    {
      overlay, overlayScroll := NoOverlay, 0;
      palette.input, palette.selected, palette.arg := "", 0, None;
    }

    method GoBack(s: Scene)
      requires PaletteHolds()
      modifies `overlay, `overlayScroll, `editing, palette`input, palette`selected, palette`arg
      ensures PaletteHolds() && Now() == Acted(Back, old(Now()), s, false)
    {
      if overlay != NoOverlay {
        CloseOverlay();
      } else if !s.toasts {
        editing := editing - {FilterOwner(tab)};
      }
    }

    // ---------------------------------------------------------------- actions

    /** The dialog an action asks for. */
    ghost function AskedBy(a: Action, s: Scene): seq<Dialog> {
      if remote || !IsLocalOnly(a) then []
      else match a
           case Kill(signal) => OnProcess(s, (p: P.ProcessInfo) => KillProc(p.pid, p.name, signal))
           case Renice(delta) => OnProcess(s, (p: P.ProcessInfo) => ReniceProc(p.pid, p.name, delta))
           case ContainerStop => OnContainer(s, Stop)
           case ContainerKill => OnContainer(s, KillNow)
           case ContainerRestart => OnContainer(s, Restart)
           case _ => []
    }

    method Dispatch(a: Action, s: Scene)
      requires Valid() && confirm == None && !TextOverlay()
      modifies `running, `tab, `overlay, `overlayScroll, `confirm, `paused, `actionsSelected, `editing
      modifies `scopeToggles, `raised, palette`input, palette`selected, palette`offers, palette`arg
      ensures Valid()
      ensures raised == old(raised) + AskedBy(a, s)
      ensures Now() == Acted(a, old(Now()), s, old(TabActions()) != [])
      ensures scopeToggles == old(scopeToggles) + if a == ToggleKubeScope && !remote && clusterEngine then 1 else 0
    {
      hide DialogsHold, PaletteHolds, TabActions;
      if IsLocalOnly(a) {
        if !remote {
          DispatchLocal(a, s);
        } else {
          assert raised + [] == raised;
        }
      } else {
        DispatchView(a, s);
        assert raised + [] == raised;
      }
    }

    method DispatchView(a: Action, s: Scene)
      requires !IsLocalOnly(a) && PaletteHolds() && !TextOverlay()
      modifies `running, `tab, `overlay, `overlayScroll, `paused, `actionsSelected, `editing
      modifies palette`input, palette`selected, palette`offers, palette`arg
      ensures PaletteHolds()
      ensures Now() == Acted(a, old(Now()), s, old(TabActions()) != [])
    {
      hide PaletteHolds, TabActions;
      match a
      case Leave => running := false;
      case Help => OpenOverlay(HelpScreen);
      case OpenPalette => OpenText(PaletteOverlay);
      case CommandMode => OpenText(CommandLine);
      case ToggleLog => OpenOverlay(Log);
      case Pause => paused := !paused;
      case Refresh => paused := false;
      case GoTo(t) => GoToTab(t);
      case Subview(t) => editing := editing - {t};
      case OpenInspector =>
        if s.itemCount > 0 {
          OpenOverlay(Inspector);
        }
      case ActionsMenu =>
        if TabActions() != [] {
          actionsSelected := 0;
          OpenOverlay(Actions);
        }
      case EditFilter => editing := editing + {FilterOwner(tab)};
      case Back => GoBack(s);
      case _ =>
    }

    method DispatchLocal(a: Action, s: Scene)
      requires IsLocalOnly(a) && !remote && DialogsHold() && confirm == None
      modifies `confirm, `raised, `scopeToggles
      ensures DialogsHold()
      ensures raised == old(raised) + AskedBy(a, s)
      ensures scopeToggles == old(scopeToggles) + if a == ToggleKubeScope && clusterEngine then 1 else 0
    {
      hide DialogsHold;
      match a
      case Renice(delta) => RequestRenice(delta, s);
      case Kill(signal) => RequestKill(signal, s);
      case ContainerStop => RequestContainer(Stop, s);
      case ContainerKill => RequestContainer(KillNow, s);
      case ContainerRestart => RequestContainer(Restart, s);
      case ToggleKubeScope =>
        ToggleScope();
        assert raised + [] == raised;
    }

    function TabActions(): seq<Action>
      reads `tab
    {
      Filter(menu(tab), (a: Action) => !(remote && IsLocalOnly(a)))
    }

    // --------------------------------------------------------------- commands

    /** The dialog a palette command asks for; the guard inside names no verb commands. */
    ghost function AskedByCommand(cmd: Command, arg: Option<string>, s: Scene): seq<Dialog> {
      match (cmd, arg)
      case (KillNamed, Some(name)) => OnNamedProcess(name, s)
      case (StopNamed, Some(name)) => OnNamedContainer(name, Stop, s)
      case (RestartNamed, Some(name)) => OnNamedContainer(name, Restart, s)
      case _ =>
        if remote then [] else AskedOfRow(cmd, s)
    }

    ghost function AskedOfRow(cmd: Command, s: Scene): seq<Dialog>
    {
      match cmd
      case KillProcess => AskedBy(Kill(Term), s)
      case ForceKillProcess => AskedBy(Kill(KillSignal), s)
      case NiceDown => AskedBy(Renice(1), s)
      case NiceUp => AskedBy(Renice(-1), s)
      case StopContainer => AskedBy(ContainerStop, s)
      case KillContainer => AskedBy(ContainerKill, s)
      case RestartContainer => AskedBy(ContainerRestart, s)
      case _ => []
    }

    /** In a local session each action asks for its dialog on the row at the cursor. */
    lemma LocalActionsAsk(s: Scene, p: P.ProcessInfo, c: C.Container, signal: Signal, delta: int)
      requires !remote && s.process == Some(p) && s.container == Some(c)
      ensures AskedBy(Kill(signal), s) == [Dialog(KillProc(p.pid, p.name, signal), SelectedRow, s, Standing)]
      ensures AskedBy(Renice(delta), s) == [Dialog(ReniceProc(p.pid, p.name, delta), SelectedRow, s, Standing)]
      ensures AskedBy(ContainerStop, s) == [Dialog(StopCont(c.idFull, c.name), SelectedRow, s, Standing)]
      ensures AskedBy(ContainerKill, s) == [Dialog(KillCont(c.idFull, c.name), SelectedRow, s, Standing)]
      ensures AskedBy(ContainerRestart, s) == [Dialog(RestartCont(c.idFull, c.name), SelectedRow, s, Standing)]
    {
    }

    /** Each command without an argument asks for what the action it is named after does. */
    lemma RowCommandsAsk(s: Scene)
      ensures AskedByCommand(KillProcess, None, s) == AskedBy(Kill(Term), s)
      ensures AskedByCommand(ForceKillProcess, None, s) == AskedBy(Kill(KillSignal), s)
      ensures AskedByCommand(NiceDown, None, s) == AskedBy(Renice(1), s)
      ensures AskedByCommand(NiceUp, None, s) == AskedBy(Renice(-1), s)
      ensures AskedByCommand(StopContainer, None, s) == AskedBy(ContainerStop, s)
      ensures AskedByCommand(KillContainer, None, s) == AskedBy(ContainerKill, s)
      ensures AskedByCommand(RestartContainer, None, s) == AskedBy(ContainerRestart, s)
    {
      hide OnNamedProcess, OnNamedContainer, OnProcess, OnContainer, ALL, REMOTE_BLOCKED;
    }

    /** `kill`, `stop` and `restart` with a name, and the commands for the selected row. */
    method ExecuteLocalCommand(cmd: Command, arg: Option<string>, s: Scene)
      requires DialogsHold() && confirm == None
      modifies `confirm, `raised, `scopeToggles
      ensures scopeToggles == old(scopeToggles)
      ensures DialogsHold()
      ensures raised == old(raised) + AskedByCommand(cmd, arg, s)
    {
      hide DialogsHold, AimedAt, Carried, OnNamedProcess, OnNamedContainer, AskedOfRow, AskedBy, REMOTE_BLOCKED, ALL;
      assert raised + [] == raised;
      match (cmd, arg)
      case (KillNamed, Some(name)) => KillByName(name, s);
      case (StopNamed, Some(name)) => ContainerByName(name, Stop, s);
      case (RestartNamed, Some(name)) => ContainerByName(name, Restart, s);
      case _ =>
        if !remote {
          ExecuteOnRow(cmd, s);
        }
    }

    method ExecuteOnRow(cmd: Command, s: Scene)
      requires !remote && DialogsHold() && confirm == None
      modifies `confirm, `raised, `scopeToggles
      ensures scopeToggles == old(scopeToggles)
      ensures DialogsHold()
      ensures raised == old(raised) + AskedOfRow(cmd, s)
    {
      hide DialogsHold, AskedBy;
      match cmd
      case KillProcess => DispatchLocal(Kill(Term), s);
      case ForceKillProcess => DispatchLocal(Kill(KillSignal), s);
      case NiceDown => DispatchLocal(Renice(1), s);
      case NiceUp => DispatchLocal(Renice(-1), s);
      case StopContainer => DispatchLocal(ContainerStop, s);
      case KillContainer => DispatchLocal(ContainerKill, s);
      case RestartContainer => DispatchLocal(ContainerRestart, s);
      case _ => assert raised + [] == raised;
    }

    predicate ChangesTab(cmd: Command) {
      cmd.SwitchTo? || cmd.KubeView? || cmd in {ToggleTreeView, SwitchToGpu, NextTab, PrevTab, Command.GoToTab}
    }

    method ExecuteTabCommand(cmd: Command, arg: Option<string>, s: Scene)
      requires ChangesTab(cmd) && PaletteHolds() && !TextOverlay()
      modifies `tab, `editing
      ensures PaletteHolds()
      ensures Now() == Commanded(cmd, arg, old(Now()), s, remote, lower, isSpace)
    {
      hide PaletteHolds, NamedTab, Switched, Tabs.NextTab, Tabs.PrevTab;
      match cmd
      case ToggleTreeView => GoToTab(Processes);
      case SwitchTo(t) => GoToTab(t);
      case SwitchToGpu => SwitchToGpuTab();
      case NextTab => GoToTab(Tabs.NextTab(tab));
      case PrevTab => GoToTab(Tabs.PrevTab(tab));
      case KubeView(_) =>
        GoToTab(Kube);
        editing := editing - {Kube};
      case GoToTab =>
        if arg.Some? {
          GoToNamedTab(arg.value);
        }
    }

    method ExecuteViewCommand(cmd: Command, arg: Option<string>, s: Scene)
      requires cmd !in REMOTE_BLOCKED && PaletteHolds() && !TextOverlay()
      modifies `running, `tab, `overlay, `overlayScroll, `paused, `actionsSelected, `editing
      modifies palette`input, palette`selected, palette`offers, palette`arg
      ensures PaletteHolds()
      ensures Now() == Commanded(cmd, arg, old(Now()), s, remote, lower, isSpace)
    {
      hide PaletteHolds, NamedTab, TabActions, Switched, Tabs.NextTab, Tabs.PrevTab;
      if ChangesTab(cmd) {
        ExecuteTabCommand(cmd, arg, s);
        return;
      }
      match cmd
      case Quit => DispatchView(Leave, s);
      case OpenFilter => editing := editing + {FilterOwner(tab)};
      case ShowHelp => OpenOverlay(HelpScreen);
      case ShowLog => OpenOverlay(Log);
      case TogglePause => DispatchView(Pause, s);
      case RefreshNow => DispatchView(Refresh, s);
      case InspectRow => DispatchView(Action.OpenInspector, s);
      case _ =>
    }

    /** The one command that changes tab without ending any filter being typed. */
    method SwitchToGpuTab()
      requires PaletteHolds() && !TextOverlay()
      modifies `tab
      ensures PaletteHolds() && Now() == old(Now()).(tab := Gpu)
    {
      hide List;
      tab := Gpu;
    }

    /** A remote session is refused what it may not do, except `kill <name>`, which is guarded nowhere but in the palette. */
    method ExecuteInvocation(cmd: Command, arg: Option<string>, s: Scene)
      requires Valid() && confirm == None && !TextOverlay()
      modifies `running, `tab, `overlay, `overlayScroll, `confirm, `paused, `actionsSelected, `editing
      modifies `scopeToggles, `raised, palette`input, palette`selected, palette`offers, palette`arg
      ensures DialogsHold() && PaletteHolds()
      ensures raised == old(raised) + AskedByCommand(cmd, arg, s)
      ensures AskedByCommand(cmd, arg, s) == [] || !remote ==> Valid()
      ensures scopeToggles == old(scopeToggles) + if cmd == KubeToggleScope && !remote && clusterEngine then 1 else 0
      ensures Now() == Commanded(cmd, arg, old(Now()), s, remote, lower, isSpace)
    {
      hide DialogsHold, PaletteHolds, AskedByCommand, Commanded, Switched;
      if cmd in REMOTE_BLOCKED {
        BlockedCommandsStay(cmd, arg, Now(), s, remote, lower, isSpace);
      }
      if cmd == KubeToggleScope {
        OthersAskNothing(cmd, arg, s);
        if !remote {
          GoToTab(Kube);
          ToggleScope();
        }
        assert raised + [] == raised;
      } else if cmd in REMOTE_BLOCKED {
        ExecuteLocalCommand(cmd, arg, s);
        assert old(raised) + [] == old(raised);
      } else {
        OthersAskNothing(cmd, arg, s);
        ExecuteViewCommand(cmd, arg, s);
        assert raised + [] == raised;
      }
    }

    /** The one command that raises a dialog in a remote session if it is ever run there. */
    lemma OnlyKillByNameAsksRemotely(cmd: Command, arg: Option<string>, s: Scene)
      requires remote
      ensures AskedByCommand(cmd, arg, s) != [] <==>
              cmd == KillNamed && arg.Some? && NamedProcess(s.processes, arg.value, lower).Some?
    {
      hide NamedProcess, NamedContainer;
    }

    // ------------------------------------------------------------------- keys

    method HandlePaletteKey(key: Key, s: Scene)
      requires Valid() && confirm == None && TextOverlay()
      modifies `running, `tab, `overlay, `overlayScroll, `confirm, `paused, `actionsSelected, `editing
      modifies `scopeToggles, `raised, palette`input, palette`selected, palette`offers, palette`arg, palette`history
      ensures Valid()
      ensures var cmd := old(Chosen()); var arg := old(palette.arg);
              if key.code == Enter && cmd.Some? then
                && raised == old(raised) + AskedByCommand(cmd.value, arg, s)
                && Now() == Commanded(cmd.value, arg, Opened(old(Now()), NoOverlay), s, remote, lower, isSpace)
                && scopeToggles == old(scopeToggles) + ScopeToggles(cmd.value)
              else
                raised == old(raised) && Now() == PaletteKeyed(key, old(Now())) && scopeToggles == old(scopeToggles)
      ensures old(raised) <= raised && |raised| <= |old(raised)| + 1
      ensures |raised| > |old(raised)| ==> raised[|old(raised)|].scene == s
    {
      hide DialogsHold, List, AskedByCommand, Commanded, REMOTE_BLOCKED;
      match key.code
      case Esc => CloseOverlay();
      case Char(c) =>
        if key.ctrl {
          if c == 'p' || c == 'k' {
            CloseOverlay();
          }
        } else if Utf8Len(palette.input) < MAX_FILTER_LEN {
          EditInput(palette.input + [c]);
        }
      case Backspace => EditInput(if palette.input == "" then "" else palette.input[..|palette.input| - 1]);
      case Down => MoveOffer(palette.selected + 1);
      case Up => palette.selected := if palette.selected == 0 then 0 else palette.selected - 1;
      case Enter =>
        if palette.selected < |palette.offers| {
          AsksOnce(palette.offers[palette.selected].cmd, palette.arg, s);
          RunOffer(palette.offers[palette.selected].cmd, palette.arg, s);
        }
      case _ =>
    }

    /** The offer the palette's cursor is on. */
    function Chosen(): Option<Command>
      reads palette`offers, palette`selected, this
    {
      if palette.selected < |palette.offers| then Some(palette.offers[palette.selected].cmd) else None
    }

    function ScopeToggles(cmd: Command): nat {
      if cmd == KubeToggleScope && !remote && clusterEngine then 1 else 0
    }

    method EditInput(input: string)
      requires PaletteHolds() && TextOverlay()
      modifies palette`input, palette`selected, palette`offers, palette`arg
      ensures PaletteHolds() && palette.input == input
    {
      hide List;
      palette.input := input;
      palette.Refilter(Excluded(), tab, lower, isSpace, score);
    }

    method MoveOffer(to: nat)
      requires PaletteHolds()
      modifies palette`selected
      ensures PaletteHolds() && palette.selected == Clamped(to, |palette.offers|)
    {
      hide List;
      palette.selected := Clamped(to, |palette.offers|);
    }

    method RunOffer(cmd: Command, arg: Option<string>, s: Scene)
      requires Valid() && confirm == None && TextOverlay()
      requires palette.selected < |palette.offers| && cmd == palette.offers[palette.selected].cmd
      modifies `running, `tab, `overlay, `overlayScroll, `confirm, `paused, `actionsSelected, `editing
      modifies `scopeToggles, `raised, palette`input, palette`selected, palette`offers, palette`arg, palette`history
      ensures Valid()
      ensures raised == old(raised) + AskedByCommand(cmd, arg, s)
      ensures Now() == Commanded(cmd, arg, Opened(old(Now()), NoOverlay), s, remote, lower, isSpace)
      ensures scopeToggles == old(scopeToggles) + ScopeToggles(cmd)
    {
      hide DialogsHold, PaletteHolds, RemoteIsReadOnly, AskedByCommand, AskedOfRow, AskedBy, Commanded;
      hide REMOTE_BLOCKED, ALL, List, AimedAt, Carried, LastRun;
      TakeOffer(cmd);
      assert DialogsHold();
      assert RemoteIsReadOnly();
      if remote {
        OthersAskNothing(cmd, arg, s);
      }
      ExecuteInvocation(cmd, arg, s);
    }

    /** Remembers the chosen command and closes the palette; what was offered may run here. */
    method TakeOffer(cmd: Command)
      requires PaletteHolds() && TextOverlay()
      requires palette.selected < |palette.offers| && cmd == palette.offers[palette.selected].cmd
      modifies `overlay, `overlayScroll, palette`input, palette`selected, palette`arg, palette`history
      ensures PaletteHolds() && Now() == Opened(old(Now()), NoOverlay)
      ensures remote ==> cmd !in REMOTE_BLOCKED
      ensures palette.history == LastRun(old(palette.history), cmd)
    {
      hide List, ALL, REMOTE_BLOCKED, LastRun;
      ExcludedIsNeverOffered(palette.input, palette.history, Excluded(), tab, lower, isSpace, score);
      palette.Remember(cmd);
      overlay, overlayScroll := NoOverlay, 0;
      palette.input, palette.selected, palette.arg := "", 0, None;
    }

    lemma OthersAskNothing(cmd: Command, arg: Option<string>, s: Scene)
      requires cmd !in REMOTE_BLOCKED || cmd == KubeToggleScope
      ensures AskedByCommand(cmd, arg, s) == []
    {
    }

    lemma AsksOnce(cmd: Command, arg: Option<string>, s: Scene)
      ensures var asked := AskedByCommand(cmd, arg, s);
              |asked| <= 1 && (asked != [] ==> asked[0].scene == s && asked[0].outcome == Standing)
    {
      hide NamedProcess, NamedContainer;
    }

    method HandleScrollableKey(key: Key)
      requires PaletteHolds() && !TextOverlay()
      modifies `overlay, `overlayScroll, palette`input, palette`selected, palette`arg
      ensures PaletteHolds() && Now() == OverlayKeyed(key, old(Now()))
    {
      hide PaletteHolds;
      var closes :=
        || key.code == Esc || key.code == Char('q')
        || (key.code == Char('?') && overlay == HelpScreen)
        || (key.code == Enter && overlay == Inspector)
        || (key.code == Char('l') && key.ctrl);
      if closes {
        CloseOverlay();
      } else if key.code == Down || key.code == Char('j') {
        overlayScroll := overlayScroll + 1;
      } else if key.code == Up || key.code == Char('k') {
        overlayScroll := if overlayScroll == 0 then 0 else overlayScroll - 1;
      } else if key.code == PageDown {
        overlayScroll := overlayScroll + PAGE;
      } else if key.code == PageUp {
        overlayScroll := if overlayScroll < PAGE then 0 else overlayScroll - PAGE;
      } else if key.code == Home || key.code == Char('g') {
        overlayScroll := 0;
      }
    }

    /** Only Enter runs an entry of the actions menu, and never a local one of a remote session. */
    method HandleActionsKey(key: Key, s: Scene)
      requires Valid() && confirm == None && overlay == Actions
      modifies `running, `tab, `overlay, `overlayScroll, `confirm, `paused, `actionsSelected, `editing
      modifies `scopeToggles, `raised, palette`input, palette`selected, palette`offers, palette`arg
      ensures Valid()
      ensures var actions := old(TabActions());
              if key.code == Enter && old(actionsSelected) < |actions| then
                var a := actions[old(actionsSelected)];
                && raised == old(raised) + AskedBy(a, s)
                && Now() == Acted(a, Opened(old(Now()), NoOverlay), s, actions != [])
                && scopeToggles == old(scopeToggles) + if a == ToggleKubeScope && !remote && clusterEngine then 1 else 0
              else
                && raised == old(raised) && Now() == MenuKeyed(key, old(Now()), |actions|)
                && scopeToggles == old(scopeToggles)
    {
      hide DialogsHold, PaletteHolds, AskedBy, Acted, TabActions;
      assert raised + [] == raised;
      var actions := TabActions();
      if key.code == Esc || key.code == Char('x') {
        CloseOverlay();
      } else if key.code == Down || key.code == Char('j') {
        actionsSelected := Clamped(actionsSelected + 1, |actions|);
      } else if key.code == Up || key.code == Char('k') {
        actionsSelected := if actionsSelected == 0 then 0 else actionsSelected - 1;
      } else if key.code == Enter && actionsSelected < |actions| {
        var action := actions[actionsSelected];
        CloseOverlay();
        Dispatch(action, s);
      }
    }

    method HandleFilterKey(key: Key)
      modifies `editing
      ensures editing == old(editing) - if key.code == Esc || key.code == Enter then {FilterOwner(tab)} else {}
    {
      if key.code == Esc || key.code == Enter {
        editing := editing - {FilterOwner(tab)};
      }
    }

    /** What a key does while no dialog stands: dialogs raised, the mode after, and scope toggles. */
    ghost predicate KeyDid(
      key: Key, s: Scene, before: Mode, actions: seq<Action>, chosen: Option<Command>, arg: Option<string>,
      asked: seq<Dialog>, after: Mode, toggles: int)
    {
      if before.overlay == PaletteOverlay || before.overlay == CommandLine then
        if key.code == Enter && chosen.Some? then
          && asked == AskedByCommand(chosen.value, arg, s) && toggles == ScopeToggles(chosen.value)
          && after == Commanded(chosen.value, arg, Opened(before, NoOverlay), s, remote, lower, isSpace)
        else asked == [] && after == PaletteKeyed(key, before) && toggles == 0
      else if before.overlay == HelpScreen || before.overlay == Log || before.overlay == Inspector then
        asked == [] && after == OverlayKeyed(key, before) && toggles == 0
      else if before.overlay == Actions then
        if key.code == Enter && before.actionsSelected < |actions| then
          ActionDid(actions[before.actionsSelected], s, Opened(before, NoOverlay), actions, asked, after, toggles)
        else asked == [] && after == MenuKeyed(key, before, |actions|) && toggles == 0
      else if FilterOwner(before.tab) in before.editing then
        && asked == [] && toggles == 0
        && after == before.(editing := before.editing -
                              if key.code == Esc || key.code == Enter then {FilterOwner(before.tab)} else {})
      else match keymap(key, before.tab)
           case Some(a) => ActionDid(a, s, before, actions, asked, after, toggles)
           case None => asked == [] && after == before && toggles == 0
    }

    ghost predicate ActionDid(
      a: Action, s: Scene, before: Mode, actions: seq<Action>, asked: seq<Dialog>, after: Mode, toggles: int)
    {
      && asked == AskedBy(a, s) && after == Acted(a, before, s, actions != [])
      && toggles == if a == ToggleKubeScope && !remote && clusterEngine then 1 else 0
    }

    /** Keys while an overlay is open or a filter is being typed. */
    method HandleOpenKey(key: Key, s: Scene)
      requires Valid() && confirm == None && (overlay != NoOverlay || FilterOwner(tab) in editing)
      modifies `running, `tab, `overlay, `overlayScroll, `confirm, `paused, `actionsSelected, `editing
      modifies `scopeToggles, `raised, palette`input, palette`selected, palette`offers, palette`arg, palette`history
      ensures Valid()
      ensures old(raised) <= raised && |raised| <= |old(raised)| + 1
      ensures |raised| > |old(raised)| ==> raised[|old(raised)|].scene == s
      ensures KeyDid(key, s, old(Now()), old(TabActions()), old(Chosen()), old(palette.arg),
                     raised[|old(raised)|..], Now(), scopeToggles - old(scopeToggles))
    {
      hide DialogsHold, PaletteHolds, RemoteIsReadOnly, AskedBy, AskedByCommand, REMOTE_BLOCKED, TabActions;
      hide Acted, Commanded;
      if TextOverlay() {
        HandlePaletteKey(key, s);
      } else if overlay == HelpScreen || overlay == Log || overlay == Inspector {
        HandleScrollableKey(key);
      } else if overlay == Actions {
        if actionsSelected < |TabActions()| {
          ActionAsksOnce(TabActions()[actionsSelected], s);
        }
        HandleActionsKey(key, s);
      } else {
        HandleFilterKey(key);
      }
    }

    /** Keys while no dialog stands: overlay first, then filter editing, then the keymap. */
    method HandleViewKey(key: Key, s: Scene)
      requires Valid() && confirm == None
      modifies `running, `tab, `overlay, `overlayScroll, `confirm, `paused, `actionsSelected, `editing
      modifies `scopeToggles, `raised, palette`input, palette`selected, palette`offers, palette`arg, palette`history
      ensures Valid()
      ensures old(raised) <= raised && |raised| <= |old(raised)| + 1
      ensures |raised| > |old(raised)| ==> raised[|old(raised)|].scene == s
      ensures KeyDid(key, s, old(Now()), old(TabActions()), old(Chosen()), old(palette.arg),
                     raised[|old(raised)|..], Now(), scopeToggles - old(scopeToggles))
      ensures old(overlay) == NoOverlay && FilterOwner(old(tab)) !in old(editing) ==>
                match keymap(key, old(tab))
                case None => raised == old(raised) && Now() == old(Now()) && scopeToggles == old(scopeToggles)
                case Some(a) =>
                  && raised == old(raised) + AskedBy(a, s)
                  && Now() == Acted(a, old(Now()), s, old(TabActions()) != [])
                  && scopeToggles == old(scopeToggles) + if a == ToggleKubeScope && !remote && clusterEngine then 1 else 0
    {
      hide DialogsHold, PaletteHolds, RemoteIsReadOnly, AskedBy, AskedByCommand, REMOTE_BLOCKED, TabActions;
      hide Acted, Commanded, KeyDid, Chosen;
      if overlay != NoOverlay || FilterOwner(tab) in editing {
        HandleOpenKey(key, s);
      } else {
        match keymap(key, tab) {
          case Some(action) =>
            ActionAsksOnce(action, s);
            Dispatch(action, s);
          case None =>
        }
        ghost var asked := raised[|old(raised)|..];
        assert raised == old(raised) + asked;
        BoundKeysAct(key, s, old(Now()), old(TabActions()), old(Chosen()), old(palette.arg),
                     asked, Now(), scopeToggles - old(scopeToggles));
      }
    }

    lemma ActionAsksOnce(a: Action, s: Scene)
      ensures |AskedBy(a, s)| <= 1 && (AskedBy(a, s) != [] ==> AskedBy(a, s)[0].scene == s)
    {
    }

    /**
      Only yes against a standing dialog executes anything, once and as captured; while
      one stands no other is raised; a dialog is aimed at what is shown when it is raised;
      Ctrl+C leaves from everywhere and does nothing else.
    */
    method HandleKey(key: Key, s: Scene)
      requires Valid()
      modifies `running, `tab, `overlay, `overlayScroll, `confirm, `paused, `actionsSelected, `editing
      modifies `scopeToggles, `raised, `executed
      modifies palette`input, palette`selected, palette`offers, palette`arg, palette`history
      ensures Valid()
      ensures executed == old(executed) + Executes(old(confirm), key)
      ensures executed == old(executed) +
                if old(confirm).Some? && (key.code in {Char('y'), Char('Y'), Enter})
                   && (engine || old(confirm).value.KillProc? || old(confirm).value.ReniceProc?)
                then [old(confirm).value] else []
      ensures old(confirm).Some? ==> |raised| == |old(raised)|
      ensures IsCtrlC(key) ==> !running && raised == old(raised) && confirm == old(confirm) && overlay == old(overlay)
      ensures old(confirm).Some? && !IsCtrlC(key) ==>
                && raised == AnsweredBy(old(raised), old(confirm).value, key)
                && confirm == (if key.code in {Char('y'), Char('Y'), Enter, Char('n'), Char('N'), Esc} then None
                               else old(confirm))
                && running == old(running) && overlay == old(overlay) && tab == old(tab) && paused == old(paused)
                && editing == old(editing) && scopeToggles == old(scopeToggles)
      ensures old(confirm).None? && old(overlay) == NoOverlay && FilterOwner(old(tab)) !in old(editing)
              && !(key.ctrl && key.code == Char('c')) ==>
                match keymap(key, old(tab))
                case None => raised == old(raised) && Now() == old(Now()) && scopeToggles == old(scopeToggles)
                case Some(a) =>
                  && raised == old(raised) + AskedBy(a, s)
                  && Now() == Acted(a, old(Now()), s, old(TabActions()) != [])
                  && scopeToggles == old(scopeToggles) + if a == ToggleKubeScope && !remote && clusterEngine then 1 else 0
      ensures |old(raised)| <= |raised| <= |old(raised)| + 1
      ensures forall k :: 0 <= k < |old(raised)| ==> raised[k].action == old(raised)[k].action
      ensures old(confirm).None? ==>
                && old(raised) <= raised
                && (|raised| > |old(raised)| ==> raised[|old(raised)|].scene == s)
                && (!(key.ctrl && key.code == Char('c')) ==>
                      KeyDid(key, s, old(Now()), old(TabActions()), old(Chosen()), old(palette.arg),
                             raised[|old(raised)|..], Now(), scopeToggles - old(scopeToggles)))
    {
      hide DialogsHold, PaletteHolds, AskedBy, AskedByCommand, REMOTE_BLOCKED, KeyDid, TabActions, Acted, Chosen, FilterOwner;
      assert executed + [] == executed;
      if IsCtrlC(key) {
        running := false;
      } else if confirm.Some? {
        StandingDialog();
        HandleConfirmKey(key);
      } else {
        HandleViewKey(key, s);
        assert raised == old(raised) + raised[|old(raised)|..];
      }
    }

    /** With no overlay and no filter being typed, a key does what the keymap binds it to, and nothing otherwise. */
    lemma BoundKeysAct(
      key: Key, s: Scene, before: Mode, actions: seq<Action>, chosen: Option<Command>, arg: Option<string>,
      asked: seq<Dialog>, after: Mode, toggles: int)
      requires before.overlay == NoOverlay && FilterOwner(before.tab) !in before.editing
      ensures KeyDid(key, s, before, actions, chosen, arg, asked, after, toggles) <==>
              match keymap(key, before.tab)
              case None => asked == [] && after == before && toggles == 0
              case Some(a) =>
                && asked == AskedBy(a, s) && after == Acted(a, before, s, actions != [])
                && toggles == if a == ToggleKubeScope && !remote && clusterEngine then 1 else 0
    {
    }

    lemma DialogsAreAimed()
      requires Valid()
      ensures executed == Carried(raised)
      ensures forall k :: 0 <= k < |raised| ==> AimedAt(raised[k].action, raised[k].origin, raised[k].scene, lower)
    {
      hide AimedAt;
    }

    lemma StandingDialog()
      requires DialogsHold() && confirm.Some?
      ensures raised != []
    {
    }

    function Executes(standing: Option<ConfirmAction>, key: Key): seq<ConfirmAction> {
      if !IsCtrlC(key) && IsYes(key) && standing.Some? && (engine || !NeedsEngine(standing.value))
      then [standing.value] else []
    }

    /** The wheel scrolls an overlay if one is open, and the table otherwise. */
    method HandleMouse(i: Input)
      requires Valid() && !i.Press?
      modifies `overlayScroll
      ensures Valid()
      ensures overlayScroll == if overlay == NoOverlay || i.OtherMouse? then old(overlayScroll)
                               else if i.WheelDown? then old(overlayScroll) + WHEEL_ROWS
                               else if old(overlayScroll) < WHEEL_ROWS then 0 else old(overlayScroll) - WHEEL_ROWS
    {
      hide DialogsHold, PaletteHolds;
      if overlay != NoOverlay {
        match i
        case WheelDown => overlayScroll := overlayScroll + WHEEL_ROWS;
        case WheelUp => overlayScroll := if overlayScroll < WHEEL_ROWS then 0 else overlayScroll - WHEEL_ROWS;
        case _ =>
      }
    }

    /**
      Over every run: what is executed only grows, by at most one action for each yes
      pressed, each the answer to a dialog of its own; a remote session executes nothing.
    */
    method RunAll(inputs: seq<Input>)
      requires Valid()
      modifies this, palette
      ensures Valid()
      ensures old(executed) <= executed && |executed| <= |old(executed)| + Yeses(inputs)
      ensures remote ==> executed == [] && raised == [] && scopeToggles == 0
    {
      hide DialogsHold, PaletteHolds;
      var i := 0;
      while i < |inputs|
        invariant 0 <= i <= |inputs| && Valid()
        invariant old(executed) <= executed && |executed| <= |old(executed)| + Yeses(inputs[..i])
      {
        assert inputs[..i + 1][..i] == inputs[..i];
        match inputs[i] {
          case Press(key, scene) => HandleKey(key, scene);
          case _ => HandleMouse(inputs[i]);
        }
        i := i + 1;
      }
      assert inputs[..|inputs|] == inputs;
    }
  }

  function Yeses(inputs: seq<Input>): nat {
    if inputs == [] then 0
    else
      var last := inputs[|inputs| - 1];
      Yeses(inputs[..|inputs| - 1]) + if last.Press? && IsYes(last.key) then 1 else 0
  }
}
