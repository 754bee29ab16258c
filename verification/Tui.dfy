/**
  The terminal interface as a whole: the views and the input routing over one run,
  with the routing shown what the views show.

  What a key does to the views themselves (filter text, cursors, sorting) is any
  of the view events, so a run here interleaves keys with such events freely; tab and
  pause are shared.
*/
module Tui {
  import opened Basics
  import opened Tabs
  import M = Modality
  import P = Process
  import V = Views

  datatype Input =
    | ViewInput(e: V.Event, others: nat)
    | KeyInput(key: M.Key, others: nat, toasts: bool)
    | MouseInput(i: M.Input)

  /** Everything in the scene is in the snapshot. */
  ghost predicate DrawnFrom(scene: M.Scene, s: Option<V.Snapshot>) {
    && (scene.process.Some? ==> s.Some? && scene.process.value in s.value.processes)
    && (forall k :: 0 <= k < |scene.processes| ==> s.Some? && scene.processes[k] in s.value.processes)
    && (scene.container.Some? ==>
          s.Some? && s.value.containers.Some? && scene.container.value in s.value.containers.value.containers)
    && (forall k :: 0 <= k < |scene.containers| ==>
          s.Some? && s.value.containers.Some? && scene.containers[k] in s.value.containers.value.containers)
  }

  /** The action's target is a process or a container of the snapshot, by its identifier and its name. */
  ghost predicate Names(a: M.ConfirmAction, s: V.Snapshot) {
    if a.KillProc? || a.ReniceProc? then
      exists k :: 0 <= k < |s.processes| && s.processes[k].pid == a.pid && s.processes[k].name == a.name
    else
      s.containers.Some? &&
      var cs := s.containers.value.containers;
      exists k :: 0 <= k < |cs| && cs[k].idFull == a.id && cs[k].name == a.name
  }

  /** Some snapshot that was on display shows the action's target. */
  ghost predicate WasShown(applied: seq<V.Arrival>, a: M.ConfirmAction) {
    exists j :: 0 <= j < |applied| && Names(a, applied[j].snapshot)
  }

  ghost predicate Grounded(applied: seq<V.Arrival>, dialogs: seq<M.Dialog>) {
    forall k :: 0 <= k < |dialogs| ==> WasShown(applied, dialogs[k].action)
  }

  lemma AimIsNamed(a: M.ConfirmAction, origin: M.Origin, scene: M.Scene, lower: P.Lower, s: Option<V.Snapshot>)
    requires M.AimedAt(a, origin, scene, lower) && DrawnFrom(scene, s)
    ensures s.Some? && Names(a, s.value)
  {
    hide M.IsNamed;
    if a.KillProc? || a.ReniceProc? {
      var p := if origin.Named? then M.NamedProcess(scene.processes, origin.needle, lower).value else scene.process.value;
      assert p in s.value.processes;
    } else {
      var c := if origin.Named? then M.NamedContainer(scene, origin.needle, lower).value else scene.container.value;
      assert c in s.value.containers.value.containers;
    }
  }

  lemma GroundedStays(applied: seq<V.Arrival>, more: seq<V.Arrival>, dialogs: seq<M.Dialog>)
    requires Grounded(applied, dialogs)
    ensures Grounded(applied + more, dialogs)
  {
    hide Names;
    forall k | 0 <= k < |dialogs| ensures WasShown(applied + more, dialogs[k].action) {
      assert WasShown(applied, dialogs[k].action);
      var j :| 0 <= j < |applied| && Names(dialogs[k].action, applied[j].snapshot);
      assert Names(dialogs[k].action, (applied + more)[j].snapshot);
    }
  }

  /** A key leaves the dialogs' actions as they were, and what it raises is aimed at the scene. */
  lemma KeyKeepsGrounded(
    applied: seq<V.Arrival>, before: seq<M.Dialog>, after: seq<M.Dialog>, scene: M.Scene, lower: P.Lower)
    requires Grounded(applied, before) && |before| <= |after| <= |before| + 1
    requires forall k :: 0 <= k < |before| ==> after[k].action == before[k].action
    requires |after| > |before| ==>
               && M.AimedAt(after[|before|].action, after[|before|].origin, scene, lower)
               && DrawnFrom(scene, if applied == [] then None else Some(applied[|applied| - 1].snapshot))
    ensures Grounded(applied, after)
  {
    hide Names, M.AimedAt, DrawnFrom;
    if |after| > |before| {
      var d := after[|before|];
      AimIsNamed(d.action, d.origin, scene, lower, if applied == [] then None else Some(applied[|applied| - 1].snapshot));
      assert Names(d.action, applied[|applied| - 1].snapshot);
    }
    forall k | 0 <= k < |after| ensures WasShown(applied, after[k].action) {
      if k < |before| {
        assert WasShown(applied, before[k].action);
      }
    }
  }

  class Terminal {
    const views: V.AppViews
    const app: M.App

    ghost predicate Valid()
      reads this, views, views.containerHistory, views.networkHistory, app, app.palette
    {
      && views.Valid() && app.Valid()
      && views.tab == app.tab && views.paused == app.paused
      && Grounded(views.applied, app.raised)
    }

    constructor (views: V.AppViews, app: M.App)
      requires views.Valid() && app.Valid() && app.raised == []
      requires views.tab == app.tab && views.paused == app.paused
      ensures Valid() && this.views == views && this.app == app
    {
      this.views, this.app := views, app;
    }

    /** What the views show right now. */
    method CurrentScene(others: nat, toasts: bool) returns (scene: M.Scene)
      requires views.Valid()
      ensures scene.process == views.UnderCursor() && scene.container == views.ContainerUnderCursor()
      ensures scene.processes == views.visibleProcesses && scene.containers == views.containersCache
      ensures scene.itemCount == views.Items(others) && scene.toasts == toasts
      ensures DrawnFrom(scene, views.lastSnapshot)
    {
      var process := views.SelectedProcess();
      var container := views.SelectedContainer();
      views.RowsComeFromTheSnapshot();
      views.ContainersComeFromTheSnapshot();
      scene := M.Scene(
        process, container, views.visibleProcesses, views.containersCache, views.Items(others), toasts);
    }

    /** A dialog that a key raises is aimed at the row under the cursor of the tables as they stand, or at a row they show. */
    method PressKey(key: M.Key, others: nat, toasts: bool)
      requires Valid()
      modifies app, app.palette, views
      ensures views.applied == old(views.applied)
      ensures Valid()
      ensures app.executed == old(app.executed) + app.Executes(old(app.confirm), key)
      ensures |app.raised| > |old(app.raised)| ==>
                var d := app.raised[|old(app.raised)|];
                && d.scene.process == old(views.UnderCursor()) && d.scene.processes == old(views.visibleProcesses)
                && d.scene.container == old(views.ContainerUnderCursor())
                && d.scene.containers == old(views.containersCache)
                && M.AimedAt(d.action, d.origin, d.scene, app.lower)
    {
      hide V.AppViews.Valid, M.App.Valid, DrawnFrom, Grounded, M.AimedAt, M.App.Executes;
      var scene := CurrentScene(others, toasts);
      ghost var before := app.raised;
      app.HandleKey(key, scene);
      app.DialogsAreAimed();
      views.LastIsApplied();
      KeyKeepsGrounded(views.applied, before, app.raised, scene, app.lower);
      views.FollowRouting(app.tab, app.paused);
    }

    /** A view event other than those the routing decides. */
    method ChangeViews(e: V.Event, others: nat)
      requires Valid()
      modifies views, views.containerHistory, views.networkHistory
      ensures Valid()
      ensures old(views.applied) <= views.applied
    {
      hide V.AppViews.Valid, M.App.Valid, Grounded, V.AcceptedOne;
      if !e.GoToTab? && !e.TogglePause? && !e.Refresh? {
        views.Handle(e, others);
        GroundedStays(old(views.applied), views.applied[|old(views.applied)|..], app.raised);
      }
    }

    /**
      Over every run, every dialog ever raised, and so every action ever executed, names
      by identifier and name a process or a container of a snapshot that was on display.
    */
    method Run(inputs: seq<Input>)
      requires Valid()
      modifies views, views.containerHistory, views.networkHistory, app, app.palette
      ensures Valid() && Grounded(views.applied, app.raised) && app.executed == M.Carried(app.raised)
      ensures old(views.applied) <= views.applied && old(app.executed) <= app.executed
    {
      hide V.AppViews.Valid, M.App.Valid, Grounded, M.Carried;
      for i := 0 to |inputs|
        invariant Valid()
        invariant old(views.applied) <= views.applied && old(app.executed) <= app.executed
      {
        match inputs[i]
        case ViewInput(e, others) => ChangeViews(e, others);
        case KeyInput(key, others, toasts) => PressKey(key, others, toasts);
        case MouseInput(m) =>
          if !m.Press? {
            app.HandleMouse(m);
          }
      }
      app.DialogsAreAimed();
    }
  }
}
