/**
  Rescoping the Kubernetes cache under a poll that may be in flight, and the pod
  counts joined onto the nodes.

  `set_scope` writes the scope and clears the cache under two separate locks, and
  a poll reads the scope, waits for the API and writes the cache, so all four are
  steps of their own. Rows remember the poll that wrote them.
*/
module Kube {
  import opened Basics

  /** `None` is cluster-wide. */
  type Scope = Option<string>

  predicate InScope(namespace: string, scope: Scope) {
    scope.None? || namespace == scope.value
  }

  datatype Object = Object(namespace: string, name: string)

  /** A cached row: the scope its poll read, and when that poll began and completed. */
  datatype Row = Row(item: Object, scope: Scope, began: nat, completed: nat)

  datatype Poll = Poll(scope: Scope, began: nat)

  /** `clearing` rescopes have written the scope and not yet cleared the cache. */
  datatype State = State(
    clock: nat,
    scope: Scope,
    scopeWritten: nat,
    clearing: nat,
    cleared: nat,
    poll: Option<Poll>,
    pods: seq<Row>,
    deployments: seq<Row>,
    nodes: seq<Object>)

  /** `FinishPoll` carries what each list call returned, `None` for a failed or timed-out one. */
  datatype Event =
    | WriteScope(scope: Scope)
    | ClearCache
    | BeginPoll
    | FinishPoll(pods: Option<seq<Object>>, nodes: Option<seq<Object>>, deployments: Option<seq<Object>>)

  function Init(scope: Scope): State {
    State(1, scope, 0, 0, 0, None, [], [], [])
  }

  /** The API lists a namespace's objects when asked for that namespace. */
  predicate Lists(scope: Scope, objects: Option<seq<Object>>) {
    objects.Some? ==> forall i :: 0 <= i < |objects.value| ==> InScope(objects.value[i].namespace, scope)
  }

  function Stamp(objects: seq<Object>, poll: Poll, now: nat): seq<Row> {
    seq(|objects|, i requires 0 <= i < |objects| => Row(objects[i], poll.scope, poll.began, now))
  }

  function Enabled(s: State, e: Event): bool {
    match e
    case WriteScope(_) => true
    case ClearCache => s.clearing > 0
    case BeginPoll => s.poll == None
    case FinishPoll(pods, _, deployments) =>
      s.poll.Some? && Lists(s.poll.value.scope, pods) && Lists(s.poll.value.scope, deployments)
  }

  function Step(s: State, e: Event): State {
    if !Enabled(s, e) then s
    else
      var now := s.clock;
      var s := s.(clock := now + 1);
      match e
      case WriteScope(scope) => s.(scope := scope, scopeWritten := now, clearing := s.clearing + 1)
      case ClearCache => s.(pods := [], deployments := [], cleared := now, clearing := s.clearing - 1)
      case BeginPoll => s.(poll := Some(Poll(s.scope, now)))
      case FinishPoll(pods, nodes, deployments) =>
        var poll := s.poll.value;
        s.(poll := None,
           pods := if pods.Some? then Stamp(pods.value, poll, now) else s.pods,
           nodes := if nodes.Some? then nodes.value else s.nodes,
           deployments := if deployments.Some? then Stamp(deployments.value, poll, now) else s.deployments)
  }

  function Run(s: State, events: seq<Event>): State {
    if events == [] then s else Step(Run(s, events[..|events| - 1]), events[|events| - 1])
  }

  /** A row in the scope of its poll, written since the last clear, and current if its poll began under the current scope. */
  ghost predicate RowOk(s: State, r: Row) {
    && r.began < r.completed < s.clock && s.cleared < r.completed
    && InScope(r.item.namespace, r.scope)
    && (s.scopeWritten < r.began ==> r.scope == s.scope)
  }

  ghost predicate RowsOk(s: State, rows: seq<Row>) {
    forall i :: 0 <= i < |rows| ==> RowOk(s, rows[i])
  }

  ghost predicate Inv(s: State) {
    && s.scopeWritten < s.clock && s.cleared < s.clock
    && (s.clearing == 0 && s.scopeWritten > 0 ==> s.scopeWritten < s.cleared)
    && (s.poll.Some? ==>
          s.poll.value.began < s.clock && (s.scopeWritten < s.poll.value.began ==> s.poll.value.scope == s.scope))
    && RowsOk(s, s.pods) && RowsOk(s, s.deployments)
  }

  lemma StepKeepsInv(s: State, e: Event)
    requires Inv(s)
    ensures Inv(Step(s, e))
  {
  }

  lemma {:induction false} RunKeepsInv(scope: Scope, events: seq<Event>)
    ensures Inv(Run(Init(scope), events))
  {
    if events != [] {
      RunKeepsInv(scope, events[..|events| - 1]);
      StepKeepsInv(Run(Init(scope), events[..|events| - 1]), events[|events| - 1]);
    }
  }

  ghost predicate Reported(s: State, r: Row) {
    r in s.pods || r in s.deployments
  }

  /**
    Once no rescope is half done, every reported pod or deployment was written by
    a poll that completed after the last rescope; and if that poll also began
    after it, the row lies in the current scope.
  */
  lemma RowsPostdateRescope(scope: Scope, events: seq<Event>, r: Row)
    requires Reported(Run(Init(scope), events), r)
    ensures var s := Run(Init(scope), events);
            && s.cleared < r.completed
            && (s.clearing == 0 ==> s.scopeWritten < r.completed)
            && (s.scopeWritten < r.began ==> InScope(r.item.namespace, s.scope))
  {
    RunKeepsInv(scope, events);
    var s := Run(Init(scope), events);
    var rows := if r in s.pods then s.pods else s.deployments;
    var i :| 0 <= i < |rows| && rows[i] == r;
  }

  function Listed(rows: seq<Row>): seq<Object> {
    seq(|rows|, i requires 0 <= i < |rows| => rows[i].item)
  }

  /**
    What a poll brings back is what the cache shows, list by list, until another poll
    lists the same kind again or, for pods and deployments, the cache is cleared.
  */
  lemma {:induction false} CacheShowsTheLastListing(scope: Scope, events: seq<Event>, at: nat)
    requires at < |events| && events[at].FinishPoll? && Run(Init(scope), events[..at]).poll.Some?
    requires var asked := Run(Init(scope), events[..at]).poll.value.scope;
             && (events[at].pods.Some? ==> forall i :: 0 <= i < |events[at].pods.value| ==>
                                             asked == None || events[at].pods.value[i].namespace == asked.value)
             && (events[at].deployments.Some? ==> forall i :: 0 <= i < |events[at].deployments.value| ==>
                                                    asked == None || events[at].deployments.value[i].namespace == asked.value)
    ensures var s := Run(Init(scope), events);
            && (events[at].nodes.Some? && (forall i :: at < i < |events| && events[i].FinishPoll? ==> events[i].nodes == None) ==>
                  s.nodes == events[at].nodes.value)
            && ((forall i :: at < i < |events| ==> !events[i].ClearCache?) ==>
                  && (events[at].pods.Some?
                      && (forall i :: at < i < |events| && events[i].FinishPoll? ==> events[i].pods == None) ==>
                        Listed(s.pods) == events[at].pods.value)
                  && (events[at].deployments.Some?
                      && (forall i :: at < i < |events| && events[i].FinishPoll? ==> events[i].deployments == None) ==>
                        Listed(s.deployments) == events[at].deployments.value))
  {
    var n := |events| - 1;
    var before := Run(Init(scope), events[..n]);
    if at < n {
      assert events[..n][..at] == events[..at];
      CacheShowsTheLastListing(scope, events[..n], at);
    } else {
      assert Enabled(before, events[at]);
      ListedBack(events[at], before);
    }
  }

  lemma ListedBack(e: Event, s: State)
    requires e.FinishPoll? && Enabled(s, e)
    ensures var t := Step(s, e);
            && (e.pods.Some? ==> Listed(t.pods) == e.pods.value)
            && (e.deployments.Some? ==> Listed(t.deployments) == e.deployments.value)
            && (e.nodes.Some? ==> t.nodes == e.nodes.value)
  {
  }

  /** A poll asks for the scope last written before it began, and stays in flight until it finishes. */
  lemma {:induction false} PollAsksForTheScope(s: State, later: seq<Event>)
    requires s.poll == None && forall i :: 0 <= i < |later| ==> !later[i].FinishPoll?
    ensures Run(Step(s, BeginPoll), later).poll == Some(Poll(s.scope, s.clock))
  {
    if later != [] {
      PollAsksForTheScope(s, later[..|later| - 1]);
    }
  }

  /** A scope written stays until another is written. */
  lemma {:induction false} ScopeIsTheLastWritten(s: State, scope: Scope, later: seq<Event>)
    requires forall i :: 0 <= i < |later| ==> !later[i].WriteScope?
    ensures Run(Step(s, WriteScope(scope)), later).scope == scope
  {
    if later != [] {
      ScopeIsTheLastWritten(s, scope, later[..|later| - 1]);
    }
  }

  /** A completed rescope leaves no pod and no deployment until a poll lists some. */
  lemma {:induction false} ClearedUntilListed(s: State, scope: Scope, later: seq<Event>)
    requires forall i :: 0 <= i < |later| && later[i].FinishPoll? ==> later[i].pods == None && later[i].deployments == None
    ensures var t := Run(Step(Step(s, WriteScope(scope)), ClearCache), later);
            t.pods == [] && t.deployments == []
  {
    if later != [] {
      ClearedUntilListed(s, scope, later[..|later| - 1]);
    }
  }

  /** A rescope drops no node row; only a poll that listed nodes changes them. */
  lemma {:induction false} RescopeKeepsNodes(s: State, events: seq<Event>)
    requires forall i :: 0 <= i < |events| && events[i].FinishPoll? ==> events[i].nodes == None
    ensures Run(s, events).nodes == s.nodes
  {
    if events != [] {
      RescopeKeepsNodes(s, events[..|events| - 1]);
    }
  }

  function Rescoped(s: State, scope: Scope): State {
    Step(Step(s, WriteScope(scope)), ClearCache)
  }

  /** What the completion of the poll in flight can list stays inside `scope`. */
  predicate Covers(scope: Scope, poll: Poll) {
    scope.None? || poll.scope == scope
  }

  /**
    The comment on the rescope says no out-of-scope row survives it. A poll in
    flight can still bring one in: exactly when it read a wider or another scope.
  */
  lemma LatePollLeaksIff(before: Scope, events: seq<Event>, scope: Scope)
    ensures var s := Run(Init(before), events);
            (exists pods, nodes, deployments, r ::
               var s' := Step(Rescoped(s, scope), FinishPoll(pods, nodes, deployments));
               Reported(s', r) && !InScope(r.item.namespace, scope))
            <==> s.poll.Some? && !Covers(scope, s.poll.value)
  {
    var s := Run(Init(before), events);
    var t := Rescoped(s, scope);
    assert t.pods == [] && t.deployments == [] && t.poll == s.poll && t.scope == scope;
    if s.poll.Some? && !Covers(scope, s.poll.value) {
      var poll := s.poll.value;
      var stranger := Object(if poll.scope.Some? then poll.scope.value else scope.value + "x", "pod");
      var pods := Some([stranger]);
      assert Lists(poll.scope, pods);
      var s' := Step(t, FinishPoll(pods, None, None));
      var r := Row(stranger, poll.scope, poll.began, t.clock);
      assert s'.pods[0] == r;
      assert Reported(s', r) && !InScope(r.item.namespace, scope);
    }
  }

  /** A reachable instance: a poll begun cluster-wide, then a rescope to a namespace. */
  lemma RescopeUnderAPollLeaks(namespace: string)
    ensures exists pods, nodes, deployments, r ::
              var s := Step(Rescoped(Run(Init(None), [BeginPoll]), Some(namespace)), FinishPoll(pods, nodes, deployments));
              Reported(s, r) && !InScope(r.item.namespace, Some(namespace))
  {
    assert [BeginPoll][..0] == [];
    assert Run(Init(None), [BeginPoll]).poll == Some(Poll(None, 1));
    LatePollLeaksIff(None, [BeginPoll], Some(namespace));
  }

  // -------------------------------------------------------------- pods per node

  datatype PodPhase = Running | Pending | Succeeded | Failed | Terminating | CrashLoop | UnknownPhase

  datatype Pod = Pod(name: string, node: string, phase: PodPhase)

  datatype Node = Node(name: string, podCount: nat)

  predicate OccupiesNode(p: Pod, node: string) {
    p.node == node && p.node != "" && p.phase !in {Succeeded, Failed}
  }

  ghost function Occupants(pods: seq<Pod>, node: string): nat {
    |Filter(pods, (p: Pod) => OccupiesNode(p, node))|
  }

  /** The pods scheduled on the node that have not run to an end. */
  ghost function Unfinished(pods: seq<Pod>, node: string): set<nat> {
    set i: nat | i < |pods| && pods[i].node == node && node != "" && pods[i].phase != Succeeded && pods[i].phase != Failed
  }

  lemma {:induction false} OccupantsAreUnfinished(pods: seq<Pod>, node: string)
    ensures Occupants(pods, node) == |Unfinished(pods, node)|
  {
    if pods == [] {
      assert Unfinished(pods, node) == {};
    } else {
      var n := |pods| - 1;
      OccupantsAreUnfinished(pods[..n], node);
      assert Unfinished(pods, node) ==
             Unfinished(pods[..n], node) + if OccupiesNode(pods[n], node) then {n as nat} else {};
    }
  }

  method PodsPerNode(pods: seq<Pod>) returns (counts: map<string, nat>)
    ensures forall node :: node in counts ==> counts[node] == Occupants(pods, node)
    ensures forall node :: node !in counts ==> Occupants(pods, node) == 0
  {
    counts := map[];
    for i := 0 to |pods|
      invariant forall node :: node in counts ==> counts[node] == Occupants(pods[..i], node)
      invariant forall node :: node !in counts ==> Occupants(pods[..i], node) == 0
    {
      var pod := pods[i];
      forall node ensures Occupants(pods[..i + 1], node) ==
                          Occupants(pods[..i], node) + if OccupiesNode(pod, node) then 1 else 0 {
        assert pods[..i + 1][..i] == pods[..i];
      }
      if pod.node == "" || pod.phase == Succeeded || pod.phase == Failed {
        continue;
      }
      counts := counts[pod.node := (if pod.node in counts then counts[pod.node] else 0) + 1];
    }
    assert pods[..|pods|] == pods;
  }

  /** Every node row gets the number of live pods scheduled on it. */
  method JoinPodCounts(pods: seq<Pod>, nodes: seq<Node>) returns (joined: seq<Node>)
    ensures |joined| == |nodes|
    ensures forall i :: 0 <= i < |nodes| ==> joined[i] == nodes[i].(podCount := Occupants(pods, nodes[i].name))
  {
    var scheduled := PodsPerNode(pods);
    joined := [];
    for i := 0 to |nodes|
      invariant |joined| == i
      invariant forall k :: 0 <= k < i ==> joined[k] == nodes[k].(podCount := Occupants(pods, nodes[k].name))
    {
      var name := nodes[i].name;
      joined := joined + [nodes[i].(podCount := if name in scheduled then scheduled[name] else 0)];
    }
  }
}
