/**
  The process forest: a depth-first build over parent links that may form
  cycles, repeat PIDs or run deeper than `MAX_DEPTH`.

  `Grow` is the specification of the walk, `BuildProcessTree` the code with its
  children map and shared `visited` array. `Ideal` is what a reader expects of
  the forest, written without any bookkeeping; `ForestIsIdeal` says when the two
  coincide.
*/
module ProcessTree {
  import opened Basics
  import opened Process

  const MAX_DEPTH: nat := 256

  datatype TreeNode = TreeNode(process: ProcessInfo, children: seq<TreeNode>, depth: nat)

  type Row = (ProcessInfo, nat)

  // ------------------------------------------------------------ parent links

  predicate HasPid(procs: seq<ProcessInfo>, pid: nat) {
    exists i :: 0 <= i < |procs| && procs[i].pid == pid
  }

  /** The parent PID of process `i`, if a process with that PID is in the list. */
  function ListedParent(procs: seq<ProcessInfo>, i: nat): Option<nat>
    requires i < |procs|
  {
    match procs[i].parentPid
    case Some(ppid) => if ppid > 0 && HasPid(procs, ppid) then Some(ppid) else None
    case None => None
  }

  ghost predicate InRange(procs: seq<ProcessInfo>, cs: seq<nat>) {
    forall k :: 0 <= k < |cs| ==> cs[k] < |procs|
  }

  /** Indices below `n` whose listed parent is `parent` (`None` selects the roots), ascending. */
  function Under(procs: seq<ProcessInfo>, parent: Option<nat>, n: nat): (r: seq<nat>)
    requires n <= |procs|
    ensures forall i: nat :: i in r <==> i < n && ListedParent(procs, i) == parent
    ensures InRange(procs, r) && Distinct(r)
  {
    if n == 0 then []
    else Under(procs, parent, n - 1) + if ListedParent(procs, n - 1) == parent then [n - 1] else []
  }

  function Roots(procs: seq<ProcessInfo>): seq<nat> {
    Under(procs, None, |procs|)
  }

  function ChildrenOf(procs: seq<ProcessInfo>, i: nat): seq<nat>
    requires i < |procs|
  {
    Under(procs, Some(procs[i].pid), |procs|)
  }

  function Indices(n: nat): seq<nat> {
    seq(n, i => i)
  }

  // ---------------------------------------------------------------- the walk

  /** Trees grown by a stretch of the walk, and the indices it placed in order. */
  datatype Grown = Grown(nodes: seq<TreeNode>, order: seq<nat>)

  ghost function Grow(procs: seq<ProcessInfo>, cs: seq<nat>, depth: nat, visited: set<nat>): (g: Grown)
    requires depth <= MAX_DEPTH && InRange(procs, cs)
    ensures InRange(procs, g.order)
    decreases MAX_DEPTH - depth, |cs|
  {
    if cs == [] then Grown([], [])
    else if cs[0] in visited then Grow(procs, cs[1..], depth, visited)
    else
      var kids := Kids(procs, cs[0], depth, visited);
      var order := [cs[0]] + kids.order;
      var rest := Grow(procs, cs[1..], depth, visited + Elements(order));
      Grown([TreeNode(procs[cs[0]], kids.nodes, depth)] + rest.nodes, order + rest.order)
  }

  ghost function Kids(procs: seq<ProcessInfo>, i: nat, depth: nat, visited: set<nat>): (g: Grown)
    requires depth <= MAX_DEPTH && i < |procs|
    ensures InRange(procs, g.order)
    decreases MAX_DEPTH - depth, 0
  {
    if depth < MAX_DEPTH then Grow(procs, ChildrenOf(procs, i), depth + 1, visited + {i}) else Grown([], [])
  }

  /** One step of the walk: the first candidate, its subtree, and the other candidates. */
  lemma FirstIsTaken(procs: seq<ProcessInfo>, cs: seq<nat>, depth: nat, visited: set<nat>)
    requires depth <= MAX_DEPTH && InRange(procs, cs) && cs != [] && cs[0] !in visited
    ensures var kids := Kids(procs, cs[0], depth, visited);
            var order := [cs[0]] + kids.order;
            var g, rest := Grow(procs, cs, depth, visited), Grow(procs, cs[1..], depth, visited + Elements(order));
            && g.nodes == [TreeNode(procs[cs[0]], kids.nodes, depth)] + rest.nodes
            && g.order == order + rest.order
            && kids == if depth < MAX_DEPTH then Grow(procs, ChildrenOf(procs, cs[0]), depth + 1, visited + {cs[0]})
                       else Grown([], [])
  {
    hide ChildrenOf;
  }

  ghost function FromRoots(procs: seq<ProcessInfo>): Grown {
    Grow(procs, Roots(procs), 0, {})
  }

  /** What the second pass puts at the top level. */
  ghost function Rerooted(procs: seq<ProcessInfo>): Grown {
    Grow(procs, Indices(|procs|), 0, Elements(FromRoots(procs).order))
  }

  ghost function Forest(procs: seq<ProcessInfo>): seq<TreeNode> {
    FromRoots(procs).nodes + Rerooted(procs).nodes
  }

  /** Depth-first rows, a node before its children. */
  function Flatten(nodes: seq<TreeNode>): seq<Row> {
    if nodes == [] then []
    else [(nodes[0].process, nodes[0].depth)] + Flatten(nodes[0].children) + Flatten(nodes[1..])
  }

  function Processes(rows: seq<Row>): seq<ProcessInfo> {
    seq(|rows|, k requires 0 <= k < |rows| => rows[k].0)
  }

  // ------------------------------------------------------------ conservation

  /** The walk places no index twice, none that was placed before, and every candidate. */
  lemma {:induction false} WalkPlacesOnce(procs: seq<ProcessInfo>, cs: seq<nat>, depth: nat, visited: set<nat>)
    requires depth <= MAX_DEPTH && InRange(procs, cs)
    ensures var order := Grow(procs, cs, depth, visited).order;
            Distinct(order) && Elements(order) !! visited && Elements(cs) <= visited + Elements(order)
    decreases MAX_DEPTH - depth, |cs|
  {
    if cs != [] {
      if cs[0] in visited {
        WalkPlacesOnce(procs, cs[1..], depth, visited);
      } else {
        var kids := Kids(procs, cs[0], depth, visited);
        if depth < MAX_DEPTH {
          WalkPlacesOnce(procs, ChildrenOf(procs, cs[0]), depth + 1, visited + {cs[0]});
        }
        var order := [cs[0]] + kids.order;
        var rest := Grow(procs, cs[1..], depth, visited + Elements(order));
        WalkPlacesOnce(procs, cs[1..], depth, visited + Elements(order));
        DistinctAppend([cs[0]], kids.order);
        ElementsAppend([cs[0]], kids.order);
        DistinctAppend(order, rest.order);
        ElementsAppend(order, rest.order);
        ElementsAppend([cs[0]], cs[1..]);
        assert [cs[0]] + cs[1..] == cs;
      }
    }
  }

  lemma {:induction false} RowsFollowOrder(procs: seq<ProcessInfo>, cs: seq<nat>, depth: nat, visited: set<nat>)
    requires depth <= MAX_DEPTH && InRange(procs, cs)
    ensures RowsFollow(procs, Grow(procs, cs, depth, visited))
    decreases MAX_DEPTH - depth, |cs|
  {
    hide Under;
    if cs != [] {
      if cs[0] in visited {
        RowsFollowOrder(procs, cs[1..], depth, visited);
      } else {
        if depth < MAX_DEPTH {
          RowsFollowOrder(procs, ChildrenOf(procs, cs[0]), depth + 1, visited + {cs[0]});
        }
        var kids := Kids(procs, cs[0], depth, visited);
        var order := [cs[0]] + kids.order;
        RowsFollowOrder(procs, cs[1..], depth, visited + Elements(order));
        FirstIsTaken(procs, cs, depth, visited);
        var rest := Grow(procs, cs[1..], depth, visited + Elements(order));
        RowsJoin(procs, cs[0], depth, kids, rest);
      }
    }
  }

  /** `g`'s rows show the processes `g` placed, in that order. */
  ghost predicate RowsFollow(procs: seq<ProcessInfo>, g: Grown)
    requires InRange(procs, g.order)
  {
    && |Flatten(g.nodes)| == |g.order|
    && forall k :: 0 <= k < |g.order| ==> Flatten(g.nodes)[k].0 == procs[g.order[k]]
  }

  lemma RowsJoin(procs: seq<ProcessInfo>, c: nat, depth: nat, kids: Grown, rest: Grown)
    requires c < |procs| && InRange(procs, kids.order) && InRange(procs, rest.order)
    requires RowsFollow(procs, kids) && RowsFollow(procs, rest)
    ensures RowsFollow(procs, Grown([TreeNode(procs[c], kids.nodes, depth)] + rest.nodes, [c] + kids.order + rest.order))
  {
    hide Flatten;
    FlattensOne(TreeNode(procs[c], kids.nodes, depth), rest.nodes);
  }

  lemma {:induction false} FlattenAppends(a: seq<TreeNode>, b: seq<TreeNode>)
    ensures Flatten(a + b) == Flatten(a) + Flatten(b)
  {
    if a == [] {
      assert a + b == b;
    } else {
      FlattenAppends(a[1..], b);
      assert (a + b)[1..] == a[1..] + b && (a + b)[0] == a[0];
      assert Flatten(a + b) == [(a[0].process, a[0].depth)] + Flatten(a[0].children) + Flatten(a[1..] + b);
    }
  }

  ghost function PlacedOrder(procs: seq<ProcessInfo>): (order: seq<nat>)
    ensures InRange(procs, order)
  {
    FromRoots(procs).order + Rerooted(procs).order
  }

  lemma PlacedOrderIsComplete(procs: seq<ProcessInfo>)
    ensures IsIndexOrder(PlacedOrder(procs), |procs|)
  {
    var a, b := FromRoots(procs).order, Rerooted(procs).order;
    WalkPlacesOnce(procs, Roots(procs), 0, {});
    WalkPlacesOnce(procs, Indices(|procs|), 0, Elements(a));
    DistinctAppend(a, b);
    ElementsAppend(a, b);
    forall i: nat | i < |procs| ensures i in PlacedOrder(procs) {
      assert Indices(|procs|)[i] in Elements(Indices(|procs|));
    }
  }

  lemma RowsFollowPlacedOrder(procs: seq<ProcessInfo>)
    ensures |Flatten(Forest(procs))| == |PlacedOrder(procs)|
    ensures forall k :: 0 <= k < |PlacedOrder(procs)| ==> Flatten(Forest(procs))[k].0 == procs[PlacedOrder(procs)[k]]
  {
    RowsFollowOrder(procs, Roots(procs), 0, {});
    RowsFollowOrder(procs, Indices(|procs|), 0, Elements(FromRoots(procs).order));
    FlattenAppends(FromRoots(procs).nodes, Rerooted(procs).nodes);
  }

  /**
    Conservation, for every process list whatever its parent links: the flattened
    forest is the input, rearranged. Nothing is dropped and nothing is doubled.
  */
  lemma EveryProcessOnce(procs: seq<ProcessInfo>)
    ensures |Flatten(Forest(procs))| == |procs|
    ensures multiset(Processes(Flatten(Forest(procs)))) == multiset(procs)
  {
    hide PlacedOrder, Forest, Flatten;
    PlacedOrderIsComplete(procs);
    RowsFollowPlacedOrder(procs);
    IndexPermutation(procs, PlacedOrder(procs), Processes(Flatten(Forest(procs))));
  }

  // ------------------------------------------------------------------- shape

  /** Depths are path lengths within the bound and every child names its parent. */
  ghost predicate Shaped(nodes: seq<TreeNode>, depth: nat, parent: Option<nat>) {
    forall i :: 0 <= i < |nodes| ==>
                  && nodes[i].depth == depth <= MAX_DEPTH
                  && (parent.Some? ==> nodes[i].process.parentPid == parent)
                  && Shaped(nodes[i].children, depth + 1, Some(nodes[i].process.pid))
  }

  lemma {:induction false} WalkIsShaped(
    procs: seq<ProcessInfo>, cs: seq<nat>, depth: nat, visited: set<nat>, parent: Option<nat>)
    requires depth <= MAX_DEPTH && InRange(procs, cs)
    requires parent.Some? ==> forall c :: c in cs ==> procs[c].parentPid == parent
    ensures Shaped(Grow(procs, cs, depth, visited).nodes, depth, parent)
    decreases MAX_DEPTH - depth, |cs|
  {
    if cs != [] {
      if cs[0] in visited {
        WalkIsShaped(procs, cs[1..], depth, visited, parent);
      } else {
        var kids := Kids(procs, cs[0], depth, visited);
        if depth < MAX_DEPTH {
          WalkIsShaped(procs, ChildrenOf(procs, cs[0]), depth + 1, visited + {cs[0]}, Some(procs[cs[0]].pid));
        }
        WalkIsShaped(procs, cs[1..], depth, visited + Elements([cs[0]] + kids.order), parent);
      }
    }
  }

  /** Depth is the path length, at most `MAX_DEPTH`, and children sit under the process they name. */
  lemma ForestIsShaped(procs: seq<ProcessInfo>)
    ensures Shaped(Forest(procs), 0, None)
  {
    WalkIsShaped(procs, Roots(procs), 0, {}, None);
    WalkIsShaped(procs, Indices(|procs|), 0, Elements(FromRoots(procs).order), None);
  }

  /** Reads a depth-first listing back: the trees at `depth`, and the rows after them. */
  function Rebuild(rows: seq<Row>, depth: nat): (r: (seq<TreeNode>, seq<Row>))
    ensures |r.1| <= |rows|
    decreases |rows|
  {
    if rows == [] || rows[0].1 != depth then ([], rows)
    else
      var (kids, after) := Rebuild(rows[1..], depth + 1);
      var (siblings, rest) := Rebuild(after, depth);
      ([TreeNode(rows[0].0, kids, depth)] + siblings, rest)
  }

  lemma {:induction false} RebuildInverts(nodes: seq<TreeNode>, depth: nat, parent: Option<nat>, rest: seq<Row>)
    requires Shaped(nodes, depth, parent)
    requires rest == [] || rest[0].1 < depth
    ensures Rebuild(Flatten(nodes) + rest, depth) == (nodes, rest)
    decreases nodes
  {
    if nodes == [] {
      assert Flatten(nodes) + rest == rest;
    } else {
      var n := nodes[0];
      var after := Flatten(nodes[1..]) + rest;
      RebuildInverts(nodes[1..], depth, parent, rest);
      StartsShallow(nodes[1..], depth, parent, rest);
      RebuildInverts(n.children, depth + 1, Some(n.process.pid), after);
      RebuildsOne(n, nodes[1..], rest);
      assert [n] + nodes[1..] == nodes;
    }
  }

  lemma StartsShallow(nodes: seq<TreeNode>, depth: nat, parent: Option<nat>, rest: seq<Row>)
    requires Shaped(nodes, depth, parent)
    requires rest == [] || rest[0].1 < depth
    ensures var rows := Flatten(nodes) + rest; rows == [] || rows[0].1 <= depth
  {
  }

  lemma RebuildsOne(n: TreeNode, siblings: seq<TreeNode>, rest: seq<Row>)
    requires var after := Flatten(siblings) + rest;
             && Rebuild(after, n.depth) == (siblings, rest)
             && Rebuild(Flatten(n.children) + after, n.depth + 1) == (n.children, after)
    ensures Rebuild(Flatten([n] + siblings) + rest, n.depth) == ([n] + siblings, rest)
  {
    hide Flatten, Rebuild;
    var after := Flatten(siblings) + rest;
    var below := Flatten(n.children) + after;
    FlattensOne(n, siblings);
    assert Flatten([n] + siblings) + rest == [(n.process, n.depth)] + below;
    RebuildsHead(n.process, n.depth, below, n.children, after, siblings, rest);
    assert n == TreeNode(n.process, n.children, n.depth);
  }

  lemma RebuildsHead(
    p: ProcessInfo, depth: nat, below: seq<Row>, kids: seq<TreeNode>, after: seq<Row>,
    siblings: seq<TreeNode>, rest: seq<Row>)
    requires Rebuild(below, depth + 1) == (kids, after) && Rebuild(after, depth) == (siblings, rest)
    ensures Rebuild([(p, depth)] + below, depth) == ([TreeNode(p, kids, depth)] + siblings, rest)
  {
    assert ([(p, depth)] + below)[1..] == below;
  }

  lemma FlattensOne(n: TreeNode, siblings: seq<TreeNode>)
    ensures Flatten([n] + siblings) == [(n.process, n.depth)] + Flatten(n.children) + Flatten(siblings)
  {
    assert ([n] + siblings)[1..] == siblings;
  }

  /** The (process, depth) rows determine the forest. */
  lemma FlattenIsInvertible(procs: seq<ProcessInfo>)
    ensures Rebuild(Flatten(Forest(procs)), 0) == (Forest(procs), [])
  {
    ForestIsShaped(procs);
    RebuildInverts(Forest(procs), 0, None, []);
    assert Flatten(Forest(procs)) + [] == Flatten(Forest(procs));
  }

  // --------------------------------------------------------------- exactness

  /** The forest a reader expects: each process over all of its children, no bookkeeping. */
  ghost function Ideal(procs: seq<ProcessInfo>, cs: seq<nat>, depth: nat): seq<TreeNode>
    requires depth <= MAX_DEPTH && InRange(procs, cs)
    decreases MAX_DEPTH - depth, |cs|
  {
    if cs == [] then []
    else
      var kids := if depth < MAX_DEPTH then Ideal(procs, ChildrenOf(procs, cs[0]), depth + 1) else [];
      [TreeNode(procs[cs[0]], kids, depth)] + Ideal(procs, cs[1..], depth)
  }

  ghost predicate DistinctPids(procs: seq<ProcessInfo>) {
    forall i, j :: 0 <= i < j < |procs| ==> procs[i].pid != procs[j].pid
  }

  ghost function Parent(procs: seq<ProcessInfo>, i: nat): (p: nat)
    requires i < |procs| && ListedParent(procs, i).Some?
    ensures p < |procs| && ListedParent(procs, i) == Some(procs[p].pid)
  {
    var p :| 0 <= p < |procs| && procs[p].pid == ListedParent(procs, i).value;
    p
  }

  /** Following parent links from `i` reaches a root in exactly `level` steps. */
  ghost predicate AtLevel(procs: seq<ProcessInfo>, i: nat, level: nat)
    requires i < |procs|
    decreases level
  {
    if level == 0 then ListedParent(procs, i).None?
    else ListedParent(procs, i).Some? && AtLevel(procs, Parent(procs, i), level - 1)
  }

  /** No cycle above `i` and an ancestor chain of at most `MAX_DEPTH` links. */
  ghost predicate WithinReach(procs: seq<ProcessInfo>, i: nat)
    requires i < |procs|
  {
    exists level :: 0 <= level <= MAX_DEPTH && AtLevel(procs, i, level)
  }

  ghost function Ancestor(procs: seq<ProcessInfo>, i: nat, level: nat, up: nat): (a: nat)
    requires i < |procs| && up <= level && AtLevel(procs, i, level)
    ensures a < |procs| && AtLevel(procs, a, level - up)
    decreases up
  {
    if up == 0 then i else Ancestor(procs, Parent(procs, i), level - 1, up - 1)
  }

  lemma {:induction false} LevelIsUnique(procs: seq<ProcessInfo>, i: nat, l1: nat, l2: nat)
    requires i < |procs| && AtLevel(procs, i, l1) && AtLevel(procs, i, l2)
    ensures l1 == l2
    decreases l1
  {
    if l1 > 0 && l2 > 0 {
      LevelIsUnique(procs, Parent(procs, i), l1 - 1, l2 - 1);
    }
  }

  /** One more step up goes through the parent of where we were. */
  lemma {:induction false} AncestorSteps(procs: seq<ProcessInfo>, i: nat, level: nat, up: nat)
    requires i < |procs| && up < level && AtLevel(procs, i, level)
    ensures ListedParent(procs, Ancestor(procs, i, level, up)).Some?
    ensures Ancestor(procs, i, level, up + 1) == Parent(procs, Ancestor(procs, i, level, up))
    decreases up
  {
    if up > 0 {
      AncestorSteps(procs, Parent(procs, i), level - 1, up - 1);
    }
  }

  /** `v` lies in the subtree of some candidate, all candidates being at `depth`. */
  ghost predicate Below(procs: seq<ProcessInfo>, cs: seq<nat>, depth: nat, v: nat)
    requires v < |procs|
  {
    exists level :: depth <= level && AtLevel(procs, v, level) && Ancestor(procs, v, level, level - depth) in cs
  }

  /** The walk is about to enter fresh ground: candidates at one level, nothing below them visited. */
  ghost predicate Fresh(procs: seq<ProcessInfo>, cs: seq<nat>, depth: nat, visited: set<nat>)
    requires InRange(procs, cs)
  {
    && Distinct(cs)
    && (forall c :: c in cs ==> AtLevel(procs, c, depth))
    && (forall v :: v in visited ==> v < |procs| && !Below(procs, cs, depth, v))
  }

  lemma ParentOfChild(procs: seq<ProcessInfo>, c: nat, k: nat)
    requires DistinctPids(procs) && c < |procs| && k in ChildrenOf(procs, c)
    ensures Parent(procs, k) == c
  {
    var p := Parent(procs, k);
    assert procs[p].pid == procs[c].pid;
  }

  lemma ChildIsBelow(procs: seq<ProcessInfo>, c: nat, depth: nat, v: nat)
    requires DistinctPids(procs) && c < |procs| && v < |procs| && AtLevel(procs, c, depth)
    requires Below(procs, ChildrenOf(procs, c), depth + 1, v)
    ensures Below(procs, [c], depth, v) && v != c
  {
    hide Below, DistinctPids, AtLevel, ListedParent, Ancestor, ChildrenOf;
    var level := LevelBelow(procs, ChildrenOf(procs, c), depth + 1, v);
    ChildIsBelowAt(procs, c, v, level, level - (depth + 1));
    if v == c {
      LevelIsUnique(procs, c, level, depth);
    }
    IsBelow(procs, [c], depth, v, level);
  }

  lemma LevelBelow(procs: seq<ProcessInfo>, cs: seq<nat>, depth: nat, v: nat) returns (level: nat)
    requires v < |procs| && Below(procs, cs, depth, v)
    ensures depth <= level && AtLevel(procs, v, level) && Ancestor(procs, v, level, level - depth) in cs
  {
    level :| depth <= level && AtLevel(procs, v, level) && Ancestor(procs, v, level, level - depth) in cs;
  }

  lemma IsBelow(procs: seq<ProcessInfo>, cs: seq<nat>, depth: nat, v: nat, level: nat)
    requires v < |procs| && depth <= level && AtLevel(procs, v, level)
    requires Ancestor(procs, v, level, level - depth) in cs
    ensures Below(procs, cs, depth, v)
  {
  }

  lemma ChildIsBelowAt(procs: seq<ProcessInfo>, c: nat, v: nat, level: nat, up: nat)
    requires DistinctPids(procs) && c < |procs| && v < |procs| && up < level && AtLevel(procs, v, level)
    requires Ancestor(procs, v, level, up) in ChildrenOf(procs, c)
    ensures Ancestor(procs, v, level, up + 1) == c
  {
    hide HasPid, AtLevel, ListedParent;
    AncestorSteps(procs, v, level, up);
    ParentOfChild(procs, c, Ancestor(procs, v, level, up));
  }

  lemma SelfIsBelow(procs: seq<ProcessInfo>, cs: seq<nat>, depth: nat, c: nat)
    requires c < |procs| && c in cs && AtLevel(procs, c, depth)
    ensures Below(procs, cs, depth, c)
  {
    assert Ancestor(procs, c, depth, 0) == c;
  }

  lemma KidsAreFresh(procs: seq<ProcessInfo>, cs: seq<nat>, depth: nat, visited: set<nat>)
    requires DistinctPids(procs) && InRange(procs, cs) && cs != [] && Fresh(procs, cs, depth, visited)
    ensures cs[0] !in visited
    ensures Fresh(procs, ChildrenOf(procs, cs[0]), depth + 1, visited + {cs[0]})
  {
    var c := cs[0];
    var kids := ChildrenOf(procs, c);
    SelfIsBelow(procs, cs, depth, c);
    forall k | k in kids ensures AtLevel(procs, k, depth + 1) {
      assert Parent(procs, k) == c;
    }
    forall v | v in visited + {c} ensures v < |procs| && !Below(procs, kids, depth + 1, v) {
      if Below(procs, kids, depth + 1, v) {
        ChildIsBelow(procs, c, depth, v);
        assert Below(procs, cs, depth, v);
      }
    }
  }

  lemma BelowIsDisjoint(procs: seq<ProcessInfo>, cs: seq<nat>, depth: nat, v: nat)
    requires InRange(procs, cs) && cs != [] && Distinct(cs) && v < |procs| && Below(procs, cs[..1], depth, v)
    ensures !Below(procs, cs[1..], depth, v)
  {
    var l1 :| depth <= l1 && AtLevel(procs, v, l1) && Ancestor(procs, v, l1, l1 - depth) in cs[..1];
    if Below(procs, cs[1..], depth, v) {
      var l2 :| depth <= l2 && AtLevel(procs, v, l2) && Ancestor(procs, v, l2, l2 - depth) in cs[1..];
      LevelIsUnique(procs, v, l1, l2);
      assert false;
    }
  }

  lemma FreshTail(procs: seq<ProcessInfo>, cs: seq<nat>, depth: nat, visited: set<nat>, placed: seq<nat>)
    requires DistinctPids(procs) && InRange(procs, cs) && cs != [] && Fresh(procs, cs, depth, visited)
    requires InRange(procs, placed) && forall v :: v in placed ==> Below(procs, ChildrenOf(procs, cs[0]), depth + 1, v)
    ensures forall v :: v in [cs[0]] + placed ==> Below(procs, cs, depth, v)
    ensures Fresh(procs, cs[1..], depth, visited + Elements([cs[0]] + placed))
  {
    var c := cs[0];
    assert cs[..1] == [c];
    forall v | v in [c] + placed ensures Below(procs, cs, depth, v) && !Below(procs, cs[1..], depth, v) {
      if v == c {
        SelfIsBelow(procs, [c], depth, c);
      } else {
        ChildIsBelow(procs, c, depth, v);
      }
      BelowIsDisjoint(procs, cs, depth, v);
      assert Below(procs, cs, depth, v);
    }
    forall v | v in visited + Elements([c] + placed) ensures v < |procs| && !Below(procs, cs[1..], depth, v) {
      if v in visited && Below(procs, cs[1..], depth, v) {
        assert Below(procs, cs, depth, v);
      }
    }
  }

  /** On fresh ground `visited` never matters: the walk yields the ideal trees and stays below its candidates. */
  lemma {:induction false} FreshWalkIsIdeal(procs: seq<ProcessInfo>, cs: seq<nat>, depth: nat, visited: set<nat>)
    requires DistinctPids(procs) && depth <= MAX_DEPTH && InRange(procs, cs) && Fresh(procs, cs, depth, visited)
    ensures Grow(procs, cs, depth, visited).nodes == Ideal(procs, cs, depth)
    ensures forall v :: v in Grow(procs, cs, depth, visited).order ==> Below(procs, cs, depth, v)
    decreases MAX_DEPTH - depth, |cs|
  {
    if cs != [] {
      KidsAreFresh(procs, cs, depth, visited);
      if depth < MAX_DEPTH {
        FreshWalkIsIdeal(procs, ChildrenOf(procs, cs[0]), depth + 1, visited + {cs[0]});
      }
      var placed := Kids(procs, cs[0], depth, visited).order;
      FreshTail(procs, cs, depth, visited, placed);
      FreshWalkIsIdeal(procs, cs[1..], depth, visited + Elements([cs[0]] + placed));
      BelowWidens(procs, cs, depth);
    }
  }

  lemma BelowWidens(procs: seq<ProcessInfo>, cs: seq<nat>, depth: nat)
    requires cs != []
    ensures forall v: nat :: v < |procs| && Below(procs, cs[1..], depth, v) ==> Below(procs, cs, depth, v)
  {
    forall v: nat | v < |procs| && Below(procs, cs[1..], depth, v) ensures Below(procs, cs, depth, v) {
      var level :| depth <= level && AtLevel(procs, v, level) && Ancestor(procs, v, level, level - depth) in cs[1..];
      assert Ancestor(procs, v, level, level - depth) in cs;
    }
  }

  /** A chain of parents that comes to `c` is at `c` already or comes through a child of `c`. */
  lemma ChainEntersBelow(procs: seq<ProcessInfo>, v: nat, level: nat, depth: nat, c: nat)
    requires v < |procs| && depth <= level && AtLevel(procs, v, level)
    requires Ancestor(procs, v, level, level - depth) == c
    ensures if level == depth then v == c else Ancestor(procs, v, level, level - (depth + 1)) in ChildrenOf(procs, c)
  {
    hide HasPid, ListedParent, AtLevel;
    if level > depth {
      AncestorSteps(procs, v, level, level - depth - 1);
    }
  }

  /** On fresh ground everything below a candidate and within `MAX_DEPTH` is placed. */
  lemma {:induction false} FreshWalkReaches(
    procs: seq<ProcessInfo>, cs: seq<nat>, depth: nat, visited: set<nat>, v: nat, level: nat)
    requires DistinctPids(procs) && depth <= MAX_DEPTH && InRange(procs, cs) && Fresh(procs, cs, depth, visited)
    requires v < |procs| && depth <= level <= MAX_DEPTH && AtLevel(procs, v, level)
    requires Ancestor(procs, v, level, level - depth) in cs
    ensures v in Grow(procs, cs, depth, visited).order
    decreases MAX_DEPTH - depth, |cs|
  {
    hide HasPid, ListedParent, Under, Fresh, Below, Grow, Kids, Ancestor, AtLevel, DistinctPids;
    var c := cs[0];
    KidsAreFresh(procs, cs, depth, visited);
    FirstIsTaken(procs, cs, depth, visited);
    if depth < MAX_DEPTH {
      FreshWalkIsIdeal(procs, ChildrenOf(procs, c), depth + 1, visited + {c});
    }
    var placed := Kids(procs, c, depth, visited).order;
    if Ancestor(procs, v, level, level - depth) == c {
      ChainEntersBelow(procs, v, level, depth, c);
      if level > depth {
        FreshWalkReaches(procs, ChildrenOf(procs, c), depth + 1, visited + {c}, v, level);
      }
      assert v in [c] + placed;
    } else {
      FreshTail(procs, cs, depth, visited, placed);
      FreshWalkReaches(procs, cs[1..], depth, visited + Elements([c] + placed), v, level);
    }
  }

  lemma RootsAreFresh(procs: seq<ProcessInfo>)
    ensures Fresh(procs, Roots(procs), 0, {})
  {
  }

  /** With distinct PIDs the root walk places exactly the processes within reach of a root. */
  lemma RootWalkReaches(procs: seq<ProcessInfo>, i: nat)
    requires DistinctPids(procs) && i < |procs|
    ensures i in FromRoots(procs).order <==> WithinReach(procs, i)
  {
    FreshWalkIsIdeal(procs, Roots(procs), 0, {});
    if WithinReach(procs, i) {
      var level :| 0 <= level <= MAX_DEPTH && AtLevel(procs, i, level);
      assert AtLevel(procs, Ancestor(procs, i, level, level), 0);
      FreshWalkReaches(procs, Roots(procs), 0, {}, i, level);
    }
    if i in FromRoots(procs).order {
      PlacedIsWithinReach(procs, Roots(procs), 0, {}, i);
    }
  }

  lemma CandidateIsWithinReach(procs: seq<ProcessInfo>, cs: seq<nat>, depth: nat, visited: set<nat>)
    requires depth <= MAX_DEPTH && InRange(procs, cs) && cs != [] && Fresh(procs, cs, depth, visited)
    ensures WithinReach(procs, cs[0])
  {
    hide AtLevel, Below;
    assert AtLevel(procs, cs[0], depth);
  }

  /** Whatever a fresh walk places lies within `MAX_DEPTH` links of a root. */
  lemma {:induction false} PlacedIsWithinReach(
    procs: seq<ProcessInfo>, cs: seq<nat>, depth: nat, visited: set<nat>, v: nat)
    requires DistinctPids(procs) && depth <= MAX_DEPTH && InRange(procs, cs) && Fresh(procs, cs, depth, visited)
    requires v in Grow(procs, cs, depth, visited).order
    ensures WithinReach(procs, v)
    decreases MAX_DEPTH - depth, |cs|
  {
    hide HasPid, AtLevel, ListedParent, Below, Under, Fresh, WithinReach, DistinctPids, Kids;
    var c := cs[0];
    KidsAreFresh(procs, cs, depth, visited);
    FirstIsTaken(procs, cs, depth, visited);
    hide Grow;
    if depth < MAX_DEPTH {
      FreshWalkIsIdeal(procs, ChildrenOf(procs, c), depth + 1, visited + {c});
    }
    var placed := Kids(procs, c, depth, visited).order;
    if v == c {
      CandidateIsWithinReach(procs, cs, depth, visited);
    } else if v in placed {
      PlacedIsWithinReach(procs, ChildrenOf(procs, c), depth + 1, visited + {c}, v);
    } else {
      FreshTail(procs, cs, depth, visited, placed);
      PlacedIsWithinReach(procs, cs[1..], depth, visited + Elements([c] + placed), v);
    }
  }

  lemma {:induction false} WalkIsIdleIff(procs: seq<ProcessInfo>, cs: seq<nat>, depth: nat, visited: set<nat>)
    requires depth <= MAX_DEPTH && InRange(procs, cs)
    ensures Grow(procs, cs, depth, visited).nodes == [] <==> Elements(cs) <= visited
    decreases |cs|
  {
    if cs != [] {
      assert Elements(cs) == {cs[0]} + Elements(cs[1..]);
      if cs[0] in visited {
        WalkIsIdleIff(procs, cs[1..], depth, visited);
      }
    }
  }

  /**
    Exactness. When PIDs are distinct, the forest is the ideal one over the
    parentless and orphan processes in input order, if and only if no process
    sits in or under a cycle or deeper than `MAX_DEPTH`.
  */
  lemma ForestIsIdeal(procs: seq<ProcessInfo>)
    requires DistinctPids(procs)
    ensures Forest(procs) == Ideal(procs, Roots(procs), 0) <==>
            forall i :: 0 <= i < |procs| ==> WithinReach(procs, i)
  {
    hide Grow, Ideal, WithinReach;
    RootsAreFresh(procs);
    FreshWalkIsIdeal(procs, Roots(procs), 0, {});
    NothingRerootedIff(procs);
    forall i | 0 <= i < |procs| ensures i in FromRoots(procs).order <==> WithinReach(procs, i) {
      RootWalkReaches(procs, i);
    }
    var extra := Rerooted(procs).nodes;
    if extra == [] {
      assert Forest(procs) == FromRoots(procs).nodes + [];
    } else {
      assert |Forest(procs)| > |FromRoots(procs).nodes|;
    }
  }

  lemma NothingRerootedIff(procs: seq<ProcessInfo>)
    ensures Rerooted(procs).nodes == [] <==> forall i :: 0 <= i < |procs| ==> i in FromRoots(procs).order
  {
    hide Grow;
    var all_, placed := Indices(|procs|), FromRoots(procs).order;
    WalkIsIdleIff(procs, all_, 0, Elements(placed));
    forall i | 0 <= i < |procs| ensures i in all_ {
      assert all_[i] == i;
    }
    if Elements(all_) <= Elements(placed) {
      forall i | 0 <= i < |procs| ensures i in placed {
        assert i in Elements(all_);
      }
    }
    if forall i :: 0 <= i < |procs| ==> i in placed {
      assert forall i :: i in Elements(all_) ==> i in Elements(placed);
    }
  }

  // -------------------------------------------------------------- the builder

  ghost function Marked(visited: array<bool>): set<nat>
    reads visited
  {
    set i: nat | i < visited.Length && visited[i]
  }

  /** The index pid -> children, with an entry for every parent that has a child. */
  ghost predicate IsChildrenMap(procs: seq<ProcessInfo>, m: map<nat, seq<nat>>, n: nat)
    requires n <= |procs|
  {
    forall pid: nat :: (if pid in m then m[pid] else []) == Under(procs, Some(pid), n)
  }

  /** Roots are nobody's children, so the walk below other candidates never places one. */
  lemma {:induction false} RootsAreNotPlaced(procs: seq<ProcessInfo>, cs: seq<nat>, depth: nat, visited: set<nat>)
    requires depth <= MAX_DEPTH && InRange(procs, cs)
    ensures forall x :: x in Grow(procs, cs, depth, visited).order ==> x in cs || ListedParent(procs, x).Some?
    decreases MAX_DEPTH - depth, |cs|
  {
    if cs != [] {
      if cs[0] in visited {
        RootsAreNotPlaced(procs, cs[1..], depth, visited);
      } else {
        if depth < MAX_DEPTH {
          RootsAreNotPlaced(procs, ChildrenOf(procs, cs[0]), depth + 1, visited + {cs[0]});
        }
        var order := [cs[0]] + Kids(procs, cs[0], depth, visited).order;
        RootsAreNotPlaced(procs, cs[1..], depth, visited + Elements(order));
      }
    }
  }

  lemma WalkTakes(procs: seq<ProcessInfo>, cs: seq<nat>, k: nat, depth: nat, visited: set<nat>)
    requires depth <= MAX_DEPTH && InRange(procs, cs) && k < |cs| && cs[k] !in visited
    ensures var kids := Kids(procs, cs[k], depth, visited);
            var visited' := visited + {cs[k]} + Elements(kids.order);
            var g, rest := Grow(procs, cs[k..], depth, visited), Grow(procs, cs[k + 1..], depth, visited');
            && g.nodes == [TreeNode(procs[cs[k]], kids.nodes, depth)] + rest.nodes
            && visited + Elements(g.order) == visited' + Elements(rest.order)
  {
    assert cs[k..][1..] == cs[k + 1..];
    var kids := Kids(procs, cs[k], depth, visited);
    assert visited + Elements([cs[k]] + kids.order) == visited + {cs[k]} + Elements(kids.order);
  }

  /** `done` trees so far, the walk of `cs[k..]` from `visited` on still to come, `g` from `start` in all. */
  ghost predicate Underway(
    procs: seq<ProcessInfo>, cs: seq<nat>, k: nat, depth: nat, visited: set<nat>,
    done: seq<TreeNode>, start: set<nat>, g: Grown)
    requires depth <= MAX_DEPTH && InRange(procs, cs) && k <= |cs|
  {
    var rest := Grow(procs, cs[k..], depth, visited);
    g.nodes == done + rest.nodes && visited + Elements(rest.order) == start + Elements(g.order)
  }

  lemma UnderwayStarts(procs: seq<ProcessInfo>, cs: seq<nat>, depth: nat, visited: set<nat>)
    requires depth <= MAX_DEPTH && InRange(procs, cs)
    ensures Underway(procs, cs, 0, depth, visited, [], visited, Grow(procs, cs, depth, visited))
  {
    assert cs[0..] == cs;
  }

  lemma UnderwaySkips(
    procs: seq<ProcessInfo>, cs: seq<nat>, k: nat, depth: nat, visited: set<nat>,
    done: seq<TreeNode>, start: set<nat>, g: Grown)
    requires depth <= MAX_DEPTH && InRange(procs, cs) && k < |cs| && cs[k] in visited
    requires Underway(procs, cs, k, depth, visited, done, start, g)
    ensures Underway(procs, cs, k + 1, depth, visited, done, start, g)
  {
    assert cs[k..][1..] == cs[k + 1..];
  }

  lemma UnderwayTakes(
    procs: seq<ProcessInfo>, cs: seq<nat>, k: nat, depth: nat, visited: set<nat>,
    done: seq<TreeNode>, start: set<nat>, g: Grown)
    requires depth <= MAX_DEPTH && InRange(procs, cs) && k < |cs| && cs[k] !in visited
    requires Underway(procs, cs, k, depth, visited, done, start, g)
    ensures var kids := Kids(procs, cs[k], depth, visited);
            Underway(procs, cs, k + 1, depth, visited + {cs[k]} + Elements(kids.order),
                     done + [TreeNode(procs[cs[k]], kids.nodes, depth)], start, g)
  {
    WalkTakes(procs, cs, k, depth, visited);
  }

  method BuildSubtree(
    idx: nat, depth: nat, procs: seq<ProcessInfo>, childrenMap: map<nat, seq<nat>>, visited: array<bool>)
    returns (node: TreeNode)
    requires visited.Length == |procs| && idx < |procs| && depth <= MAX_DEPTH
    requires IsChildrenMap(procs, childrenMap, |procs|)
    requires !visited[idx]
    modifies visited
    ensures var kids := Kids(procs, idx, depth, old(Marked(visited)));
            && node == TreeNode(procs[idx], kids.nodes, depth)
            && Marked(visited) == old(Marked(visited)) + {idx} + Elements(kids.order)
    decreases MAX_DEPTH - depth
  {
    hide Grow, Kids, Under, ListedParent, Underway;
    ghost var before := Marked(visited);
    visited[idx] := true;
    assert Marked(visited) == before + {idx};
    var children: seq<TreeNode> := [];
    KidsUnfolds(procs, idx, depth, before);
    if depth < MAX_DEPTH {
      var indices := if procs[idx].pid in childrenMap then childrenMap[procs[idx].pid] else [];
      assert indices == ChildrenOf(procs, idx);
      ghost var kids := Grow(procs, indices, depth + 1, before + {idx});
      UnderwayStarts(procs, indices, depth + 1, before + {idx});
      for k := 0 to |indices|
        invariant Underway(procs, indices, k, depth + 1, Marked(visited), children, before + {idx}, kids)
      {
        var ci := indices[k];
        if visited[ci] {
          UnderwaySkips(procs, indices, k, depth + 1, Marked(visited), children, before + {idx}, kids);
        } else {
          UnderwayTakes(procs, indices, k, depth + 1, Marked(visited), children, before + {idx}, kids);
          var child := BuildSubtree(ci, depth + 1, procs, childrenMap, visited);
          children := children + [child];
        }
      }
      UnderwayEnds(procs, indices, depth + 1, Marked(visited), children, before + {idx}, kids);
    }
    node := TreeNode(procs[idx], children, depth);
  }

  lemma KidsUnfolds(procs: seq<ProcessInfo>, i: nat, depth: nat, visited: set<nat>)
    requires depth <= MAX_DEPTH && i < |procs|
    ensures Kids(procs, i, depth, visited) ==
            if depth < MAX_DEPTH then Grow(procs, ChildrenOf(procs, i), depth + 1, visited + {i}) else Grown([], [])
  {
  }

  lemma UnderwayEnds(
    procs: seq<ProcessInfo>, cs: seq<nat>, depth: nat, visited: set<nat>,
    done: seq<TreeNode>, start: set<nat>, g: Grown)
    requires depth <= MAX_DEPTH && InRange(procs, cs)
    requires Underway(procs, cs, |cs|, depth, visited, done, start, g)
    ensures g.nodes == done && visited == start + Elements(g.order)
  {
    assert cs[|cs|..] == [];
  }

  method IndexChildren(procs: seq<ProcessInfo>, pidSet: set<nat>) returns (childrenMap: map<nat, seq<nat>>)
    requires forall pid: nat :: pid in pidSet <==> HasPid(procs, pid)
    ensures IsChildrenMap(procs, childrenMap, |procs|)
  {
    hide Under, HasPid;
    assert IsChildrenMap(procs, map[], 0) by {
      UnderNone(procs);
    }
    childrenMap := map[];
    for i := 0 to |procs|
      invariant IsChildrenMap(procs, childrenMap, i)
    {
      UnderGrows(procs, i);
      match procs[i].parentPid {
        case Some(ppid) =>
          if ppid > 0 && ppid in pidSet {
            childrenMap := childrenMap[ppid := (if ppid in childrenMap then childrenMap[ppid] else []) + [i]];
          }
        case None =>
      }
    }
  }

  lemma UnderNone(procs: seq<ProcessInfo>)
    ensures forall pid: nat :: Under(procs, Some(pid), 0) == []
  {
  }

  lemma UnderGrows(procs: seq<ProcessInfo>, i: nat)
    requires i < |procs|
    ensures forall pid: nat :: Under(procs, Some(pid), i + 1) ==
                               Under(procs, Some(pid), i) + if ListedParent(procs, i) == Some(pid) then [i] else []
  {
  }

  method FindRoots(procs: seq<ProcessInfo>, pidSet: set<nat>) returns (roots: seq<nat>)
    requires forall pid: nat :: pid in pidSet <==> HasPid(procs, pid)
    ensures roots == Roots(procs)
  {
    roots := [];
    for i := 0 to |procs|
      invariant roots == Under(procs, None, i)
    {
      var isRoot := match procs[i].parentPid
        case None => true
        case Some(ppid) => ppid == 0 || ppid !in pidSet;
      if isRoot {
        roots := roots + [i];
      }
    }
  }

  /** Placing one root leaves the other roots unvisited. */
  lemma RootSparesRoots(procs: seq<ProcessInfo>, k: nat, visited: set<nat>)
    requires k < |Roots(procs)|
    ensures forall j :: k < j < |Roots(procs)| ==>
                          Roots(procs)[j] !in {Roots(procs)[k]} + Elements(Kids(procs, Roots(procs)[k], 0, visited).order)
  {
    var ri := Roots(procs)[k];
    RootsAreNotPlaced(procs, ChildrenOf(procs, ri), 1, visited + {ri});
    forall j | k < j < |Roots(procs)| ensures Roots(procs)[j] !in {ri} + Elements(Kids(procs, ri, 0, visited).order) {
      assert Roots(procs)[j] in Roots(procs);
    }
  }

  method BuildProcessTree(procs: seq<ProcessInfo>) returns (forest: seq<TreeNode>)
    ensures forest == Forest(procs)
  {
    hide Grow, Kids, Under, Underway;
    if procs == [] {
      assert Forest(procs) == [] by {
        EveryProcessOnce(procs);
        FlattenIsInvertible(procs);
      }
      return [];
    }
    var pidSet := set p | p in procs :: p.pid;
    assert forall pid: nat :: pid in pidSet <==> HasPid(procs, pid);
    var childrenMap := IndexChildren(procs, pidSet);
    var roots := FindRoots(procs, pidSet);
    var visited := new bool[|procs|](_ => false);
    assert Marked(visited) == {};

    forest := [];
    ghost var first := FromRoots(procs);
    UnderwayStarts(procs, roots, 0, {});
    for k := 0 to |roots|
      invariant Underway(procs, roots, k, 0, Marked(visited), forest, {}, first)
      invariant forall j :: k <= j < |roots| ==> roots[j] !in Marked(visited)
    {
      RootSparesRoots(procs, k, Marked(visited));
      UnderwayTakes(procs, roots, k, 0, Marked(visited), forest, {}, first);
      var node := BuildSubtree(roots[k], 0, procs, childrenMap, visited);
      forest := forest + [node];
    }
    UnderwayEnds(procs, roots, 0, Marked(visited), forest, {}, first);
    assert Marked(visited) == Elements(first.order);

    ghost var again: seq<TreeNode> := [];
    ghost var start := Marked(visited);
    ghost var second := Rerooted(procs);
    ghost var indices := Indices(|procs|);
    UnderwayStarts(procs, indices, 0, start);
    for idx := 0 to |procs|
      invariant forest == first.nodes + again
      invariant Underway(procs, indices, idx, 0, Marked(visited), again, start, second)
    {
      assert indices[idx] == idx;
      if visited[idx] {
        UnderwaySkips(procs, indices, idx, 0, Marked(visited), again, start, second);
      } else {
        UnderwayTakes(procs, indices, idx, 0, Marked(visited), again, start, second);
        var node := BuildSubtree(idx, 0, procs, childrenMap, visited);
        forest := forest + [node];
        again := again + [node];
      }
    }
    UnderwayEnds(procs, indices, 0, Marked(visited), again, start, second);
  }

  method Walk(node: TreeNode, out: seq<Row>) returns (out': seq<Row>)
    ensures out' == out + [(node.process, node.depth)] + Flatten(node.children)
    decreases node
  {
    out' := out + [(node.process, node.depth)];
    out' := WalkAll(node.children, out');
  }

  /** The loop over siblings, or over the roots. */
  method WalkAll(nodes: seq<TreeNode>, out: seq<Row>) returns (out': seq<Row>)
    ensures out' == out + Flatten(nodes)
    decreases nodes, 0
  {
    out' := out;
    var k := 0;
    assert nodes[0..] == nodes;
    while k < |nodes|
      invariant 0 <= k <= |nodes|
      invariant out' + Flatten(nodes[k..]) == out + Flatten(nodes)
    {
      assert nodes[k..][1..] == nodes[k + 1..];
      out' := Walk(nodes[k], out');
      k := k + 1;
    }
  }

  method FlattenTree(roots: seq<TreeNode>) returns (rows: seq<Row>)
    ensures rows == Flatten(roots)
  {
    rows := WalkAll(roots, []);
  }
}
