/**
  The process forest read off the records alone: who is at the top, and who sits
  directly under whom.
*/
module Family {
  import opened Basics
  import opened Process
  import opened ProcessTree

  /** No parent is named, or PID 0 is, or a PID that no process in the list has. */
  predicate IsParentless(procs: seq<ProcessInfo>, p: ProcessInfo) {
    || p.parentPid == None || p.parentPid == Some(0)
    || forall j :: 0 <= j < |procs| ==> p.parentPid != Some(procs[j].pid)
  }

  function Parentless(procs: seq<ProcessInfo>): seq<ProcessInfo> {
    Filter(procs, (p: ProcessInfo) => IsParentless(procs, p))
  }

  /** The processes that name `pid` as their parent, in list order; PID 0 has none. */
  function Offspring(procs: seq<ProcessInfo>, pid: nat): seq<ProcessInfo> {
    Filter(procs, (p: ProcessInfo) => pid > 0 && p.parentPid == Some(pid))
  }

  function Heads(nodes: seq<TreeNode>): seq<ProcessInfo> {
    seq(|nodes|, k requires 0 <= k < |nodes| => nodes[k].process)
  }

  /** Every node holds exactly its process's offspring, in list order, one level down. */
  ghost predicate FamilyTree(procs: seq<ProcessInfo>, nodes: seq<TreeNode>, depth: nat) {
    forall k :: 0 <= k < |nodes| ==>
                  && nodes[k].depth == depth
                  && Heads(nodes[k].children) == Offspring(procs, nodes[k].process.pid)
                  && FamilyTree(procs, nodes[k].children, depth + 1)
  }

  /** At most `links` steps from process to named parent lead to a parentless one. */
  ghost predicate Reaches(procs: seq<ProcessInfo>, i: nat, links: nat)
    requires i < |procs|
    decreases links
  {
    || IsParentless(procs, procs[i])
    || (links > 0 && exists p :: 0 <= p < |procs| && Names(procs, i, p) && Reaches(procs, p, links - 1))
  }

  predicate Names(procs: seq<ProcessInfo>, i: nat, p: nat)
    requires i < |procs| && p < |procs|
  {
    procs[p].pid > 0 && procs[i].parentPid == Some(procs[p].pid)
  }

  // ----------------------------------------------------- fields and parent links

  lemma ListedParentIsNamed(procs: seq<ProcessInfo>, i: nat)
    requires i < |procs|
    ensures ListedParent(procs, i) == None <==> IsParentless(procs, procs[i])
    ensures forall p :: 0 <= p < |procs| ==> (ListedParent(procs, i) == Some(procs[p].pid) <==> Names(procs, i, p))
  {
  }

  function Picked(procs: seq<ProcessInfo>, cs: seq<nat>): seq<ProcessInfo>
    requires forall k :: 0 <= k < |cs| ==> cs[k] < |procs|
  {
    seq(|cs|, k requires 0 <= k < |cs| => procs[cs[k]])
  }

  lemma {:induction false} RootsArePicked(procs: seq<ProcessInfo>, n: nat)
    requires n <= |procs|
    ensures Picked(procs, Under(procs, None, n)) == Filter(procs[..n], (p: ProcessInfo) => IsParentless(procs, p))
  {
    hide IsParentless, ListedParent;
    if n > 0 {
      RootsArePicked(procs, n - 1);
      ListedParentIsNamed(procs, n - 1);
      assert procs[..n][..n - 1] == procs[..n - 1];
    }
  }

  lemma {:induction false} ChildrenArePicked(procs: seq<ProcessInfo>, i: nat, n: nat)
    requires i < |procs| && n <= |procs|
    ensures var pid := procs[i].pid;
            Picked(procs, Under(procs, Some(pid), n)) ==
            Filter(procs[..n], (p: ProcessInfo) => pid > 0 && p.parentPid == Some(pid))
  {
    hide IsParentless, ListedParent;
    if n > 0 {
      ChildrenArePicked(procs, i, n - 1);
      ListedParentIsNamed(procs, n - 1);
      assert procs[..n][..n - 1] == procs[..n - 1];
    }
  }

  lemma RootsAreParentless(procs: seq<ProcessInfo>)
    ensures Picked(procs, Roots(procs)) == Parentless(procs)
  {
    RootsArePicked(procs, |procs|);
    assert procs[..|procs|] == procs;
  }

  lemma ChildrenAreOffspring(procs: seq<ProcessInfo>, i: nat)
    requires i < |procs|
    ensures Picked(procs, ChildrenOf(procs, i)) == Offspring(procs, procs[i].pid)
  {
    ChildrenArePicked(procs, i, |procs|);
    assert procs[..|procs|] == procs;
  }

  // -------------------------------------------------------------------- reach

  lemma {:induction false} LevelReaches(procs: seq<ProcessInfo>, i: nat, level: nat, links: nat)
    requires i < |procs| && level <= links && AtLevel(procs, i, level)
    ensures Reaches(procs, i, links)
    decreases level
  {
    hide IsParentless, ListedParent;
    ListedParentIsNamed(procs, i);
    if level > 0 {
      LevelReaches(procs, Parent(procs, i), level - 1, links - 1);
      assert Names(procs, i, Parent(procs, i));
    }
  }

  lemma {:induction false} ReachHasLevel(procs: seq<ProcessInfo>, i: nat, links: nat) returns (level: nat)
    requires DistinctPids(procs) && i < |procs| && Reaches(procs, i, links)
    ensures level <= links && AtLevel(procs, i, level)
    decreases links
  {
    hide IsParentless, ListedParent;
    ListedParentIsNamed(procs, i);
    if IsParentless(procs, procs[i]) {
      level := 0;
    } else {
      var p :| 0 <= p < |procs| && Names(procs, i, p) && Reaches(procs, p, links - 1);
      var up := ReachHasLevel(procs, p, links - 1);
      assert Parent(procs, i) == p;
      level := up + 1;
    }
  }

  lemma ReachIsWithin(procs: seq<ProcessInfo>, i: nat)
    requires DistinctPids(procs) && i < |procs|
    ensures Reaches(procs, i, 256) <==> WithinReach(procs, i)
  {
    hide Reaches, AtLevel;
    if Reaches(procs, i, 256) {
      var level := ReachHasLevel(procs, i, 256);
    }
    if WithinReach(procs, i) {
      var level :| 0 <= level <= MAX_DEPTH && AtLevel(procs, i, level);
      LevelReaches(procs, i, level, 256);
    }
  }

  // ------------------------------------------------------------ the family tree

  lemma {:induction false} IdealHeads(procs: seq<ProcessInfo>, cs: seq<nat>, depth: nat)
    requires depth <= MAX_DEPTH && InRange(procs, cs)
    ensures Heads(Ideal(procs, cs, depth)) == Picked(procs, cs)
    decreases |cs|
  {
    hide Ideal;
    if cs == [] {
      NoFamily(procs, depth);
    } else {
      IdealHeads(procs, cs[1..], depth);
      IdealTakes(procs, cs, depth);
      var others := Ideal(procs, cs[1..], depth);
      assert Heads(Ideal(procs, cs, depth)) == [procs[cs[0]]] + Heads(others);
      assert Picked(procs, cs) == [procs[cs[0]]] + Picked(procs, cs[1..]);
    }
  }

  /** A child of a process at one level is at the next. */
  lemma ChildLevel(procs: seq<ProcessInfo>, c: nat, k: nat, level: nat)
    requires DistinctPids(procs) && c < |procs| && AtLevel(procs, c, level) && k in ChildrenOf(procs, c)
    ensures AtLevel(procs, k, level + 1)
  {
    ParentOfChild(procs, c, k);
  }

  lemma DeepestHasNoChildren(procs: seq<ProcessInfo>, c: nat)
    requires DistinctPids(procs) && c < |procs| && AtLevel(procs, c, MAX_DEPTH)
    requires forall i :: 0 <= i < |procs| ==> WithinReach(procs, i)
    ensures ChildrenOf(procs, c) == []
  {
    hide AtLevel, ChildrenOf;
    var kids := ChildrenOf(procs, c);
    if kids != [] {
      var k := kids[0];
      ChildInRange(procs, c, k);
      ChildLevel(procs, c, k, MAX_DEPTH);
      assert WithinReach(procs, k);
      var level :| 0 <= level <= MAX_DEPTH && AtLevel(procs, k, level);
      LevelIsUnique(procs, k, level, MAX_DEPTH + 1);
    }
  }

  lemma ChildInRange(procs: seq<ProcessInfo>, c: nat, k: nat)
    requires c < |procs| && k in ChildrenOf(procs, c)
    ensures k < |procs|
  {
  }

  lemma {:induction false} IdealIsFamily(procs: seq<ProcessInfo>, cs: seq<nat>, depth: nat)
    requires DistinctPids(procs) && depth <= MAX_DEPTH && InRange(procs, cs)
    requires forall i :: 0 <= i < |procs| ==> WithinReach(procs, i)
    requires forall k :: 0 <= k < |cs| ==> AtLevel(procs, cs[k], depth)
    ensures FamilyTree(procs, Ideal(procs, cs, depth), depth)
    decreases MAX_DEPTH - depth, |cs|
  {
    hide AtLevel, WithinReach, DistinctPids, Offspring, Heads, FamilyTree, Ideal;
    if cs == [] {
      NoFamily(procs, depth);
    } else {
      var c := cs[0];
      var kids := KidsOf(procs, c, depth);
      assert InRange(procs, cs[1..]);
      IdealIsFamily(procs, cs[1..], depth);
      ChildrenAreOffspring(procs, c);
      if depth < MAX_DEPTH {
        forall k | 0 <= k < |ChildrenOf(procs, c)| ensures AtLevel(procs, ChildrenOf(procs, c)[k], depth + 1) {
          ChildLevel(procs, c, ChildrenOf(procs, c)[k], depth);
        }
        IdealIsFamily(procs, ChildrenOf(procs, c), depth + 1);
        IdealHeads(procs, ChildrenOf(procs, c), depth + 1);
      } else {
        DeepestHasNoChildren(procs, c);
        NoHeads(procs);
        NoFamily(procs, depth + 1);
      }
      IdealTakes(procs, cs, depth);
      FamilyJoins(procs, TreeNode(procs[c], kids, depth), Ideal(procs, cs[1..], depth), depth);
    }
  }

  ghost function KidsOf(procs: seq<ProcessInfo>, c: nat, depth: nat): seq<TreeNode>
    requires c < |procs| && depth <= MAX_DEPTH
  {
    if depth < MAX_DEPTH then Ideal(procs, ChildrenOf(procs, c), depth + 1) else []
  }

  lemma IdealTakes(procs: seq<ProcessInfo>, cs: seq<nat>, depth: nat)
    requires depth <= MAX_DEPTH && InRange(procs, cs) && cs != []
    ensures Ideal(procs, cs, depth) ==
            [TreeNode(procs[cs[0]], KidsOf(procs, cs[0], depth), depth)] + Ideal(procs, cs[1..], depth)
  {
  }

  lemma NoFamily(procs: seq<ProcessInfo>, depth: nat)
    ensures FamilyTree(procs, [], depth)
    ensures depth <= MAX_DEPTH ==> Ideal(procs, [], depth) == []
  {
  }

  lemma FamilyJoins(procs: seq<ProcessInfo>, n: TreeNode, others: seq<TreeNode>, depth: nat)
    requires n.depth == depth && Heads(n.children) == Offspring(procs, n.process.pid)
    requires FamilyTree(procs, n.children, depth + 1) && FamilyTree(procs, others, depth)
    ensures FamilyTree(procs, [n] + others, depth)
  {
    hide Heads, Offspring;
  }

  lemma NoHeads(procs: seq<ProcessInfo>)
    ensures Heads([]) == [] && Picked(procs, []) == []
  {
  }

  /**
    Exactness, from the records alone. When PIDs are distinct: the forest's trees are the
    parentless processes in list order and every node holds exactly the processes that
    name its own as parent, if and only if every process is within 256 parent links of
    a parentless one.
  */
  lemma ForestIsTheFamilyTree(procs: seq<ProcessInfo>)
    requires DistinctPids(procs)
    ensures Heads(Forest(procs)) == Parentless(procs) && FamilyTree(procs, Forest(procs), 0) <==>
            forall i :: 0 <= i < |procs| ==> Reaches(procs, i, 256)
  {
    hide Reaches, WithinReach, FamilyTree, Parentless, Forest;
    forall i | 0 <= i < |procs| ensures Reaches(procs, i, 256) <==> WithinReach(procs, i) {
      ReachIsWithin(procs, i);
    }
    if forall i :: 0 <= i < |procs| ==> WithinReach(procs, i) {
      ReachedIsFamily(procs);
    } else {
      var i :| 0 <= i < |procs| && !WithinReach(procs, i);
      assert !Reaches(procs, i, 256);
      UnreachedIsNot(procs);
    }
  }

  lemma ReachedIsFamily(procs: seq<ProcessInfo>)
    requires DistinctPids(procs) && forall i :: 0 <= i < |procs| ==> WithinReach(procs, i)
    ensures Heads(Forest(procs)) == Parentless(procs) && FamilyTree(procs, Forest(procs), 0)
  {
    hide WithinReach, AtLevel, FamilyTree, Ideal, Parentless, Forest;
    RootsAreParentless(procs);
    IdealHeads(procs, Roots(procs), 0);
    ForestIsIdeal(procs);
    RootsAreAtTheTop(procs);
    IdealIsFamily(procs, Roots(procs), 0);
  }

  lemma UnreachedIsNot(procs: seq<ProcessInfo>)
    requires DistinctPids(procs) && !forall i :: 0 <= i < |procs| ==> WithinReach(procs, i)
    ensures Heads(Forest(procs)) != Parentless(procs)
  {
    hide WithinReach, Ideal, Parentless, Grow;
    RootsAreParentless(procs);
    IdealHeads(procs, Roots(procs), 0);
    RootWalkIsIdeal(procs);
    ForestIsIdeal(procs);
    var nodes := FromRoots(procs).nodes;
    assert nodes + [] == nodes;
    assert |Forest(procs)| > |nodes|;
  }

  lemma RootsAreAtTheTop(procs: seq<ProcessInfo>)
    ensures forall k :: 0 <= k < |Roots(procs)| ==> AtLevel(procs, Roots(procs)[k], 0)
  {
    forall k | 0 <= k < |Roots(procs)| ensures AtLevel(procs, Roots(procs)[k], 0) {
      assert Roots(procs)[k] in Roots(procs);
    }
  }

  lemma RootWalkIsIdeal(procs: seq<ProcessInfo>)
    requires DistinctPids(procs)
    ensures FromRoots(procs).nodes == Ideal(procs, Roots(procs), 0)
  {
    RootsAreFresh(procs);
    FreshWalkIsIdeal(procs, Roots(procs), 0, {});
  }

  /** Somewhere in the trees, a node of `parent` has a node of `child` among its children. */
  ghost predicate SitsUnder(nodes: seq<TreeNode>, parent: ProcessInfo, child: ProcessInfo) {
    exists k :: 0 <= k < |nodes| &&
                ((nodes[k].process == parent && child in Heads(nodes[k].children))
                 || SitsUnder(nodes[k].children, parent, child))
  }

  lemma NothingListed()
    ensures Processes(Flatten([])) == []
  {
  }

  lemma WhereListed(n: TreeNode, others: seq<TreeNode>, p: ProcessInfo)
    requires p in Processes(Flatten([n] + others))
    ensures p == n.process || p in Processes(Flatten(n.children)) || p in Processes(Flatten(others))
  {
    hide Flatten;
    FlattensOne(n, others);
    var a, b := Flatten(n.children), Flatten(others);
    assert Processes([(n.process, n.depth)] + a + b) == [n.process] + Processes(a) + Processes(b);
  }

  lemma {:induction false} OffspringSitUnder(
    procs: seq<ProcessInfo>, nodes: seq<TreeNode>, depth: nat, parent: ProcessInfo, child: ProcessInfo)
    requires FamilyTree(procs, nodes, depth) && child in Offspring(procs, parent.pid)
    requires parent in Processes(Flatten(nodes))
    ensures SitsUnder(nodes, parent, child)
    decreases nodes
  {
    hide Offspring, Heads, Flatten, Processes;
    NothingListed();
    var n := nodes[0];
    assert [n] + nodes[1..] == nodes;
    WhereListed(n, nodes[1..], parent);
    if n.process == parent {
      assert nodes[0].process == parent;
    } else if parent in Processes(Flatten(n.children)) {
      OffspringSitUnder(procs, n.children, depth + 1, parent, child);
    } else {
      OffspringSitUnder(procs, nodes[1..], depth, parent, child);
      var j :| 0 <= j < |nodes[1..]| &&
               ((nodes[1..][j].process == parent && child in Heads(nodes[1..][j].children))
                || SitsUnder(nodes[1..][j].children, parent, child));
      assert nodes[j + 1] == nodes[1..][j];
    }
  }

  /** With distinct PIDs and everything within reach, each process sits right under the one it names. */
  lemma ChildSitsUnderParent(procs: seq<ProcessInfo>, i: nat, p: nat)
    requires DistinctPids(procs) && forall k :: 0 <= k < |procs| ==> Reaches(procs, k, 256)
    requires i < |procs| && p < |procs| && procs[p].pid > 0 && procs[i].parentPid == Some(procs[p].pid)
    ensures SitsUnder(Forest(procs), procs[p], procs[i])
  {
    hide Reaches, FamilyTree, SitsUnder, Forest, Flatten, Offspring, DistinctPids, Parentless;
    ForestIsTheFamilyTree(procs);
    IsOffspring(procs, i, p);
    EveryoneListed(procs, p);
    OffspringSitUnder(procs, Forest(procs), 0, procs[p], procs[i]);
  }

  lemma IsOffspring(procs: seq<ProcessInfo>, i: nat, p: nat)
    requires i < |procs| && p < |procs| && procs[p].pid > 0 && procs[i].parentPid == Some(procs[p].pid)
    ensures procs[i] in Offspring(procs, procs[p].pid)
  {
  }

  lemma EveryoneListed(procs: seq<ProcessInfo>, p: nat)
    requires p < |procs|
    ensures procs[p] in Processes(Flatten(Forest(procs)))
  {
    hide Forest, Flatten, Processes;
    EveryProcessOnce(procs);
    assert procs[p] in multiset(procs);
  }
}
