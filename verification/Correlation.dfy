/**
  Correlating connectivity incidents along a configured tree: the unguarded
  walk over it, the hosts below each node, and the groups that share a path.
 */
module Correlation {
  import opened Common
  import opened TopologyTrees
  import opened TopologyProjection
  import ProcessOrder

  // ---- reachability, one link at a time ----------------------------------

  ghost predicate Through(n: string, links: set<Link>, l: Link, h: string) {
    l in links && l.source == n && Reachable(l.target, links, h)
  }

  /** What is below a node is the node itself and what is below its children. */
  lemma ReachStep(n: string, links: set<Link>, h: string)
    ensures Reachable(n, links, h) <==> h == n || exists l :: Through(n, links, l, h)
  {
    forall l | Through(n, links, l, h) ensures Reachable(n, links, h) {}
    if Reachable(n, links, h) {
      var targets := set l | l in links :: l.target;
      var s := {n} + set x | x in targets && exists l :: Through(n, links, l, x);
      forall k | k in links && k.source in s ensures k.target in s {
        assert k.target in targets;
        if k.source == n {
          assert Through(n, links, k, k.target);
        } else {
          var l :| Through(n, links, l, k.source);
          assert Through(n, links, l, k.target);
        }
      }
      assert Closed(s, links);
      assert h in s;
    }
  }

  // ---- depths ------------------------------------------------------------

  /** The nodes met so far and how many links lie between them and the root. */
  ghost predicate Measured(root: string, kept: seq<Link>, depths: map<string, nat>) {
    && depths.Keys == Nodes(root, kept)
    && root in depths && depths[root] == 0
    && (forall l :: l in kept ==> l.source in depths && l.target in depths && depths[l.target] == depths[l.source] + 1)
    && forall n :: n in depths ==> depths[n] <= |kept|
  }

  lemma MeasureOne(root: string, kept: seq<Link>, depths: map<string, nat>, l: Link)
    requires Measured(root, kept, depths) && Grown(root, kept)
    requires l.source in depths && l.target !in Nodes(root, kept)
    ensures Measured(root, kept + [l], depths[l.target := depths[l.source] + 1])
  {
  }

  lemma NewNode(root: string, all: seq<Link>, kept: seq<Link>, taken: set<string>, pending: seq<string>, l: Link)
    requires Truncating(root, all, kept, taken, pending) && Parented(root, all) && l in all && l !in kept
    ensures l.target !in Nodes(root, kept) && Grown(root, kept)
  {
    NodesAre(root, kept, l.target);
    if l.target in Nodes(root, kept) {
      var k :| k in kept && (l.target == root || k.target == l.target);
      assert k in SetOf(all);
      OneParent(root, all, k, l);
    }
  }

  /** The walk has been `kept` far and knows the depth of every node met. */
  ghost predicate Walked(
    root: string, all: seq<Link>, kept: seq<Link>, taken: set<string>, pending: seq<string>, depths: map<string, nat>)
  {
    Truncating(root, all, kept, taken, pending) && Measured(root, kept, depths)
  }

  /** How many links the walk has still to follow. */
  function Left(all: seq<Link>, kept: seq<Link>): nat {
    |SetOf(all) - SetOf(kept)|
  }

  lemma OneLess(all: seq<Link>, kept: seq<Link>, l: Link)
    requires l in all && l !in kept
    ensures Left(all, kept + [l]) < Left(all, kept)
  {
    assert SetOf(all) - SetOf(kept) == SetOf(all) - SetOf(kept + [l]) + {l};
  }

  lemma WalkChild(
    root: string, all: seq<Link>, kept: seq<Link>, taken: set<string>, pending: seq<string>, depths: map<string, nat>,
    l: Link)
    requires Walked(root, all, kept, taken, pending, depths) && Parented(root, all)
    requires l in all && l !in kept && l.source in taken && l.source in depths
    ensures Walked(root, all, kept + [l], taken, pending + [l.target], depths[l.target := depths[l.source] + 1])
    ensures Left(all, kept + [l]) < Left(all, kept)
  {
    hide Truncating, Measured, Parented, Left;
    KeepOne(root, all, kept, taken, pending, l);
    NewNode(root, all, kept, taken, pending, l);
    MeasureOne(root, kept, depths, l);
    OneLess(all, kept, l);
  }

  /** One node's children get one more than its depth. */
  method MeasureChildren(
    root: string, all: seq<Link>, ghost kept: seq<Link>, ghost taken: set<string>, pending: seq<string>,
    depths: map<string, nat>, node: string)
    returns (ghost more: seq<Link>, queue: seq<string>, measured: map<string, nat>)
    requires Walked(root, all, kept, taken, pending, depths) && Parented(root, all)
    requires node in taken && node in depths && forall l :: l in kept ==> l.source != node
    ensures Walked(root, all, more, taken, queue, measured)
    ensures forall l :: l in kept ==> l in more
    ensures forall l :: l in all && l.source == node ==> l in more
    ensures (more == kept && queue == pending) || Left(all, more) < Left(all, kept)
  {
    hide Walked, Parented, Left;
    more, queue, measured := kept, pending, depths;
    for i := 0 to |all|
      invariant Walked(root, all, more, taken, queue, measured) && node in measured
      invariant forall l :: l in kept ==> l in more
      invariant forall l :: l in more && l.source == node ==> l in all[..i]
      invariant forall j :: 0 <= j < i && all[j].source == node ==> all[j] in more
      invariant (more == kept && queue == pending) || Left(all, more) < Left(all, kept)
    {
      var l := all[i];
      if l.source == node {
        ListedOnce(root, all, i);
        WalkChild(root, all, more, taken, queue, measured, l);
        measured := measured[l.target := measured[node] + 1];
        more := more + [l];
        queue := queue + [l.target];
      }
    }
  }

  /** The walk has no guard against meeting a node again; on a tree it needs none.  It measures every node, each
      once, one deeper than its parent. */
  method NodeDepths(root: string, all: seq<Link>) returns (depths: map<string, nat>)
    requires Tree(root, all)
    ensures forall n :: n in depths <==> Reachable(root, SetOf(all), n)
    ensures root in depths && depths[root] == 0
    ensures forall l :: l in all ==>
        l.source in depths && l.target in depths && depths[l.target] == depths[l.source] + 1
    ensures forall n :: n in depths ==> depths[n] <= |all|
  {
    hide Tree, Parented, Walked;
    TreeMeans(root, all);
    depths := map[root := 0];
    ghost var kept: seq<Link> := [];
    ghost var taken: set<string> := {};
    var pending := [root];
    StartWalk(root, all);
    while pending != []
      invariant Walked(root, all, kept, taken, pending, depths)
      invariant forall l :: l in all && l.source in taken ==> l in kept
      decreases Left(all, kept), |pending|
    {
      var node := pending[|pending| - 1];
      WalkBack(root, all, kept, taken, pending, depths);
      ghost var more;
      var queue, measured;
      more, queue, measured := MeasureChildren(root, all, kept, taken + {node}, pending[..|pending| - 1], depths, node);
      kept, taken, pending, depths := more, taken + {node}, queue, measured;
    }
    WalkEnds(root, all, kept, taken, depths);
  }

  lemma StartWalk(root: string, all: seq<Link>)
    ensures Walked(root, all, [], {}, [root], map[root := 0])
  {
  }

  lemma WalkBack(
    root: string, all: seq<Link>, kept: seq<Link>, taken: set<string>, pending: seq<string>, depths: map<string, nat>)
    requires Walked(root, all, kept, taken, pending, depths) && pending != []
    ensures
      var node := pending[|pending| - 1];
      && Walked(root, all, kept, taken + {node}, pending[..|pending| - 1], depths)
      && node in depths && forall l :: l in kept ==> l.source != node
  {
  }

  lemma WalkEnds(root: string, all: seq<Link>, kept: seq<Link>, taken: set<string>, depths: map<string, nat>)
    requires Walked(root, all, kept, taken, [], depths) && Tree(root, all)
    requires forall l :: l in all && l.source in taken ==> l in kept
    ensures forall n :: n in depths <==> Reachable(root, SetOf(all), n)
    ensures root in depths && depths[root] == 0
    ensures forall l :: l in all ==>
        l.source in depths && l.target in depths && depths[l.target] == depths[l.source] + 1
    ensures forall n :: n in depths ==> depths[n] <= |all|
  {
    EndTruncating(root, all, kept, taken, [], |kept| + 1);
    SameLength(kept, all);
    SameSet(kept, all);
    forall n ensures n in depths <==> Reachable(root, SetOf(all), n) {
      NodesReachable(root, kept, n);
    }
    forall l | l in all ensures l in kept {
      assert l in SetOf(all);
    }
    hide Truncating, Tree, Grown, Reachable;
  }

  // ---- hosts below a node ------------------------------------------------

  ghost function Below(links: set<Link>, monitored: set<string>, n: string): set<string> {
    set h | h in monitored && Reachable(n, links, h)
  }

  /** The walk measures every node of a tree, so it has an end below every node. */
  ghost predicate Deepens(all: seq<Link>, depths: map<string, nat>) {
    && (forall l :: l in all ==> l.source in depths && l.target in depths && depths[l.target] == depths[l.source] + 1)
    && forall n :: n in depths ==> depths[n] <= |all|
  }

  ghost predicate BelowKnown(all: seq<Link>, monitored: set<string>, descendants: map<string, set<string>>) {
    forall n :: n in descendants ==> descendants[n] == Below(SetOf(all), monitored, n)
  }

  lemma Deeper(all: seq<Link>, depths: map<string, nat>, l: Link)
    requires Deepens(all, depths) && l in all
    ensures l.source in depths && l.target in depths && depths[l.source] < depths[l.target] <= |all|
  {
  }

  /** Reached through one of these links. */
  ghost predicate Passed(all: seq<Link>, visited: set<Link>, n: string) {
    exists l :: l in visited && Reachable(l.target, SetOf(all), n)
  }

  ghost function OwnAndBelow(all: seq<Link>, monitored: set<string>, node: string, visited: set<Link>): set<string> {
    set h | h in monitored && (h == node || Passed(all, visited, h))
  }

  lemma PassedMore(all: seq<Link>, visited: set<Link>, l: Link)
    ensures forall n :: Passed(all, visited + {l}, n) <==> Passed(all, visited, n) || Reachable(l.target, SetOf(all), n)
  {
  }

  lemma AddChild(all: seq<Link>, monitored: set<string>, node: string, visited: set<Link>, l: Link)
    ensures OwnAndBelow(all, monitored, node, visited + {l}) ==
            OwnAndBelow(all, monitored, node, visited) + Below(SetOf(all), monitored, l.target)
  {
  }

  lemma NoChild(all: seq<Link>, monitored: set<string>, node: string)
    ensures OwnAndBelow(all, monitored, node, {}) == if node in monitored then {node} else {}
    ensures forall n :: !Passed(all, {}, n)
  {
  }

  lemma AllChildren(all: seq<Link>, monitored: set<string>, node: string, visited: set<Link>)
    requires visited == set l | l in all && l.source == node
    ensures OwnAndBelow(all, monitored, node, visited) == Below(SetOf(all), monitored, node)
    ensures forall n :: n == node || Passed(all, visited, n) <==> Reachable(node, SetOf(all), n)
  {
    hide Reachable;
    forall n ensures n == node || Passed(all, visited, n) <==> Reachable(node, SetOf(all), n) {
      ReachStep(node, SetOf(all), n);
      if Passed(all, visited, n) {
        var l :| l in visited && Reachable(l.target, SetOf(all), n);
        assert Through(node, SetOf(all), l, n);
      }
    }
  }

  lemma KnowNode(
    all: seq<Link>, monitored: set<string>, descendants: map<string, set<string>>, node: string, hosts: set<string>)
    requires BelowKnown(all, monitored, descendants) && hosts == Below(SetOf(all), monitored, node)
    ensures BelowKnown(all, monitored, descendants[node := hosts])
  {
  }

  /** The recursive visit of one node. */
  method Visit(all: seq<Link>, monitored: set<string>, node: string, known: map<string, set<string>>,
               ghost depths: map<string, nat>)
    returns (hosts: set<string>, descendants: map<string, set<string>>)
    requires Deepens(all, depths) && node in depths
    requires BelowKnown(all, monitored, known)
    ensures hosts == Below(SetOf(all), monitored, node)
    ensures BelowKnown(all, monitored, descendants)
    ensures forall n :: n in descendants <==> n in known || Reachable(node, SetOf(all), n)
    decreases |all| - depths[node]
  {
    hide BelowKnown, Below, Reachable, Deepens, Passed, OwnAndBelow;
    hosts := if node in monitored then {node} else {};
    descendants := known;
    ghost var visited: set<Link> := {};
    NoChild(all, monitored, node);
    for i := 0 to |all|
      invariant visited == set l | l in all[..i] && l.source == node
      invariant BelowKnown(all, monitored, descendants)
      invariant hosts == OwnAndBelow(all, monitored, node, visited)
      invariant forall n :: n in descendants <==> n in known || Passed(all, visited, n)
    {
      var l := all[i];
      assert all[..i + 1] == all[..i] + [l];
      if l.source == node {
        Deeper(all, depths, l);
        var below, more := Visit(all, monitored, l.target, descendants, depths);
        AddChild(all, monitored, node, visited, l);
        PassedMore(all, visited, l);
        hosts := hosts + below;
        descendants := more;
        visited := visited + {l};
      }
    }
    assert all[..|all|] == all;
    AllChildren(all, monitored, node, visited);
    KnowNode(all, monitored, descendants, node, hosts);
    descendants := descendants[node := hosts];
  }

  /** Every node of the tree with the monitored hosts at or below it. */
  method MonitoredDescendants(root: string, all: seq<Link>, monitored: set<string>, ghost depths: map<string, nat>)
    returns (descendants: map<string, set<string>>)
    requires Deepens(all, depths) && root in depths
    ensures forall n :: n in descendants <==> Reachable(root, SetOf(all), n)
    ensures forall n :: n in descendants ==> descendants[n] == Below(SetOf(all), monitored, n)
  {
    hide Below, Reachable, Deepens;
    var _, d := Visit(all, monitored, root, map[], depths);
    descendants := d;
  }

  // ---- groups ------------------------------------------------------------

  datatype Group = Group(anchor: string, hosts: set<string>)

  /** Deeper anchors first, then by name. */
  predicate Precedes(depths: map<string, nat>, a: string, b: string)
    requires a in depths && b in depths
  {
    depths[a] > depths[b] || (depths[a] == depths[b] && (a == b || ProcessOrder.NameLess(a, b)))
  }

  method FirstOf(depths: map<string, nat>, s: set<string>) returns (m: string)
    requires s != {} && s <= depths.Keys
    ensures m in s && forall o :: o in s ==> Precedes(depths, m, o)
  {
    m :| m in s;
    var left := s - {m};
    while left != {}
      invariant m in s && left <= s
      invariant forall o :: o in s - left ==> Precedes(depths, m, o)
      decreases |left|
    {
      var x :| x in left;
      ProcessOrder.NameTotal(x, m);
      if Precedes(depths, x, m) {
        forall o | o in s - left ensures Precedes(depths, x, o) {
          PrecedesTransitive(depths, x, m, o);
        }
        m := x;
      }
      left := left - {x};
    }
  }

  lemma PrecedesTransitive(depths: map<string, nat>, a: string, b: string, c: string)
    requires a in depths && b in depths && c in depths && Precedes(depths, a, b) && Precedes(depths, b, c)
    ensures Precedes(depths, a, c)
  {
    if depths[a] == depths[b] == depths[c] && a != b && b != c {
      ProcessOrder.NameTransitive(a, b, c);
    }
  }

  predicate Sound(descendants: map<string, set<string>>, affected: set<string>, remaining: set<string>, root: string,
                  groups: seq<Group>)
  {
    && remaining <= affected
    && (forall i :: 0 <= i < |groups| ==>
          && groups[i].anchor in descendants && groups[i].anchor != root
          && |groups[i].hosts| >= 2
          && groups[i].hosts <= descendants[groups[i].anchor] * affected - remaining)
    && (forall i, j :: 0 <= i < j < |groups| ==> groups[i].hosts !! groups[j].hosts)
    && forall h :: h in affected - remaining ==> exists i :: 0 <= i < |groups| && h in groups[i].hosts
  }

  lemma AddGroup(descendants: map<string, set<string>>, affected: set<string>, remaining: set<string>, root: string,
                 groups: seq<Group>, g: Group)
    requires Sound(descendants, affected, remaining, root, groups)
    requires g.anchor in descendants && g.anchor != root && |g.hosts| >= 2
    requires g.hosts <= descendants[g.anchor] * remaining
    ensures Sound(descendants, affected, remaining - g.hosts, root, groups + [g])
  {
    var more := groups + [g];
    forall h | h in affected - (remaining - g.hosts) ensures exists i :: 0 <= i < |more| && h in more[i].hosts {
      if h in g.hosts {
        assert h in more[|groups|].hosts;
      } else {
        assert h in affected - remaining;
        var i :| 0 <= i < |groups| && h in groups[i].hosts;
        assert h in more[i].hosts;
      }
    }
  }

  /** The groups of affected hosts that share a path: disjoint, at least two hosts each, all below their anchor,
      deepest anchors first; and any two affected hosts left alone share no node but the root. */
  method Correlate(root: string, descendants: map<string, set<string>>, depths: map<string, nat>, affected: set<string>)
    returns (groups: seq<Group>, ghost remaining: set<string>)
    requires descendants.Keys <= depths.Keys
    ensures Sound(descendants, affected, remaining, root, groups)
    ensures forall n :: n in descendants && n != root ==> |descendants[n] * remaining| < 2
    ensures forall i, j :: 0 <= i < j < |groups| ==>
              groups[i].anchor in depths && groups[j].anchor in depths
                  && depths[groups[i].anchor] >= depths[groups[j].anchor]
  {
    hide Sound;
    groups := [];
    var left := affected;
    remaining := affected;
    NoGroups(descendants, affected, root);
    if |affected| < 2 {
      forall n | n in descendants ensures |descendants[n] * affected| < 2 {
        Fewer(descendants[n] * affected, affected);
      }
      return;
    }
    var anchors := set n | n in descendants && n != root && |descendants[n] * affected| >= 2;
    var todo := anchors;
    while todo != {}
      invariant todo <= anchors && left == remaining <= affected
      invariant Sound(descendants, affected, remaining, root, groups)
      invariant AllDecided(descendants, remaining, anchors - todo)
      invariant Deepest(depths, groups, todo)
      decreases |todo|
    {
      hide AllDecided, Deepest;
      var anchor := FirstOf(depths, todo);
      var hosts := descendants[anchor] * left;
      DecideOne(descendants, remaining, anchors, todo, anchor);
      DeepestOne(depths, groups, todo, Group(anchor, hosts));
      todo := todo - {anchor};
      if |hosts| >= 2 {
        AddGroup(descendants, affected, remaining, root, groups, Group(anchor, hosts));
        groups := groups + [Group(anchor, hosts)];
        left := left - hosts;
        remaining := remaining - hosts;
      }
    }
    forall n | n in descendants && n != root ensures |descendants[n] * remaining| < 2 {
      Fewer(descendants[n] * remaining, descendants[n] * affected);
      assert n in anchors - todo || |descendants[n] * affected| < 2;
    }
  }

  ghost predicate AllDecided(descendants: map<string, set<string>>, remaining: set<string>, anchors: set<string>) {
    forall n :: n in anchors ==> n in descendants && |descendants[n] * remaining| < 2
  }

  /** Looking at one anchor decides it, and leaves the others decided. */
  lemma DecideOne(
    descendants: map<string, set<string>>, remaining: set<string>, anchors: set<string>, todo: set<string>,
                  anchor: string)
    requires AllDecided(descendants, remaining, anchors - todo) && anchor in todo && anchor in descendants
    ensures
      var hosts := descendants[anchor] * remaining;
      AllDecided(descendants, if |hosts| >= 2 then remaining - hosts else remaining, anchors - (todo - {anchor}))
  {
    var hosts := descendants[anchor] * remaining;
    if |hosts| >= 2 {
      assert descendants[anchor] * (remaining - hosts) == {};
      forall n | n in anchors - todo ensures |descendants[n] * (remaining - hosts)| < 2 {
        Fewer(descendants[n] * (remaining - hosts), descendants[n] * remaining);
      }
    }
  }

  /** Groups come deepest first, and none is shallower than an anchor still to be looked at. */
  ghost predicate Deepest(depths: map<string, nat>, groups: seq<Group>, todo: set<string>) {
    && todo <= depths.Keys
    && (forall i :: 0 <= i < |groups| ==> groups[i].anchor in depths)
    && (forall i, n :: 0 <= i < |groups| && n in todo ==> depths[groups[i].anchor] >= depths[n])
    && forall i, j :: 0 <= i < j < |groups| ==> depths[groups[i].anchor] >= depths[groups[j].anchor]
  }

  lemma DeepestOne(depths: map<string, nat>, groups: seq<Group>, todo: set<string>, g: Group)
    requires Deepest(depths, groups, todo) && g.anchor in todo
    requires forall o :: o in todo ==> Precedes(depths, g.anchor, o)
    ensures Deepest(depths, groups, todo - {g.anchor}) && Deepest(depths, groups + [g], todo - {g.anchor})
  {
  }

  lemma NoGroups(descendants: map<string, set<string>>, affected: set<string>, root: string)
    ensures Sound(descendants, affected, affected, root, [])
  {
  }

  lemma Fewer(a: set<string>, b: set<string>)
    requires a <= b
    ensures |a| <= |b|
  {
    assert b == a + (b - a);
  }

  /** The whole correlator on an accepted topology. */
  method CorrelateTopology(root: string, all: seq<Link>, monitored: set<string>, affected: set<string>)
    returns (groups: seq<Group>, ghost remaining: set<string>)
    requires Tree(root, all) && affected <= monitored
    ensures remaining <= affected
    ensures forall i :: 0 <= i < |groups| ==>
              && groups[i].anchor != root && |groups[i].hosts| >= 2
              && groups[i].hosts <= affected - remaining
              && forall h :: h in groups[i].hosts ==> Reachable(groups[i].anchor, SetOf(all), h)
    ensures forall i, j :: 0 <= i < j < |groups| ==> groups[i].hosts !! groups[j].hosts
    ensures forall h :: h in affected - remaining ==> exists i :: 0 <= i < |groups| && h in groups[i].hosts
    ensures forall n, a, b ::
      n != root && Reachable(root, SetOf(all), n) && a in remaining && b in remaining && a != b ==>
        !(Reachable(n, SetOf(all), a) && Reachable(n, SetOf(all), b))
  {
    hide Tree, Reachable;
    var depths := NodeDepths(root, all);
    var descendants := MonitoredDescendants(root, all, monitored, depths);
    groups, remaining := Correlate(root, descendants, depths, affected);
    forall n, a, b |
      n != root && Reachable(root, SetOf(all), n) && a in remaining && b in remaining && a != b
      && Reachable(n, SetOf(all), a) && Reachable(n, SetOf(all), b)
      ensures false
    {
      assert n in descendants;
      TwoIn(descendants[n] * remaining, a, b);
    }
  }

  lemma TwoIn(s: set<string>, a: string, b: string)
    requires a in s && b in s && a != b
    ensures |s| >= 2
  {
    Fewer({a, b}, s);
  }
}
