/**
  Projecting hop chains onto a display tree of at most 512 links.  Every node
  keeps the parent it got first; the result is a tree for arbitrary routes.
 */
module TopologyProjection {
  import opened Common
  import opened TopologyTrees
  import opened TopologyRoutes
  import ProcessOrder

  const TOPOLOGY_MAX_LINKS := 512

  /** The parents given so far and the links in the order they were made. */
  ghost predicate Growing(root: string, parents: map<string, string>, links: seq<Link>) {
    && Grown(root, links)
    && parents.Keys == (set l | l in links :: l.target)
    && forall l :: l in links ==> parents[l.target] == l.source
  }

  lemma GrowingNodes(root: string, parents: map<string, string>, links: seq<Link>, n: string)
    requires Growing(root, parents, links)
    ensures n in Nodes(root, links) <==> n == root || n in parents
  {
    NodesAre(root, links, n);
  }

  lemma GrowOne(root: string, parents: map<string, string>, links: seq<Link>, l: Link)
    requires Growing(root, parents, links)
    requires l.source in Nodes(root, links) && l.target !in parents && l.target != root
    ensures Growing(root, parents[l.target := l.source], links + [l])
    ensures Nodes(root, links + [l]) == Nodes(root, links) + {l.target}
  {
    GrowingNodes(root, parents, links, l.target);
  }

  /** One hop of a path. */
  method Adopt(
    root: string, parents: map<string, string>, links: seq<Link>, doubts: nat, source: string, target: string)
    returns (adopted: map<string, string>, grown: seq<Link>, ambiguous: nat)
    requires Growing(root, parents, links) && source in Nodes(root, links) && target != root
    ensures Growing(root, adopted, grown)
    ensures Nodes(root, grown) == Nodes(root, links) + {target}
    ensures forall n :: n in parents ==> n in adopted && adopted[n] == parents[n]
  {
    hide Growing, Nodes;
    adopted, grown, ambiguous := parents, links, doubts;
    GrowingNodes(root, parents, links, target);
    if source == target {
      return;
    }
    if target in parents {
      if parents[target] != source {
        ambiguous := doubts + 1;
      }
    } else {
      GrowOne(root, parents, links, Link(source, target));
      adopted := parents[target := source];
      grown := links + [Link(source, target)];
    }
  }

  /** One path from the root: a node that has a parent keeps it. */
  method AddPath(root: string, parents: map<string, string>, links: seq<Link>, path: seq<string>)
    returns (adopted: map<string, string>, grown: seq<Link>, ambiguous: nat)
    requires Growing(root, parents, links) && path != [] && path[0] == root
    requires forall i :: 0 < i < |path| ==> path[i] != root
    ensures Growing(root, adopted, grown)
    ensures Nodes(root, links) <= Nodes(root, grown)
    ensures forall n :: n in path ==> n in Nodes(root, grown)
    ensures forall n :: n in parents ==> n in adopted && adopted[n] == parents[n]
  {
    hide Growing, Nodes;
    adopted, grown, ambiguous := parents, links, 0;
    RootIn(root, links);
    for i := 1 to |path|
      invariant Growing(root, adopted, grown)
      invariant Nodes(root, links) <= Nodes(root, grown)
      invariant forall j :: 0 <= j < i ==> path[j] in Nodes(root, grown)
      invariant forall n :: n in parents ==> n in adopted && adopted[n] == parents[n]
    {
      ghost var before := Nodes(root, grown);
      adopted, grown, ambiguous := Adopt(root, adopted, grown, ambiguous, path[i - 1], path[i]);
      assert forall n :: n in before ==> n in Nodes(root, grown);
    }
  }

  lemma RootIn(root: string, links: seq<Link>)
    ensures root in Nodes(root, links)
  {
  }

  // ---- order and truncation ----------------------------------------------

  predicate LinkLess(a: Link, b: Link) {
    ProcessOrder.NameLess(a.source, b.source) || (a.source == b.source && ProcessOrder.NameLess(a.target, b.target))
  }

  lemma LinkTotal(a: Link, b: Link)
    ensures a == b || LinkLess(a, b) || LinkLess(b, a)
  {
    ProcessOrder.NameTotal(a.source, b.source);
    ProcessOrder.NameTotal(a.target, b.target);
  }

  lemma LinkTransitive(a: Link, b: Link, c: Link)
    requires LinkLess(a, b) && LinkLess(b, c)
    ensures LinkLess(a, c)
  {
    if ProcessOrder.NameLess(a.source, b.source) && ProcessOrder.NameLess(b.source, c.source) {
      ProcessOrder.NameTransitive(a.source, b.source, c.source);
    } else if a.source == b.source == c.source {
      ProcessOrder.NameTransitive(a.target, b.target, c.target);
    }
  }

  predicate InOrder(links: seq<Link>) {
    forall i, j :: 0 <= i < j < |links| ==> links[i] == links[j] || LinkLess(links[i], links[j])
  }

  lemma NothingInOrder()
    ensures InOrder([])
  {
  }

  /** The position of the first link that comes after this one. */
  method PlaceOf(r: seq<Link>, l: Link) returns (at: nat)
    ensures at <= |r| && forall i :: 0 <= i < at ==> !LinkLess(l, r[i])
    ensures at < |r| ==> LinkLess(l, r[at])
  {
    hide LinkLess;
    at := 0;
    while at < |r| && !LinkLess(l, r[at])
      invariant at <= |r|
      invariant forall i :: 0 <= i < at ==> !LinkLess(l, r[i])
    {
      at := at + 1;
    }
  }

  method SortLinks(links: seq<Link>) returns (r: seq<Link>)
    ensures InOrder(r) && multiset(r) == multiset(links) && |r| == |links|
  {
    hide LinkLess, InOrder;
    r := [];
    NothingInOrder();
    for n := 0 to |links|
      invariant InOrder(r) && multiset(r) == multiset(links[..n]) && |r| == n
    {
      var l := links[n];
      var at := PlaceOf(r, l);
      InsertLink(r, at, l);
      assert links[..n + 1] == links[..n] + [l];
      r := r[..at] + [l] + r[at..];
    }
    assert links[..|links|] == links;
  }

  lemma InsertLink(r: seq<Link>, at: nat, l: Link)
    requires at <= |r| && InOrder(r)
    requires forall i :: 0 <= i < at ==> !LinkLess(l, r[i])
    requires at < |r| ==> LinkLess(l, r[at])
    ensures InOrder(r[..at] + [l] + r[at..])
    ensures multiset(r[..at] + [l] + r[at..]) == multiset(r) + multiset{l}
  {
    hide LinkLess, InOrder;
    Spliced(r, at, l);
    LinksApart(r, at, l);
    InOrderInserted(r, at, l);
  }

  lemma InOrderInserted(r: seq<Link>, at: nat, l: Link)
    requires at <= |r| && InOrder(r)
    requires forall i :: 0 <= i < at ==> r[i] == l || LinkLess(r[i], l)
    requires forall i :: at <= i < |r| ==> LinkLess(l, r[i])
    ensures InOrder(r[..at] + [l] + r[at..])
  {
    hide LinkLess;
  }

  lemma LinksApart(r: seq<Link>, at: nat, l: Link)
    requires at <= |r| && InOrder(r)
    requires forall i :: 0 <= i < at ==> !LinkLess(l, r[i])
    requires at < |r| ==> LinkLess(l, r[at])
    ensures forall i :: 0 <= i < at ==> r[i] == l || LinkLess(r[i], l)
    ensures forall i :: at <= i < |r| ==> LinkLess(l, r[i])
  {
    hide LinkLess;
    forall i | 0 <= i < at ensures r[i] == l || LinkLess(r[i], l) {
      LinkTotal(r[i], l);
    }
    forall j | at <= j < |r| ensures LinkLess(l, r[j]) {
      if j > at && r[at] != r[j] {
        LinkTransitive(l, r[at], r[j]);
      }
    }
  }

  /** The breadth-first walk: kept links form a tree, whose nodes have been taken or wait. */
  ghost predicate Truncating(root: string, all: seq<Link>, kept: seq<Link>, taken: set<string>, pending: seq<string>) {
    && Grown(root, kept) && SetOf(kept) <= SetOf(all)
    && Nodes(root, kept) == taken + (set n | n in pending)
    && (forall i, j :: 0 <= i < j < |pending| ==> pending[i] != pending[j])
    && (forall n :: n in pending ==> n !in taken)
    && forall l :: l in kept ==> l.source in taken
  }

  /** Taking the head of the queue: its links are not kept yet. */
  lemma TakeHead(root: string, all: seq<Link>, kept: seq<Link>, taken: set<string>, pending: seq<string>)
    requires Truncating(root, all, kept, taken, pending) && pending != []
    ensures Truncating(root, all, kept, taken + {pending[0]}, pending[1..])
    ensures forall l :: l in kept ==> l.source != pending[0]
  {
  }

  /** Keeping one link of the node just taken. */
  lemma KeepOne(root: string, all: seq<Link>, kept: seq<Link>, taken: set<string>, pending: seq<string>, l: Link)
    requires Truncating(root, all, kept, taken, pending) && Parented(root, all)
    requires l in all && l !in kept && l.source in taken
    ensures Truncating(root, all, kept + [l], taken, pending + [l.target])
  {
    NodesAre(root, kept, l.target);
    assert l.target !in Nodes(root, kept) by {
      if l.target in Nodes(root, kept) {
        assert l.target != root;
        var k :| k in kept && k.target == l.target;
        assert k in SetOf(all);
        OneParent(root, all, k, l);
      }
    }
  }

  lemma OneParent(root: string, all: seq<Link>, k: Link, l: Link)
    requires Parented(root, all) && k in all && l in all && k.target == l.target
    ensures k == l
  {
  }

  /** The first 512 links in breadth-first order. */
  method Truncate(root: string, all: seq<Link>, limit: nat) returns (kept: seq<Link>)
    requires Tree(root, all)
    ensures Grown(root, kept) && SetOf(kept) <= SetOf(all) && |kept| <= limit
    ensures |kept| == limit || multiset(kept) == multiset(all)
  {
    hide Tree, Parented, Truncating;
    TreeMeans(root, all);
    kept := [];
    ghost var taken: set<string> := {};
    var pending := [root];
    StartTruncating(root, all);
    while pending != [] && |kept| < limit
      invariant Truncating(root, all, kept, taken, pending)
      invariant |kept| <= limit
      invariant |kept| < limit ==> forall l :: l in all && l.source in taken ==> l in kept
      decreases limit - |kept|, |pending|
    {
      var source := pending[0];
      TakeHead(root, all, kept, taken, pending);
      var more, queue := KeepChildren(root, all, kept, taken + {source}, pending[1..], source, limit);
      kept, pending, taken := more, queue, taken + {source};
    }
    EndTruncating(root, all, kept, taken, pending, limit);
  }

  method KeepChildren(
    root: string, all: seq<Link>, kept: seq<Link>, ghost taken: set<string>, pending: seq<string>, source: string,
    limit: nat)
    returns (more: seq<Link>, queue: seq<string>)
    requires Truncating(root, all, kept, taken, pending) && Parented(root, all) && source in taken && |kept| < limit
    requires forall l :: l in kept ==> l.source != source
    ensures Truncating(root, all, more, taken, queue) && |kept| <= |more| <= limit
    ensures |more| == |kept| ==> queue == pending
    ensures forall l :: l in kept ==> l in more
    ensures |more| < limit ==> forall l :: l in all && l.source == source ==> l in more
  {
    hide Truncating, Parented;
    more, queue := kept, pending;
    for i := 0 to |all|
      invariant Truncating(root, all, more, taken, queue) && |kept| <= |more| <= limit
      invariant |more| == |kept| ==> queue == pending
      invariant forall l :: l in kept ==> l in more
      invariant forall l :: l in more && l.source == source ==> l in all[..i]
      invariant |more| < limit ==> forall j :: 0 <= j < i && all[j].source == source ==> all[j] in more
    {
      var l := all[i];
      assert forall x :: x in all[..i + 1] <==> x in all[..i] || x == l by { assert all[..i + 1] == all[..i] + [l]; }
      if l.source == source {
        if |more| >= limit {
          break;
        }
        ListedOnce(root, all, i);
        KeepOne(root, all, more, taken, queue, l);
        more := more + [l];
        queue := queue + [l.target];
      }
    }
  }

  lemma ListedOnce(root: string, all: seq<Link>, i: nat)
    requires Parented(root, all) && i < |all|
    ensures all[i] !in all[..i]
  {
  }

  lemma StartTruncating(root: string, all: seq<Link>)
    ensures Truncating(root, all, [], {}, [root])
  {
  }

  lemma EndTruncating(
    root: string, all: seq<Link>, kept: seq<Link>, taken: set<string>, pending: seq<string>, limit: nat)
    requires Truncating(root, all, kept, taken, pending) && Tree(root, all)
    requires |kept| < limit ==> pending == [] && forall l :: l in all && l.source in taken ==> l in kept
    ensures Grown(root, kept) && SetOf(kept) <= SetOf(all)
    ensures |kept| < limit ==> multiset(kept) == multiset(all)
  {
    if |kept| < limit {
      TreeMeans(root, all);
      GrownParented(root, kept);
      RootIn(root, kept);
      assert Nodes(root, kept) == taken;
      forall l | l in SetOf(all) && l.source in taken ensures l.target in taken {
        NodesAre(root, kept, l.target);
      }
      assert Closed(taken, SetOf(all));
      forall l | l in all ensures l in kept {
        assert Reachable(root, SetOf(all), l.source);
      }
      assert SetOf(kept) == SetOf(all);
      SameElements(kept, all);
    }
  }

  // ---- the projection ----------------------------------------------------

  /** The path of one host: the root, its hops, the host. */
  function PathTo(root: string, hops: seq<string>, host: string): seq<string> {
    [root] + hops + [host]
  }

  /** Every host other than the root, and every hop of its chain, hangs in the tree. */
  ghost predicate Covers(root: string, hosts: seq<string>, chains: Chains, links: seq<Link>) {
    forall h :: h in hosts && h != root ==>
      && h in chains
      && forall n :: n in PathTo(root, chains[h], h) ==> n in Nodes(root, links)
  }

  /** All links of the projection before they are cut to the display limit. */
  method GrowLinks(root: string, hosts: seq<string>, routes: Routes, ghost rank: map<string, nat>)
    returns (links: seq<Link>, chains: Chains)
    ensures Grown(root, links) && AllClean(root, chains) && Right(routes, root, rank, chains)
    ensures Covers(root, hosts, chains, links)
  {
    hide Growing, AllClean, Right, Grown, Nodes, PathTo;
    links, chains := [], map[];
    var parents: map<string, string> := map[];
    StartGrowing(root, routes, rank);
    for i := 0 to |hosts|
      invariant Growing(root, parents, links)
      invariant AllClean(root, chains) && Right(routes, root, rank, chains)
      invariant Covers(root, hosts[..i], chains, links)
    {
      var host := hosts[i];
      assert hosts[..i + 1] == hosts[..i] + [host];
      if host != root {
        var hops, known, _ := ExpandedHops(routes, root, chains, host, rank);
        PathClean(root, hops, host);
        var adopted, grown, _ := AddPath(root, parents, links, PathTo(root, hops, host));
        parents, links, chains := adopted, grown, known;
      }
    }
    assert hosts[..|hosts|] == hosts;
    GrownIs(root, parents, links);
  }

  lemma GrownIs(root: string, parents: map<string, string>, links: seq<Link>)
    requires Growing(root, parents, links)
    ensures Grown(root, links)
  {
  }

  lemma StartGrowing(root: string, routes: Routes, rank: map<string, nat>)
    ensures Growing(root, map[], []) && AllClean(root, map[]) && Right(routes, root, rank, map[])
  {
  }

  lemma PathClean(root: string, hops: seq<string>, host: string)
    requires Clean(root, host, hops) && host != root
    ensures
      var path := PathTo(root, hops, host);
      path != [] && path[0] == root && forall i :: 0 < i < |path| ==> path[i] != root
  {
  }

  /** For arbitrary routes the display topology is a tree of at most 512 links; unless it was cut, every host
      and every hop of its chain hangs in it, and a cut one is full. */
  method Project(root: string, hosts: seq<string>, routes: Routes, ghost rank: map<string, nat>)
    returns (topology: Option<seq<Link>>, truncated: bool, ghost chains: Chains)
    ensures topology.Some? ==> Tree(root, topology.value) && 0 < |topology.value| <= TOPOLOGY_MAX_LINKS
    ensures truncated ==> topology.Some? && |topology.value| == TOPOLOGY_MAX_LINKS
    ensures !truncated ==> exists order ::
              Grown(root, order) && multiset(order) == multiset(topology.GetOr([]))
                  && Covers(root, hosts, chains, order)
    ensures AllClean(root, chains) && Right(routes, root, rank, chains)
  {
    hide Grown, Covers, AllClean, Right, InOrder;
    var grown, known := GrowLinks(root, hosts, routes, rank);
    chains := known;
    var links := SortLinks(grown);
    assert Tree(root, links);
    truncated := |links| > TOPOLOGY_MAX_LINKS;
    if truncated {
      var kept := Truncate(root, links, TOPOLOGY_MAX_LINKS);
      SameLength(kept, links);
      assert Tree(root, kept);
      links := kept;
    }
    topology := if links == [] then None else Some(links);
  }

  lemma SameLength(a: seq<Link>, b: seq<Link>)
    ensures multiset(a) == multiset(b) ==> |a| == |b|
  {
    assert |multiset(a)| == |a| && |multiset(b)| == |b|;
  }
}
