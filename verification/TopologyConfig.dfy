/**
  Accepting a configured topology and repairing it when a host leaves: only
  trees are accepted, and a repaired tree is one.
 */
module TopologyConfig {
  import opened Common
  import opened TopologyTrees

  const TOPOLOGY_MAX_LINKS := 512

  datatype Refusal = TooMany | SelfLink | RootTarget | TwoParents | Unreachable

  datatype Accepted = Accepted(root: string, links: seq<Link>)

  datatype Result = Ok(topology: Accepted) | Err(error: Refusal)

  function Ends(root: string, links: seq<Link>): set<string> {
    {root} + (set l | l in links :: l.target)
  }

  /** Everything reached so far was found link by link. */
  ghost predicate Explored(root: string, links: seq<Link>, reachable: set<string>, order: seq<Link>) {
    Grown(root, order) && SetOf(order) <= SetOf(links) && reachable == Nodes(root, order) <= Ends(root, links)
  }

  /** The targets of one node that were not reached before. */
  method Expand(root: string, links: seq<Link>, source: string, reachable: set<string>, ghost order: seq<Link>)
    returns (more: set<string>, found: seq<string>, ghost longer: seq<Link>)
    requires Explored(root, links, reachable, order) && source in reachable
    ensures Explored(root, links, more, longer) && reachable <= more
    ensures forall n :: n in found <==> n in more && n !in reachable
    ensures forall l :: l in links && l.source == source ==> l.target in more
  {
    more, found, longer := reachable, [], order;
    for i := 0 to |links|
      invariant Explored(root, links, more, longer) && reachable <= more
      invariant forall n :: n in found <==> n in more && n !in reachable
      invariant forall j :: 0 <= j < i && links[j].source == source ==> links[j].target in more
    {
      var l := links[i];
      if l.source == source && l.target !in more {
        longer := longer + [l];
        more := more + {l.target};
        found := found + [l.target];
      }
    }
    hide Explored;
  }

  lemma StartExplored(root: string, links: seq<Link>)
    ensures Explored(root, links, {root}, [])
  {
  }

  lemma ExploredWithin(root: string, links: seq<Link>, reachable: set<string>, order: seq<Link>)
    requires Explored(root, links, reachable, order)
    ensures reachable <= Ends(root, links)
  {
  }

  /** Follow the links from the root; `order` lists the link by which each further node was found. */
  method FollowLinks(root: string, links: seq<Link>) returns (reachable: set<string>, ghost order: seq<Link>)
    ensures Explored(root, links, reachable, order)
    ensures Closed(reachable, SetOf(links))
  {
    hide Explored, Ends;
    reachable, order := {root}, [];
    StartExplored(root, links);
    var pending := [root];
    while pending != []
      invariant Explored(root, links, reachable, order)
      invariant forall n :: n in pending ==> n in reachable
      invariant forall l :: l in links && l.source in reachable && l.source !in pending ==> l.target in reachable
      decreases |Ends(root, links)| - |reachable|, |pending|
    {
      var source := pending[|pending| - 1];
      var rest := pending[..|pending| - 1];
      assert pending == rest + [source];
      var more, found;
      ghost var longer;
      more, found, longer := Expand(root, links, source, reachable, order);
      ExploredWithin(root, links, more, longer);
      ExploredWithin(root, links, reachable, order);
      Growth(reachable, more, Ends(root, links), found);
      reachable, order, pending := more, longer, rest + found;
    }
  }

  lemma Growth(a: set<string>, b: set<string>, all: set<string>, found: seq<string>)
    requires a <= b <= all
    requires forall n :: n in found <==> n in b && n !in a
    ensures |a| <= |b| <= |all|
    ensures found == [] ==> a == b
    ensures found != [] ==> |a| < |b|
  {
    assert b == a + (b - a) && all == b + (all - b);
    if found != [] {
      assert found[0] in b - a;
    }
  }

  // ---- acceptance --------------------------------------------------------

  predicate NoSelfLink(links: seq<Link>) {
    forall i :: 0 <= i < |links| ==> links[i].source != links[i].target
  }

  function TargetsOf(links: seq<Link>): set<string> {
    set l | l in links :: l.target
  }

  lemma ParentedSnoc(root: string, links: seq<Link>, l: Link)
    requires Parented(root, links) && NoSelfLink(links)
    requires l.source != l.target && l.target != root && l.target !in TargetsOf(links)
    ensures Parented(root, links + [l]) && NoSelfLink(links + [l])
    ensures TargetsOf(links + [l]) == TargetsOf(links) + {l.target}
  {
  }

  /** The first thing wrong with a link, in the order they are listed. */
  method CheckLinks(root: string, links: seq<Link>) returns (error: Option<Refusal>)
    ensures error.None? ==> Parented(root, links)
    ensures error.Some? ==> !Tree(root, links) && error.value !in {TooMany, Unreachable}
  {
    hide Parented, NoSelfLink, TargetsOf, Tree;
    var targets: set<string> := {};
    NothingListed(root);
    for i := 0 to |links|
      invariant targets == TargetsOf(links[..i])
      invariant Parented(root, links[..i]) && NoSelfLink(links[..i])
    {
      var l := links[i];
      assert links[..i + 1] == links[..i] + [l];
      if l.source == l.target {
        NotTree(root, links, l);
        return Some(SelfLink);
      }
      if l.target == root {
        NotTree(root, links, l);
        return Some(RootTarget);
      }
      if l.target in targets {
        SharedTarget(root, links, i);
        return Some(TwoParents);
      }
      ParentedSnoc(root, links[..i], l);
      targets := targets + {l.target};
    }
    assert links[..|links|] == links;
    error := None;
  }

  lemma NothingListed(root: string)
    ensures Parented(root, []) && NoSelfLink([]) && TargetsOf([]) == {}
  {
  }

  /** Exactly the trees of at most 512 links are accepted, as they are listed. */
  method ConnectionTopology(root: string, links: seq<Link>) returns (r: Result)
    ensures r.Ok? <==> |links| <= TOPOLOGY_MAX_LINKS && Tree(root, links)
    ensures r.Ok? ==> r.topology == Accepted(root, links)
    ensures r == Err(TooMany) <==> |links| > TOPOLOGY_MAX_LINKS
    ensures r == Err(Unreachable) ==> Parented(root, links)
  {
    hide Tree, Parented, Explored, Closed;
    if |links| > TOPOLOGY_MAX_LINKS {
      return Err(TooMany);
    }
    var error := CheckLinks(root, links);
    if error.Some? {
      return Err(error.value);
    }
    var reachable;
    ghost var order;
    reachable, order := FollowLinks(root, links);
    RootExplored(root, links, reachable, order);
    if exists l | l in links :: l.source !in reachable || l.target !in reachable {
      ghost var l :| l in links && (l.source !in reachable || l.target !in reachable);
      OutOfReach(root, links, reachable, l);
      return Err(Unreachable);
    }
    AllFollowed(root, links, reachable, order);
    return Ok(Accepted(root, links));
  }

  lemma RootExplored(root: string, links: seq<Link>, reachable: set<string>, order: seq<Link>)
    requires Explored(root, links, reachable, order)
    ensures root in reachable
  {
    NodesAre(root, order, root);
  }

  lemma NotTree(root: string, links: seq<Link>, l: Link)
    requires l in links && (l.source == l.target || l.target == root)
    ensures !Tree(root, links)
  {
    if Tree(root, links) {
      TreeMeans(root, links);
    }
  }

  lemma SharedTarget(root: string, links: seq<Link>, i: nat)
    requires i < |links| && links[i].target in TargetsOf(links[..i])
    ensures !Tree(root, links)
  {
    if Tree(root, links) {
      TreeMeans(root, links);
    }
  }

  lemma OutOfReach(root: string, links: seq<Link>, reachable: set<string>, l: Link)
    requires root in reachable && Closed(reachable, SetOf(links))
    requires l in links && (l.source !in reachable || l.target !in reachable)
    ensures !Tree(root, links)
  {
    if Tree(root, links) {
      TreeMeans(root, links);
    }
  }

  /** Once every endpoint is reached, the links in the order they were followed are all of them. */
  lemma AllFollowed(root: string, links: seq<Link>, reachable: set<string>, order: seq<Link>)
    requires Explored(root, links, reachable, order) && Parented(root, links)
    requires forall l :: l in links ==> l.target in reachable
    ensures Tree(root, links)
  {
    GrownParented(root, order);
    forall l | l in links ensures l in order {
      NodesAre(root, order, l.target);
      assert l.target != root;
      var o :| o in order && o.target == l.target;
      assert o in SetOf(links);
    }
    assert SetOf(order) == SetOf(links);
    SameElements(order, links);
  }

  // ---- removing a host ---------------------------------------------------

  function Touches(l: Link, host: string): bool {
    l.source == host || l.target == host
  }

  function NotTouching(links: seq<Link>, host: string): seq<Link> {
    if links == [] then []
    else
      NotTouching(links[..|links| - 1], host)
      + if Touches(links[|links| - 1], host) then [] else [links[|links| - 1]]
  }

  lemma NotTouchingHas(links: seq<Link>, host: string, l: Link)
    ensures l in NotTouching(links, host) <==> l in links && !Touches(l, host)
  {
  }

  lemma {:induction false} NotTouchingParented(root: string, links: seq<Link>, host: string)
    requires Parented(root, links)
    ensures Parented(root, NotTouching(links, host))
  {
    if links != [] {
      var past := links[..|links| - 1];
      var last := links[|links| - 1];
      NotTouchingParented(root, past, host);
      var kept := NotTouching(past, host);
      forall i | 0 <= i < |kept| ensures kept[i].target != last.target {
        NotTouchingHas(past, host, kept[i]);
        var j :| 0 <= j < |past| && past[j] == kept[i];
        assert links[j] == past[j];
      }
    }
  }

  /** What the repair has done so far: links kept in the order they were reached, links still waiting. */
  ghost predicate Repairing(root: string, all: seq<Link>, retained: seq<Link>, pending: seq<Link>) {
    && Grown(root, retained)
    && multiset(retained) + multiset(pending) == multiset(all)
  }

  /** One pass over the waiting links. */
  method Pass(root: string, ghost all: seq<Link>, retained: seq<Link>, pending: seq<Link>, reachable: set<string>)
    returns (kept: seq<Link>, remainder: seq<Link>, reached: set<string>)
    requires Parented(root, all) && Repairing(root, all, retained, pending) && reachable == Nodes(root, retained)
    ensures Repairing(root, all, kept, remainder) && reached == Nodes(root, kept)
    ensures |remainder| <= |pending|
    ensures |remainder| == |pending| ==>
              reached == reachable && remainder == pending && forall l :: l in pending ==> l.source !in reached
  {
    hide Parented, Repairing, Nodes;
    kept, remainder, reached := retained, [], reachable;
    assert pending == [] + pending[0..];
    for i := 0 to |pending|
      invariant Repairing(root, all, kept, remainder + pending[i..])
      invariant reached == Nodes(root, kept)
      invariant |remainder| <= i
      invariant |remainder| == i ==>
          reached == reachable && remainder == pending[..i] && forall l :: l in remainder ==> l.source !in reached
    {
      var l := pending[i];
      Advanced(pending, i);
      if l.source in reached {
        RetainOne(root, all, kept, remainder, pending[i + 1..], l);
        kept := kept + [l];
        reached := reached + {l.target};
      } else {
        Reassociate(remainder, l, pending[i + 1..]);
        remainder := remainder + [l];
      }
    }
    assert pending[..|pending|] == pending && remainder + pending[|pending|..] == remainder;
  }

  lemma RetainOne(root: string, all: seq<Link>, kept: seq<Link>, remainder: seq<Link>, later: seq<Link>, l: Link)
    requires Parented(root, all) && Repairing(root, all, kept, remainder + ([l] + later))
        && l.source in Nodes(root, kept)
    ensures Repairing(root, all, kept + [l], remainder + later)
    ensures Nodes(root, kept + [l]) == Nodes(root, kept) + {l.target}
  {
    hide Parented;
    NodesAre(root, kept, l.target);
    LinkMoves(kept, remainder, later, l);
    NewTarget(root, all, kept, l, remainder + ([l] + later));
  }

  lemma LinkMoves(kept: seq<Link>, remainder: seq<Link>, later: seq<Link>, l: Link)
    ensures multiset(kept + [l]) + multiset(remainder + later) == multiset(kept) + multiset(remainder + ([l] + later))
  {
  }

  /** A link still waiting has a target no kept link has. */
  lemma NewTarget(root: string, all: seq<Link>, kept: seq<Link>, l: Link, waiting: seq<Link>)
    requires Parented(root, all) && multiset(kept) + multiset(waiting) == multiset(all) && l in waiting
    ensures l.target != root && forall k :: k in kept ==> k.target != l.target
  {
    assert l in multiset(all);
    forall k | k in kept ensures k.target != l.target {
      assert k in multiset(all);
      if k == l {
        assert multiset(kept)[l] >= 1 && multiset(waiting)[l] >= 1;
        AtMostOnce(root, all, l);
      }
    }
  }

  lemma AtMostOnce(root: string, all: seq<Link>, l: Link)
    requires Parented(root, all)
    ensures multiset(all)[l] <= 1
  {
    assert NoDuplicates(all);
    CountOnce(all, l);
  }

  /** The links that survive a removal: not touching the host, from a node that can still be reached. */
  ghost predicate Survives(root: string, links: seq<Link>, host: string, l: Link) {
    l in links && !Touches(l, host) && Reachable(root, SetOf(NotTouching(links, host)), l.source)
  }

  /** Removing the root drops the topology.  Removing another host keeps exactly the surviving links, and they
      form a tree again, so the repaired topology is accepted. */
  method RemoveTopologyHost(root: string, links: seq<Link>, host: string) returns (repaired: Option<seq<Link>>)
    requires Tree(root, links)
    ensures repaired.None? <==> host == root
    ensures repaired.Some? ==> Tree(root, repaired.value) && |repaired.value| <= |links|
    ensures repaired.Some? ==> forall l :: l in repaired.value <==> Survives(root, links, host, l)
  {
    hide Tree, Survives;
    if host == root {
      return None;
    }
    var all := FilterLinks(links, host);
    TreeParented(root, links);
    NotTouchingParented(root, links, host);
    var reachable := {root};
    var retained: seq<Link> := [];
    var pending := all;
    var progressed := true;
    while pending != [] && progressed
      invariant Repairing(root, all, retained, pending) && reachable == Nodes(root, retained)
      invariant progressed || forall l :: l in pending ==> l.source !in reachable
      decreases |pending|, progressed
    {
      hide Repairing, Parented;
      var kept, remainder, reached := Pass(root, all, retained, pending, reachable);
      progressed := |remainder| < |pending|;
      retained, pending, reachable := kept, remainder, reached;
    }
    Repaired(root, links, host, retained, pending, reachable);
    return Some(retained);
  }

  method FilterLinks(links: seq<Link>, host: string) returns (r: seq<Link>)
    ensures r == NotTouching(links, host)
  {
    r := [];
    for i := 0 to |links|
      invariant r == NotTouching(links[..i], host)
    {
      if links[i].source != host && links[i].target != host {
        r := r + [links[i]];
      }
      assert links[..i + 1][..i] == links[..i];
    }
    assert links[..|links|] == links;
  }

  lemma TreeParented(root: string, links: seq<Link>)
    requires Tree(root, links)
    ensures Parented(root, links)
  {
    TreeMeans(root, links);
  }

  lemma NotTouchingShorter(links: seq<Link>, host: string)
    ensures |NotTouching(links, host)| <= |links|
  {
  }

  lemma RepairingHas(root: string, all: seq<Link>, retained: seq<Link>, pending: seq<Link>, l: Link)
    requires Repairing(root, all, retained, pending)
    ensures l in all <==> l in retained || l in pending
    ensures |retained| <= |all|
  {
    assert l in all <==> l in multiset(all);
    assert l in retained <==> l in multiset(retained);
    assert l in pending <==> l in multiset(pending);
    assert |multiset(all)| == |multiset(retained)| + |multiset(pending)|;
  }

  lemma RepairedReaches(root: string, all: seq<Link>, retained: seq<Link>, pending: seq<Link>, n: string)
    requires Repairing(root, all, retained, pending)
    requires forall l :: l in pending ==> l.source !in Nodes(root, retained)
    ensures n in Nodes(root, retained) <==> Reachable(root, SetOf(all), n)
  {
    var reachable := Nodes(root, retained);
    forall l | l in SetOf(all) && l.source in reachable ensures l.target in reachable {
      RepairingHas(root, all, retained, pending, l);
      NodesAre(root, retained, l.target);
    }
    assert Closed(reachable, SetOf(all));
    NodesAre(root, retained, root);
    if n in reachable {
      forall l | l in retained ensures l in SetOf(all) {
        RepairingHas(root, all, retained, pending, l);
      }
      forall s: set<string> | root in s && Closed(s, SetOf(all)) ensures n in s {
        GrownReaches(root, retained, s, SetOf(all));
      }
    }
  }

  lemma Repaired(
    root: string, links: seq<Link>, host: string, retained: seq<Link>, pending: seq<Link>, reachable: set<string>)
    requires Repairing(root, NotTouching(links, host), retained, pending)
    requires reachable == Nodes(root, retained)
    requires forall l :: l in pending ==> l.source !in reachable
    ensures Tree(root, retained) && |retained| <= |links|
    ensures forall l :: l in retained <==> Survives(root, links, host, l)
  {
    var all := NotTouching(links, host);
    NotTouchingShorter(links, host);
    GrownParented(root, retained);
    forall l ensures l in retained <==> Survives(root, links, host, l) {
      RepairingHas(root, all, retained, pending, l);
      RepairedReaches(root, all, retained, pending, l.source);
      NotTouchingHas(links, host, l);
    }
    RepairingHas(root, all, retained, pending, Link("", ""));
    hide Nodes, Reachable, NotTouching;
  }
}
