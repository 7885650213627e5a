/**
  Connection topologies.  A set of links is a tree when it can be grown from
  the root one new node at a time.
 */
module TopologyTrees {
  import opened Common

  datatype Link = Link(source: string, target: string)

  function SetOf(links: seq<Link>): set<Link> {
    set l | l in links
  }

  function Nodes(root: string, links: seq<Link>): set<string> {
    if links == [] then {root} else Nodes(root, links[..|links| - 1]) + {links[|links| - 1].target}
  }

  /** Each link hangs a new node under one that is already there. */
  predicate Grown(root: string, links: seq<Link>) {
    links == [] ||
    var past := links[..|links| - 1];
    var l := links[|links| - 1];
    Grown(root, past) && l.source in Nodes(root, past) && l.target !in Nodes(root, past)
  }

  ghost predicate Tree(root: string, links: seq<Link>) {
    exists order :: Grown(root, order) && multiset(order) == multiset(links)
  }

  /** No node has two parents and the root has none. */
  predicate Parented(root: string, links: seq<Link>) {
    && (forall i, j :: 0 <= i < j < |links| ==> links[i].target != links[j].target)
    && forall i :: 0 <= i < |links| ==> links[i].target != root
  }

  // ---- reachability ------------------------------------------------------

  ghost predicate Closed(s: set<string>, links: set<Link>) {
    forall l :: l in links && l.source in s ==> l.target in s
  }

  /** In every set that contains `from` and follows the links. */
  ghost predicate Reachable(from: string, links: set<Link>, n: string) {
    forall s: set<string> :: from in s && Closed(s, links) ==> n in s
  }

  // ---- facts about grown orders ------------------------------------------

  lemma NodesAre(root: string, links: seq<Link>, n: string)
    ensures n in Nodes(root, links) <==> n == root || exists l :: l in links && l.target == n
  {
  }

  lemma {:induction false} GrownParented(root: string, links: seq<Link>)
    requires Grown(root, links)
    ensures Parented(root, links)
    ensures forall l :: l in links ==>
        l.source != l.target && l.source in Nodes(root, links) && l.target in Nodes(root, links)
  {
    if links != [] {
      var past := links[..|links| - 1];
      var last := links[|links| - 1];
      GrownParented(root, past);
      NodesAre(root, past, last.target);
      assert links == past + [last];
      forall i | 0 <= i < |past| ensures past[i].target != last.target {
        assert past[i] in past;
      }
    }
  }

  /** Every node of a grown order lies in every closed set around the root. */
  lemma GrownReaches(root: string, links: seq<Link>, s: set<string>, all: set<Link>)
    requires Grown(root, links) && SetOf(links) <= all
    requires root in s && Closed(s, all)
    ensures Nodes(root, links) <= s
  {
  }

  /** The nodes of a set of links that all hang under its own nodes are closed. */
  lemma GrownClosed(root: string, links: seq<Link>)
    ensures Closed(Nodes(root, links), SetOf(links))
  {
    forall l | l in SetOf(links) ensures l.target in Nodes(root, links) {
      NodesAre(root, links, l.target);
    }
  }

  lemma NodesReachable(root: string, links: seq<Link>, n: string)
    requires Grown(root, links)
    ensures n in Nodes(root, links) <==> Reachable(root, SetOf(links), n)
  {
    GrownClosed(root, links);
    NodesAre(root, links, root);
    if n in Nodes(root, links) {
      forall s: set<string> | root in s && Closed(s, SetOf(links)) ensures n in s {
        GrownReaches(root, links, s, SetOf(links));
      }
    }
  }

  lemma SameSet(a: seq<Link>, b: seq<Link>)
    requires multiset(a) == multiset(b)
    ensures SetOf(a) == SetOf(b)
  {
    forall l ensures l in a <==> l in b {
      assert l in a <==> l in multiset(a);
      assert l in b <==> l in multiset(b);
    }
  }

  predicate NoDuplicates(links: seq<Link>) {
    forall i, j :: 0 <= i < j < |links| ==> links[i] != links[j]
  }

  lemma {:induction false} CountOnce(links: seq<Link>, l: Link)
    requires NoDuplicates(links)
    ensures multiset(links)[l] == if l in links then 1 else 0
  {
    if links != [] {
      var past := links[..|links| - 1];
      CountOnce(past, l);
      assert links == past + [links[|links| - 1]];
    }
  }

  lemma SameElements(a: seq<Link>, b: seq<Link>)
    requires NoDuplicates(a) && NoDuplicates(b) && SetOf(a) == SetOf(b)
    ensures multiset(a) == multiset(b)
  {
    forall l ensures multiset(a)[l] == multiset(b)[l] {
      CountOnce(a, l);
      CountOnce(b, l);
      assert l in a <==> l in SetOf(a);
      assert l in b <==> l in SetOf(b);
    }
  }

  lemma Twice(links: seq<Link>, i: nat, j: nat)
    requires i < j < |links| && links[i] == links[j]
    ensures multiset(links)[links[i]] >= 2
  {
    assert links == links[..j] + [links[j]] + links[j + 1..];
    assert links[i] == links[..j][i];
    assert links[i] in multiset(links[..j]);
  }

  lemma Once(links: seq<Link>, i: nat, j: nat)
    requires i < j < |links|
    requires forall l :: l in multiset(links) ==> multiset(links)[l] <= 1
    ensures links[i] != links[j]
  {
    if links[i] == links[j] {
      Twice(links, i, j);
    }
  }

  /** A tree's links, in whatever order they are listed: one parent each, none for the root, every endpoint
      reachable. */
  lemma TreeMeans(root: string, links: seq<Link>)
    requires Tree(root, links)
    ensures Parented(root, links)
    ensures forall l :: l in links ==>
      && l.source != l.target
      && Reachable(root, SetOf(links), l.source) && Reachable(root, SetOf(links), l.target)
  {
    var order :| Grown(root, order) && multiset(order) == multiset(links);
    GrownParented(root, order);
    SameSet(order, links);
    assert NoDuplicates(order);
    forall l | l in multiset(links) ensures multiset(links)[l] <= 1 {
      CountOnce(order, l);
    }
    forall i | 0 <= i < |links| ensures links[i].target != root {
      assert links[i] in SetOf(links);
      assert links[i] in order;
    }
    forall i, j | 0 <= i < j < |links| ensures links[i].target != links[j].target {
      Once(links, i, j);
      assert links[i] in SetOf(links) && links[j] in SetOf(links);
    }
    forall l | l in links
      ensures l.source != l.target && Reachable(root, SetOf(links), l.source) && Reachable(root, SetOf(links), l.target)
    {
      assert l in SetOf(links);
      NodesReachable(root, order, l.source);
      NodesReachable(root, order, l.target);
    }
  }
}
