/**
  From SSH routes to a display tree: hop chains of arbitrary, possibly cyclic
  routes, and the links they leave.
 */
module TopologyRoutes {
  import opened Common
  import opened TopologyTrees
  import ProcessOrder

  /** The hops each alias's route names, nearest to the monitor first. */
  type Routes = map<string, seq<string>>

  type Chains = map<string, seq<string>>

  predicate HasHops(routes: Routes, alias: string) {
    alias in routes && routes[alias] != []
  }

  /** Hops in order, each once, without the root and the node itself. */
  function Combine(hops: seq<string>, root: string, node: string): seq<string> {
    if hops == [] then []
    else
      var before := Combine(hops[..|hops| - 1], root, node);
      var hop := hops[|hops| - 1];
      if hop in before || hop == root || hop == node then before else before + [hop]
  }

  predicate Distinct(s: seq<string>) {
    forall i, j :: 0 <= i < j < |s| ==> s[i] != s[j]
  }

  predicate Clean(root: string, node: string, chain: seq<string>) {
    Distinct(chain) && root !in chain && node !in chain
  }

  lemma {:induction false} CombineClean(hops: seq<string>, root: string, node: string)
    ensures Clean(root, node, Combine(hops, root, node))
    ensures forall h :: h in Combine(hops, root, node) <==> h in hops && h != root && h != node
  {
    if hops != [] {
      CombineClean(hops[..|hops| - 1], root, node);
      assert hops == hops[..|hops| - 1] + [hops[|hops| - 1]];
    }
  }

  // ---- the recursive formulation -----------------------------------------

  /** First hops lead down: the routes have no cycle along them. */
  ghost predicate Descending(routes: Routes, rank: map<string, nat>) {
    forall n :: HasHops(routes, n) && routes[n][0] in routes ==>
      n in rank && routes[n][0] in rank && rank[routes[n][0]] < rank[n]
  }

  ghost function RankOf(rank: map<string, nat>, n: string): nat {
    if n in rank then rank[n] else 0
  }

  /** A node's hops behind the chain of its first hop. */
  ghost function Expand(routes: Routes, root: string, rank: map<string, nat>, n: string): seq<string>
    requires Descending(routes, rank)
    decreases RankOf(rank, n), 1
  {
    if !HasHops(routes, n) then []
    else Combine(Prefix(routes, root, rank, n) + routes[n], root, n)
  }

  ghost function Prefix(routes: Routes, root: string, rank: map<string, nat>, n: string): seq<string>
    requires Descending(routes, rank) && HasHops(routes, n)
    decreases RankOf(rank, n), 0
  {
    var first := routes[n][0];
    if first in routes then Expand(routes, root, rank, first) else []
  }

  ghost predicate AllClean(root: string, cache: Chains) {
    forall n :: n in cache ==> Clean(root, n, cache[n])
  }

  /** On routes without cycles every cached chain is the recursive one. */
  ghost predicate Right(routes: Routes, root: string, rank: map<string, nat>, cache: Chains) {
    Descending(routes, rank) ==> forall n :: n in cache ==> cache[n] == Expand(routes, root, rank, n)
  }

  /** Chains found once stay as they are. */
  predicate Keeps(cache: Chains, known: Chains) {
    forall n :: n in cache ==> n in known && known[n] == cache[n]
  }

  // ---- the iterative form ------------------------------------------------

  /** First hops from the alias on, none twice. */
  ghost predicate Chained(routes: Routes, alias: string, stack: seq<string>) {
    && (stack != [] ==> stack[0] == alias)
    && (forall i :: 0 <= i < |stack| ==> HasHops(routes, stack[i]))
    && (forall i :: 0 <= i < |stack| - 1 ==> routes[stack[i]][0] == stack[i + 1])
  }

  lemma {:induction false} ChainDescends(
    routes: Routes, alias: string, stack: seq<string>, rank: map<string, nat>, i: nat)
    requires Descending(routes, rank) && Chained(routes, alias, stack) && i < |stack|
    requires routes[stack[|stack| - 1]][0] in routes
    ensures routes[stack[|stack| - 1]][0] != stack[i]
    ensures RankOf(rank, routes[stack[|stack| - 1]][0]) < RankOf(rank, stack[i])
    decreases |stack| - i
  {
    if i < |stack| - 1 {
      assert routes[stack[i]][0] == stack[i + 1];
      ChainDescends(routes, alias, stack, rank, i + 1);
    }
  }

  /** The walk has reached `cursor`. */
  ghost predicate Reached(routes: Routes, alias: string, stack: seq<string>, cursor: string) {
    && Chained(routes, alias, stack)
    && (if stack == [] then cursor == alias else routes[stack[|stack| - 1]][0] == cursor)
  }

  lemma ReachNext(routes: Routes, alias: string, stack: seq<string>, cursor: string)
    requires Reached(routes, alias, stack, cursor) && HasHops(routes, cursor)
    ensures Reached(routes, alias, stack + [cursor], routes[cursor][0])
  {
  }

  lemma NoReturn(routes: Routes, alias: string, stack: seq<string>, cursor: string, rank: map<string, nat>)
    requires Reached(routes, alias, stack, cursor) && cursor in routes && cursor in stack
    ensures !Descending(routes, rank)
  {
    if Descending(routes, rank) {
      var i :| 0 <= i < |stack| && stack[i] == cursor;
      ChainDescends(routes, alias, stack, rank, i);
    }
  }

  lemma KnownPrefix(routes: Routes, root: string, rank: map<string, nat>, cache: Chains, node: string)
    requires Right(routes, root, rank, cache) && Descending(routes, rank) && HasHops(routes, node)
    ensures routes[node][0] in cache && routes[node][0] in routes ==>
              Prefix(routes, root, rank, node) == cache[routes[node][0]]
    ensures !HasHops(routes, routes[node][0]) ==> Prefix(routes, root, rank, node) == []
  {
  }

  lemma KnowDeadEnd(routes: Routes, root: string, rank: map<string, nat>, cache: Chains, node: string)
    requires AllClean(root, cache) && Right(routes, root, rank, cache) && !HasHops(routes, node)
    ensures AllClean(root, cache[node := []]) && Right(routes, root, rank, cache[node := []])
  {
  }

  ghost predicate Walking(
    routes: Routes, cache: Chains, alias: string, stack: seq<string>, seen: set<string>, cursor: string)
  {
    && Reached(routes, alias, stack, cursor)
    && seen <= routes.Keys && seen !! cache.Keys
    && cursor !in seen && cursor !in cache
    && forall n :: n in stack <==> n in seen
  }

  predicate Outside(stack: seq<string>, cache: Chains) {
    forall n :: n in stack ==> n !in cache
  }

  lemma WalkOn(routes: Routes, cache: Chains, alias: string, stack: seq<string>, seen: set<string>, cursor: string)
    requires Walking(routes, cache, alias, stack, seen, cursor) && HasHops(routes, cursor)
    ensures
      var longer := stack + [cursor];
      var first := routes[cursor][0];
      && Reached(routes, alias, longer, first) && Chained(routes, alias, longer) && Outside(longer, cache)
      && |routes.Keys - (seen + {cursor})| < |routes.Keys - seen|
      && (first in seen + {cursor} ==> first in longer)
      && (first in routes && first !in cache && first !in seen + {cursor} ==>
            Walking(routes, cache, alias, longer, seen + {cursor}, first))
  {
    ReachNext(routes, alias, stack, cursor);
    LessLeft(routes.Keys, seen, cursor);
    hide Chained;
  }

  lemma WalkStops(routes: Routes, cache: Chains, alias: string, stack: seq<string>, seen: set<string>, cursor: string)
    requires Walking(routes, cache, alias, stack, seen, cursor)
    ensures Chained(routes, alias, stack) && Outside(stack, cache)
    ensures stack == [] ==> cursor == alias
    ensures stack != [] ==> HasHops(routes, stack[|stack| - 1]) && routes[stack[|stack| - 1]][0] == cursor
  {
  }

  lemma WalkStarts(routes: Routes, cache: Chains, alias: string)
    requires alias !in cache
    ensures Walking(routes, cache, alias, [], {}, alias)
  {
  }

  /** Walk down the first hops to a chain that is known, a dead end or a cycle. */
  method WalkDown(routes: Routes, root: string, cache: Chains, alias: string, ghost rank: map<string, nat>)
    returns (stack: seq<string>, prefix: seq<string>, known: Chains, cycle: bool)
    requires AllClean(root, cache) && Right(routes, root, rank, cache) && alias !in cache
    ensures AllClean(root, known) && Right(routes, root, rank, known) && Keeps(cache, known)
    ensures Chained(routes, alias, stack) && Outside(stack, cache)
    ensures stack == [] ==> alias in known
    ensures stack != [] && Descending(routes, rank) ==> prefix == Prefix(routes, root, rank, stack[|stack| - 1])
    ensures cycle ==> !Descending(routes, rank)
  {
    hide AllClean, Right, Descending, Prefix, Expand, Walking, Chained, Outside, Reached, Keeps;
    stack, prefix, known, cycle := [], [], cache, false;
    KeepsSelf(cache);
    var seen: set<string> := {};
    var cursor := alias;
    WalkStarts(routes, cache, alias);
    while true
      invariant Walking(routes, cache, alias, stack, seen, cursor)
      decreases |routes.Keys - seen|
    {
      if cursor !in routes || routes[cursor] == [] {
        WalkStops(routes, cache, alias, stack, seen, cursor);
        NotCached(routes, cache, alias, stack, seen, cursor);
        KeepsNew(cache, cursor, []);
        KnowDeadEnd(routes, root, rank, cache, cursor);
        known := known[cursor := []];
        if stack != [] && Descending(routes, rank) {
          KnownPrefix(routes, root, rank, cache, stack[|stack| - 1]);
        }
        return;
      }
      WalkOn(routes, cache, alias, stack, seen, cursor);
      stack := stack + [cursor];
      seen := seen + {cursor};
      var first := routes[cursor][0];
      if Descending(routes, rank) {
        KnownPrefix(routes, root, rank, cache, cursor);
      }
      if first !in routes {
        return;
      }
      if first in known {
        prefix := known[first];
        return;
      }
      if first in seen {
        NoReturn(routes, alias, stack, first, rank);
        cycle := true;
        return;
      }
      cursor := first;
    }
  }

  lemma KeepsSelf(cache: Chains)
    ensures Keeps(cache, cache)
  {
  }

  lemma KeepsNew(cache: Chains, node: string, chain: seq<string>)
    requires node !in cache
    ensures Keeps(cache, cache[node := chain])
  {
  }

  lemma NotCached(routes: Routes, cache: Chains, alias: string, stack: seq<string>, seen: set<string>, cursor: string)
    requires Walking(routes, cache, alias, stack, seen, cursor)
    ensures cursor !in cache
  {
  }

  lemma LessLeft(all: set<string>, seen: set<string>, n: string)
    requires n in all && n !in seen
    ensures |all - (seen + {n})| < |all - seen|
  {
    assert all - seen == all - (seen + {n}) + {n};
  }

  method CombineHops(hops: seq<string>, root: string, node: string) returns (combined: seq<string>)
    ensures combined == Combine(hops, root, node)
  {
    combined := [];
    for i := 0 to |hops|
      invariant combined == Combine(hops[..i], root, node)
    {
      if hops[i] !in combined && hops[i] != root && hops[i] != node {
        combined := combined + [hops[i]];
      }
      assert hops[..i + 1][..i] == hops[..i];
    }
    assert hops[..|hops|] == hops;
  }

  /** One level of the unwinding. */
  lemma UnwindOne(
    routes: Routes, root: string, rank: map<string, nat>, cache: Chains, node: string, prefix: seq<string>)
    requires AllClean(root, cache) && Right(routes, root, rank, cache) && HasHops(routes, node)
    requires Descending(routes, rank) ==> prefix == Prefix(routes, root, rank, node)
    ensures
      var chain := Combine(prefix + routes[node], root, node);
      AllClean(root, cache[node := chain]) && Right(routes, root, rank, cache[node := chain])
  {
    CombineClean(prefix + routes[node], root, node);
  }

  /** For any routes the chain is found, has no repetition and names neither the root nor its own node; without a
      cycle it is the recursive one. */
  method ExpandedHops(routes: Routes, root: string, cache: Chains, alias: string, ghost rank: map<string, nat>)
    returns (chain: seq<string>, known: Chains, cycle: bool)
    requires AllClean(root, cache) && Right(routes, root, rank, cache)
    ensures AllClean(root, known) && Right(routes, root, rank, known) && Keeps(cache, known)
    ensures Clean(root, alias, chain) && alias in known && known[alias] == chain
    ensures Descending(routes, rank) ==> chain == Expand(routes, root, rank, alias) && !cycle
  {
    if alias in cache {
      return cache[alias], cache, false;
    }
    var stack, prefix;
    stack, prefix, known, cycle := WalkDown(routes, root, cache, alias, rank);
    known := Unwind(routes, root, known, alias, stack, prefix, cache, rank);
    chain := known[alias];
  }

  /** Empties the stack from its top: the chain of each node is the prefix for the node beneath it. */
  method Unwind(routes: Routes, root: string, cache: Chains, alias: string, stack: seq<string>, deepest: seq<string>,
                ghost from: Chains, ghost rank: map<string, nat>)
    returns (known: Chains)
    requires AllClean(root, cache) && Right(routes, root, rank, cache) && Chained(routes, alias, stack)
    requires stack == [] ==> alias in cache
    requires Outside(stack, from)
    requires Keeps(from, cache)
    requires stack != [] && Descending(routes, rank) ==> deepest == Prefix(routes, root, rank, stack[|stack| - 1])
    ensures AllClean(root, known) && Right(routes, root, rank, known) && Keeps(from, known) && alias in known
  {
    known := cache;
    var prefix := deepest;
    var i := |stack|;
    while i > 0
      invariant 0 <= i <= |stack|
      invariant AllClean(root, known) && Right(routes, root, rank, known) && Keeps(from, known)
      invariant cache.Keys <= known.Keys
      invariant i < |stack| ==> stack[i] in known
      invariant i > 0 && Descending(routes, rank) ==> prefix == Prefix(routes, root, rank, stack[i - 1])
    {
      hide AllClean, Right, Descending, Combine;
      i := i - 1;
      var node := stack[i];
      assert i > 0 ==> routes[stack[i - 1]][0] == node && node in routes;
      UnwindOne(routes, root, rank, known, node, prefix);
      prefix := CombineHops(prefix + routes[node], root, node);
      known := known[node := prefix];
    }
  }
}
