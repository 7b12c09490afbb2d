// Bounded lexical context: seeds by score, breadth-first growth under a node budget, and
// trimming to an output budget.
module ContextSearch {
  import opened GraphSearch
  import opened Sets

  datatype Result<T> = Ok(value: T) | Err(error: Failure)

  datatype Failure = DuplicateNode | DanglingSource | DanglingTarget | OverBudget

  // Node identities and the neighbours of each, in both directions.
  datatype Index = Index(nodes: set<Id>, adjacency: map<Id, set<Id>>)

  ghost function Members(s: seq<Id>): set<Id> { set x | x in s }

  ghost predicate NoRepeats(s: seq<Id>) { forall i, j :: 0 <= i < j < |s| ==> s[i] != s[j] }

  // Distinct nodes, and no link leaves the graph.
  ghost predicate Closed(ids: seq<Id>, links: seq<Link>) {
    NoRepeats(ids) && forall l :: l in links ==> l.source in Members(ids) && l.target in Members(ids)
  }

  lemma NeighboursStep(links: seq<Link>, l: Link, x: Id)
    ensures Neighbours(links + [l], {x})
         == Neighbours(links, {x}) + (if l.source == x then {l.target} else {}) + (if l.target == x then {l.source} else {})
  {
    assert forall e :: e in links + [l] <==> e in links || e == l;
    var more := links + [l];
    forall y | y in Neighbours(links, {x}) ensures y in Neighbours(more, {x}) {
      if e :| e in links && e.source in {x} && e.target == y { assert e in more; }
      else { var e :| e in links && e.target in {x} && e.source == y; assert e in more; }
    }
    assert l in more;
  }

  // Adds a link to the adjacency of both its ends.
  function Link2(adj: map<Id, set<Id>>, l: Link): map<Id, set<Id>>
    requires l.source in adj && l.target in adj
  {
    var a := adj[l.source := adj[l.source] + {l.target}];
    a[l.target := a[l.target] + {l.source}]
  }

  // The neighbour sets of all nodes.
  ghost predicate Neighbourly(nodes: set<Id>, links: seq<Link>, adj: map<Id, set<Id>>) {
    adj.Keys == nodes && forall x :: x in nodes ==> adj[x] == Neighbours(links, {x})
  }

  lemma NeighbourlyStep(nodes: set<Id>, links: seq<Link>, adj: map<Id, set<Id>>, l: Link)
    requires Neighbourly(nodes, links, adj) && l.source in nodes && l.target in nodes
    ensures Neighbourly(nodes, links + [l], Link2(adj, l))
  {
    hide Neighbours;
    forall x | x in nodes ensures Link2(adj, l)[x] == Neighbours(links + [l], {x}) {
      NeighboursStep(links, l, x);
    }
  }

  method IndexNodes(ids: seq<Id>) returns (r: Result<set<Id>>)
    ensures r.Ok? <==> NoRepeats(ids)
    ensures r.Err? ==> r.error == DuplicateNode
    ensures r.Ok? ==> r.value == Members(ids)
  {
    var nodes: set<Id> := {};
    for i := 0 to |ids|
      invariant nodes == Members(ids[..i]) && NoRepeats(ids[..i])
    {
      assert ids[..i + 1] == ids[..i] + [ids[i]];
      if ids[i] in nodes {
        var j :| 0 <= j < i && ids[j] == ids[i];
        return Err(DuplicateNode);
      }
      nodes := nodes + {ids[i]};
    }
    assert ids[..|ids|] == ids;
    r := Ok(nodes);
  }

  /** Indexes a graph; fails exactly on a repeated node identity or a link that leaves the graph. */
  method BuildIndex(ids: seq<Id>, links: seq<Link>) returns (r: Result<Index>)
    ensures r.Ok? <==> Closed(ids, links)
    ensures r.Err? ==> r.error != OverBudget
    ensures r.Ok? ==> r.value.nodes == Members(ids) && Neighbourly(r.value.nodes, links, r.value.adjacency)
  {
    hide Neighbours, Neighbourly, NoRepeats;
    var indexed := IndexNodes(ids);
    if indexed.Err? { return Err(indexed.error); }
    var nodes := indexed.value;
    var adjacency: map<Id, set<Id>> := map x | x in nodes :: {};
    NoLinks(nodes, adjacency);
    for i := 0 to |links|
      invariant Neighbourly(nodes, links[..i], adjacency) && adjacency.Keys == nodes
      invariant forall l :: l in links[..i] ==> l.source in nodes && l.target in nodes
    {
      var l := links[i];
      assert l in links && links[..i + 1] == links[..i] + [l];
      if l.source !in nodes { return Err(DanglingSource); }
      if l.target !in nodes { return Err(DanglingTarget); }
      NeighbourlyStep(nodes, links[..i], adjacency, l);
      adjacency := Link2(adjacency, l);
    }
    assert links[..|links|] == links;
    r := Ok(Index(nodes, adjacency));
  }

  lemma NoLinks(nodes: set<Id>, adj: map<Id, set<Id>>)
    requires adj.Keys == nodes && forall x :: x in nodes ==> adj[x] == {}
    ensures Neighbourly(nodes, [], adj)
  {
  }

  // ----- seeds -----

  // Better score first, then smaller identity.
  predicate Ahead(score: Id -> nat, a: Id, b: Id) { score(a) > score(b) || (score(a) == score(b) && a < b) }

  // The scoring nodes in seed order.
  ghost predicate SeedOrder(nodes: set<Id>, score: Id -> nat, seeds: seq<Id>) {
    && (forall i, j :: 0 <= i < j < |seeds| ==> Ahead(score, seeds[i], seeds[j]))
    && (forall x :: x in seeds <==> x in nodes && score(x) > 0)
  }

  method PlaceSeed(score: Id -> nat, seeds: seq<Id>, x: Id) returns (r: seq<Id>)
    requires (forall i, j :: 0 <= i < j < |seeds| ==> Ahead(score, seeds[i], seeds[j])) && x !in seeds
    ensures forall i, j :: 0 <= i < j < |r| ==> Ahead(score, r[i], r[j])
    ensures forall y :: y in r <==> y == x || y in seeds
  {
    var k := 0;
    while k < |seeds| && Ahead(score, seeds[k], x)
      invariant k <= |seeds| && forall i :: 0 <= i < k ==> Ahead(score, seeds[i], x)
    {
      k := k + 1;
    }
    r := seeds[..k] + [x] + seeds[k..];
    forall i | k <= i < |seeds| ensures Ahead(score, x, seeds[i]) {
      if i > k { assert Ahead(score, seeds[k], seeds[i]); }
      assert seeds[k] in seeds;
    }
    assert seeds == seeds[..k] + seeds[k..];
  }

  method Seeds(nodes: set<Id>, score: Id -> nat) returns (seeds: seq<Id>)
    ensures SeedOrder(nodes, score, seeds)
  {
    seeds := [];
    var rest := nodes;
    while rest != {}
      invariant rest <= nodes && SeedOrder(nodes - rest, score, seeds)
      decreases |rest|
    {
      var x :| x in rest;
      if score(x) > 0 { seeds := PlaceSeed(score, seeds, x); }
      rest := rest - {x};
    }
    assert nodes - {} == nodes;
  }

  lemma {:induction false} MembersCard(s: seq<Id>)
    requires NoRepeats(s)
    ensures |Members(s)| == |s|
  {
    if s == [] {
    } else {
      var k := |s| - 1;
      MembersCard(s[..k]);
      assert s == s[..k] + [s[k]];
      assert Members(s) == Members(s[..k]) + {s[k]};
    }
  }

  // ----- growth -----

  // Breadth-first order after the first `t` nodes: each later node hangs off the first node
  // adjacent to it, parents in order, siblings by ascending identity.
  ghost predicate Grown(links: seq<Link>, t: nat, order: seq<Id>, parents: seq<nat>) {
    && t <= |order| == |parents| && NoRepeats(order)
    && (forall i :: t <= i < |order| ==>
          parents[i] < i && Adjacent(links, order[parents[i]], order[i]) && FirstParent(links, order, parents[i], order[i]))
    && (forall i, j :: t <= i < j < |order| ==> parents[i] < parents[j] || (parents[i] == parents[j] && order[i] < order[j]))
  }

  // No node before p is adjacent to y.
  ghost predicate FirstParent(links: seq<Link>, order: seq<Id>, p: nat, y: Id)
    requires p <= |order|
  {
    forall j :: 0 <= j < p ==> !Adjacent(links, order[j], y)
  }

  // Nearer nodes come first: distances never decrease along the order, and everything nearer
  // than a node stands before it.
  ghost predicate Layered(links: seq<Link>, roots: set<Id>, limit: nat, order: seq<Id>, dist: map<Id, nat>) {
    && Members(order) == dist.Keys
    && (forall i :: 0 <= i < |order| ==> Exact(links, roots, order[i], dist[order[i]]) && dist[order[i]] <= limit)
    && (forall i, j :: 0 <= i < j < |order| ==> dist[order[i]] <= dist[order[j]])
    && (forall i :: 0 <= i < |order| && dist[order[i]] > 0 ==> Ball(links, roots, dist[order[i]] - 1) <= Members(order[..i]))
  }

  lemma {:induction false} BallMonotone(links: seq<Link>, r: set<Id>, s: set<Id>, k: nat)
    requires r <= s
    ensures Ball(links, r, k) <= Ball(links, s, k)
  {
    hide Neighbours;
    if k == 0 {
    } else {
      BallMonotone(links, r, s, k - 1);
      NeighboursMonotone(links, Ball(links, r, k - 1), Ball(links, s, k - 1));
    }
  }

  lemma NeighboursMonotone(links: seq<Link>, a: set<Id>, b: set<Id>)
    requires a <= b
    ensures Neighbours(links, a) <= Neighbours(links, b)
  {
    hide Adjacent, Neighbours;
    NeighboursAre(links, a);
    NeighboursAre(links, b);
  }

  // The queue is the part of the order not yet expanded, with distances.
  ghost function QueueOf(order: seq<Id>, p: nat, dist: map<Id, nat>): seq<(Id, nat)>
    requires p <= |order| && forall x :: x in order ==> x in dist
  {
    seq(|order| - p, i requires 0 <= i < |order| - p => (order[p + i], dist[order[p + i]]))
  }

  lemma GrowOne(links: seq<Link>, roots: set<Id>, limit: nat, t: nat, order: seq<Id>, parents: seq<nat>, dist: map<Id, nat>,
                q: seq<(Id, nat)>, p: nat, d: nat, y: Id)
    requires Grown(links, t, order, parents) && Layered(links, roots, limit, order, dist)
    requires p < |order| && dist[order[p]] == d < limit
    requires q == QueueOf(order, p + 1, dist) && Searching(links, roots, limit, q, dist, d, {order[p]})
    requires Adjacent(links, order[p], y) && y !in dist
    requires forall i :: t <= i < |order| ==> parents[i] < p || (parents[i] == p && order[i] < y)
    ensures Grown(links, t, order + [y], parents + [p])
    ensures Layered(links, roots, limit, order + [y], dist[y := d + 1])
    ensures q + [(y, d + 1)] == QueueOf(order + [y], p + 1, dist[y := d + 1])
    ensures Searching(links, roots, limit, q + [(y, d + 1)], dist[y := d + 1], d, {order[p]})
  {
    hide Adjacent, Ball, Exact;
    SearchDiscover(links, roots, limit, q, dist, d, order[p], y);
    GrowOrder(links, roots, limit, t, order, parents, dist, q, p, d, y);
    GrowLayers(links, roots, limit, order, dist, q, p, d, y);
  }

  // Nodes expanded before have all their neighbours seen.
  lemma EarlierExpanded(links: seq<Link>, roots: set<Id>, limit: nat, order: seq<Id>, dist: map<Id, nat>, q: seq<(Id, nat)>, p: nat, d: nat, j: nat, y: Id)
    requires NoRepeats(order) && Layered(links, roots, limit, order, dist) && j < p < |order| && dist[order[p]] == d < limit
    requires q == QueueOf(order, p + 1, dist) && Searching(links, roots, limit, q, dist, d, {order[p]})
    ensures Adjacent(links, order[j], y) ==> y in dist
  {
    hide Adjacent, Ball, Exact;
    assert order[j] in Members(order);
    assert !InQueue(q, order[j]);
  }

  lemma GrowOrder(links: seq<Link>, roots: set<Id>, limit: nat, t: nat, order: seq<Id>, parents: seq<nat>, dist: map<Id, nat>,
                  q: seq<(Id, nat)>, p: nat, d: nat, y: Id)
    requires Grown(links, t, order, parents) && Layered(links, roots, limit, order, dist)
    requires p < |order| && dist[order[p]] == d < limit
    requires q == QueueOf(order, p + 1, dist) && Searching(links, roots, limit, q, dist, d, {order[p]})
    requires Adjacent(links, order[p], y) && y !in dist
    requires forall i :: t <= i < |order| ==> parents[i] < p || (parents[i] == p && order[i] < y)
    ensures Grown(links, t, order + [y], parents + [p])
  {
    hide Adjacent, Ball, Exact, Searching, InQueue;
    forall j | 0 <= j < p ensures !Adjacent(links, order[j], y) {
      EarlierExpanded(links, roots, limit, order, dist, q, p, d, j, y);
    }
    assert y !in order by { assert y in order ==> y in Members(order); }
    var order', parents' := order + [y], parents + [p];
    forall i | t <= i < |order'|
      ensures parents'[i] < i && Adjacent(links, order'[parents'[i]], order'[i]) && FirstParent(links, order', parents'[i], order'[i])
    {
      if i < |order| { assert FirstParent(links, order, parents[i], order[i]); }
    }
  }

  lemma GrowLayers(links: seq<Link>, roots: set<Id>, limit: nat, order: seq<Id>, dist: map<Id, nat>, q: seq<(Id, nat)>, p: nat, d: nat, y: Id)
    requires Layered(links, roots, limit, order, dist)
    requires p < |order| && dist[order[p]] == d < limit
    requires q == QueueOf(order, p + 1, dist) && Searching(links, roots, limit, q, dist, d, {order[p]})
    requires Exact(links, roots, y, d + 1) && y !in dist
    ensures Layered(links, roots, limit, order + [y], dist[y := d + 1])
    ensures q + [(y, d + 1)] == QueueOf(order + [y], p + 1, dist[y := d + 1])
  {
    hide Adjacent, Ball, Exact, InQueue, Searching;
    SearchSpread(links, roots, limit, q, dist, d, {order[p]});
    GrowPrefixes(links, roots, limit, order, dist, d, y);
    GrowDistances(links, roots, limit, order, dist, d, y);
    GrowQueue(order, p, dist, q, d, y);
  }

  lemma GrowQueue(order: seq<Id>, p: nat, dist: map<Id, nat>, q: seq<(Id, nat)>, d: nat, y: Id)
    requires p < |order| && Members(order) == dist.Keys && q == QueueOf(order, p + 1, dist) && y !in dist
    ensures forall x :: x in order + [y] ==> x in dist[y := d + 1]
    ensures q + [(y, d + 1)] == QueueOf(order + [y], p + 1, dist[y := d + 1])
  {
    assert forall i :: 0 <= i < |order| ==> order[i] in Members(order);
  }

  lemma GrowDistances(links: seq<Link>, roots: set<Id>, limit: nat, order: seq<Id>, dist: map<Id, nat>, d: nat, y: Id)
    requires Layered(links, roots, limit, order, dist) && y !in dist && d < limit && Exact(links, roots, y, d + 1)
    requires forall x :: x in dist ==> dist[x] <= d + 1
    ensures var order', dist' := order + [y], dist[y := d + 1];
            && Members(order') == dist'.Keys
            && (forall i :: 0 <= i < |order'| ==> Exact(links, roots, order'[i], dist'[order'[i]]) && dist'[order'[i]] <= limit)
            && (forall i, j :: 0 <= i < j < |order'| ==> dist'[order'[i]] <= dist'[order'[j]])
  {
    hide Ball, Exact;
    var order' := order + [y];
    assert Members(order') == Members(order) + {y};
    assert forall i :: 0 <= i < |order| ==> order[i] in Members(order);
  }

  // All seen nodes lie within one more step; the ball of the current depth is seen.
  lemma SearchSpread(links: seq<Link>, roots: set<Id>, limit: nat, q: seq<(Id, nat)>, dist: map<Id, nat>, d: nat, open: set<Id>)
    requires Searching(links, roots, limit, q, dist, d, open) && d <= limit
    ensures (forall x :: x in dist ==> dist[x] <= d + 1) && Ball(links, roots, d) <= dist.Keys
  {
    hide Adjacent, InQueue, Exact;
    BallSeen(links, roots, limit, q, dist, d, open, d);
  }

  lemma GrowPrefixes(links: seq<Link>, roots: set<Id>, limit: nat, order: seq<Id>, dist: map<Id, nat>, d: nat, y: Id)
    requires Layered(links, roots, limit, order, dist) && y !in dist && Ball(links, roots, d) <= dist.Keys
    ensures var order', dist' := order + [y], dist[y := d + 1];
            forall i :: 0 <= i < |order'| && dist'[order'[i]] > 0 ==> Ball(links, roots, dist'[order'[i]] - 1) <= Members(order'[..i])
  {
    hide Ball, Exact;
    var order', dist' := order + [y], dist[y := d + 1];
    forall i | 0 <= i < |order'| && dist'[order'[i]] > 0 ensures Ball(links, roots, dist'[order'[i]] - 1) <= Members(order'[..i]) {
      assert order'[..i] == order[..i];
      if i < |order| {
        assert order[i] in Members(order);
      } else {
        assert order[..i] == order;
      }
    }
  }

  // What growth under a node budget knows after expanding the first p nodes of the order.
  // Once a node was turned away the order is full and never changes again.
  ghost predicate Growing(links: seq<Link>, roots: set<Id>, limit: nat, maxNodes: nat, t: nat, order: seq<Id>, parents: seq<nat>,
                          dist: map<Id, nat>, q: seq<(Id, nat)>, p: nat, d: nat, turned: Option<Id>) {
    && Grown(links, t, order, parents) && Layered(links, roots, limit, order, dist)
    && |order| <= maxNodes && p <= |order| && (forall x :: x in order ==> x in dist) && q == QueueOf(order, p, dist)
    && (forall i :: t <= i < |order| ==> parents[i] < p)
    && (turned.None? ==> Searching(links, roots, limit, q, dist, d, {}))
    && (turned.Some? ==> |order| == maxNodes && turned.value in Ball(links, roots, limit) && turned.value !in dist)
  }

  // The same while node p is being expanded and `rest` of its neighbours are still to come.
  ghost predicate Expanding(links: seq<Link>, roots: set<Id>, limit: nat, maxNodes: nat, t: nat, order: seq<Id>, parents: seq<nat>,
                            dist: map<Id, nat>, q: seq<(Id, nat)>, p: nat, turned: Option<Id>, rest: set<Id>) {
    && Grown(links, t, order, parents) && Layered(links, roots, limit, order, dist)
    && |order| <= maxNodes && p < |order| && (forall x :: x in order ==> x in dist) && q == QueueOf(order, p + 1, dist)
    && dist[order[p]] < limit
    && (forall i :: t <= i < |order| ==> parents[i] < p || (parents[i] == p && forall y :: y in rest ==> order[i] < y))
    && (forall y :: y in rest ==> Adjacent(links, order[p], y))
    && (turned.None? ==>
          && Searching(links, roots, limit, q, dist, dist[order[p]], {order[p]})
          && forall y :: Adjacent(links, order[p], y) ==> y in dist || y in rest)
    && (turned.Some? ==> |order| == maxNodes && turned.value in Ball(links, roots, limit) && turned.value !in dist)
  }

  lemma OpenNode(links: seq<Link>, roots: set<Id>, limit: nat, maxNodes: nat, t: nat, order: seq<Id>, parents: seq<nat>,
                 dist: map<Id, nat>, q: seq<(Id, nat)>, p: nat, d: nat, turned: Option<Id>, rest: set<Id>)
    requires Growing(links, roots, limit, maxNodes, t, order, parents, dist, q, p, d, turned) && p < |order|
    requires dist[order[p]] < limit && rest == Neighbours(links, {order[p]})
    ensures Expanding(links, roots, limit, maxNodes, t, order, parents, dist, q[1..], p, turned, rest)
  {
    hide Adjacent, Ball, Exact, Grown, Layered, Searching, Neighbours;
    forall y ensures y in rest <==> Adjacent(links, order[p], y) { NeighbourOf(links, order[p], y); }
    if turned.None? { SearchPop(links, roots, limit, q, dist, d); }
  }

  lemma CloseNode(links: seq<Link>, roots: set<Id>, limit: nat, maxNodes: nat, t: nat, order: seq<Id>, parents: seq<nat>,
                  dist: map<Id, nat>, q: seq<(Id, nat)>, p: nat, turned: Option<Id>)
    requires Expanding(links, roots, limit, maxNodes, t, order, parents, dist, q, p, turned, {})
    ensures Growing(links, roots, limit, maxNodes, t, order, parents, dist, q, p + 1, dist[order[p]], turned)
  {
    hide Adjacent, Ball, Exact, Grown, Layered, Searching;
    if turned.None? { SearchClose(links, roots, limit, q, dist, dist[order[p]], order[p]); }
  }

  // A node at the depth limit is not expanded.
  lemma PassNode(links: seq<Link>, roots: set<Id>, limit: nat, maxNodes: nat, t: nat, order: seq<Id>, parents: seq<nat>,
                 dist: map<Id, nat>, q: seq<(Id, nat)>, p: nat, d: nat, turned: Option<Id>)
    requires Growing(links, roots, limit, maxNodes, t, order, parents, dist, q, p, d, turned) && p < |order|
    requires dist[order[p]] >= limit
    ensures Growing(links, roots, limit, maxNodes, t, order, parents, dist, q[1..], p + 1, dist[order[p]], turned)
  {
    hide Adjacent, Ball, Exact, Grown, Layered, Searching;
    if turned.None? {
      SearchPop(links, roots, limit, q, dist, d);
      SearchClose(links, roots, limit, q[1..], dist, dist[order[p]], order[p]);
    }
  }

  lemma SkipNeighbour(links: seq<Link>, roots: set<Id>, limit: nat, maxNodes: nat, t: nat, order: seq<Id>, parents: seq<nat>,
                      dist: map<Id, nat>, q: seq<(Id, nat)>, p: nat, turned: Option<Id>, rest: set<Id>, y: Id)
    requires Expanding(links, roots, limit, maxNodes, t, order, parents, dist, q, p, turned, rest) && y in dist
    ensures Expanding(links, roots, limit, maxNodes, t, order, parents, dist, q, p, turned, rest - {y})
  {
    hide Adjacent, Ball, Exact, Grown, Layered, Searching, QueueOf;
  }

  lemma TurnAway(links: seq<Link>, roots: set<Id>, limit: nat, maxNodes: nat, t: nat, order: seq<Id>, parents: seq<nat>,
                 dist: map<Id, nat>, q: seq<(Id, nat)>, p: nat, turned: Option<Id>, rest: set<Id>, y: Id)
    requires Expanding(links, roots, limit, maxNodes, t, order, parents, dist, q, p, turned, rest)
    requires y in rest && y !in dist && |order| == maxNodes
    ensures Expanding(links, roots, limit, maxNodes, t, order, parents, dist, q, p, Some(y), rest - {y})
  {
    hide Adjacent, Grown, Searching, QueueOf, Layered, Ball;
    LayerOf(links, roots, limit, order, dist, p);
    StepOut(links, roots, limit, order[p], dist[order[p]], y);
  }

  lemma LayerOf(links: seq<Link>, roots: set<Id>, limit: nat, order: seq<Id>, dist: map<Id, nat>, p: nat)
    requires Layered(links, roots, limit, order, dist) && p < |order|
    ensures order[p] in dist && order[p] in Ball(links, roots, dist[order[p]])
  {
    assert Exact(links, roots, order[p], dist[order[p]]);
  }

  lemma BallStep(links: seq<Link>, roots: set<Id>, x: Id, d: nat, y: Id)
    requires x in Ball(links, roots, d) && Adjacent(links, x, y)
    ensures y in Ball(links, roots, d + 1)
  {
    hide Adjacent, Neighbours;
    NeighboursAre(links, Ball(links, roots, d));
    assert y in Neighbours(links, Ball(links, roots, d));
  }

  lemma StepOut(links: seq<Link>, roots: set<Id>, limit: nat, x: Id, d: nat, y: Id)
    requires x in Ball(links, roots, d) && d < limit && Adjacent(links, x, y)
    ensures y in Ball(links, roots, limit)
  {
    hide Adjacent, Neighbours, Ball;
    BallStep(links, roots, x, d, y);
    BallGrows(links, roots, d + 1, limit);
  }

  lemma TakeNeighbour(links: seq<Link>, roots: set<Id>, limit: nat, maxNodes: nat, t: nat, order: seq<Id>, parents: seq<nat>,
                      dist: map<Id, nat>, q: seq<(Id, nat)>, p: nat, rest: set<Id>, y: Id)
    requires Expanding(links, roots, limit, maxNodes, t, order, parents, dist, q, p, None, rest)
    requires y in rest && y !in dist && |order| < maxNodes && forall z :: z in rest ==> y <= z
    ensures var d := dist[order[p]];
            Expanding(links, roots, limit, maxNodes, t, order + [y], parents + [p], dist[y := d + 1], q + [(y, d + 1)], p, None, rest - {y})
  {
    hide Adjacent, Ball, Exact, Grown, Layered, Searching;
    var d := dist[order[p]];
    GrownShape(links, t, order, parents);
    GrowOne(links, roots, limit, t, order, parents, dist, q, p, d, y);
    LayeredKeys(links, roots, limit, order + [y], dist[y := d + 1]);
  }

  lemma GrownShape(links: seq<Link>, t: nat, order: seq<Id>, parents: seq<nat>)
    requires Grown(links, t, order, parents)
    ensures |parents| == |order|
  {
  }

  lemma LayeredKeys(links: seq<Link>, roots: set<Id>, limit: nat, order: seq<Id>, dist: map<Id, nat>)
    requires Layered(links, roots, limit, order, dist)
    ensures Members(order) == dist.Keys && forall x :: x in order ==> x in dist
  {
    hide Ball, Exact;
    assert forall x :: x in order ==> x in Members(order);
  }

  method Smallest(s: set<Id>) returns (y: Id)
    requires s != {}
    ensures y in s && forall z :: z in s ==> y <= z
  {
    y :| y in s;
    var rest := s - {y};
    while rest != {}
      invariant rest <= s && y in s && forall z :: z in s && z !in rest ==> y <= z
      decreases |rest|
    {
      var z :| z in rest;
      if z < y { y := z; }
      rest := rest - {z};
    }
  }

  // Expands node p: neighbours in ascending order, as long as the budget allows.
  method ExpandNode(links: seq<Link>, ghost roots: set<Id>, ghost limit: nat, maxNodes: nat, ghost t: nat, adj: map<Id, set<Id>>,
                    ghost nodes: set<Id>, selected: set<Id>, order: seq<Id>, q: seq<(Id, nat)>, ghost parents: seq<nat>,
                    ghost dist: map<Id, nat>, ghost p: nat, id: Id, level: nat, ghost turned: Option<Id>)
    returns (selected': set<Id>, order': seq<Id>, q': seq<(Id, nat)>, truncated: bool, ghost parents': seq<nat>, ghost dist': map<Id, nat>,
             ghost turned': Option<Id>)
    requires Neighbourly(nodes, links, adj) && p < |order| && id == order[p] && id in nodes && level == (if order[p] in dist then dist[order[p]] else 0)
    requires Expanding(links, roots, limit, maxNodes, t, order, parents, dist, q, p, turned, Neighbours(links, {order[p]}))
    requires selected == dist.Keys && |order| == |selected|
    ensures selected' == dist'.Keys && |order'| == |selected'|
    ensures order <= order' && (forall x :: x in dist ==> x in dist' && dist'[x] == dist[x])
    ensures Expanding(links, roots, limit, maxNodes, t, order', parents', dist', q', p, turned', {})
    ensures turned.Some? ==> turned'.Some?
    ensures truncated ==> turned'.Some?
    ensures turned.None? ==> (truncated <==> turned'.Some?)
  {
    hide Expanding, Adjacent, Ball, Exact, Neighbours, NoRepeats;
    selected', order', q', truncated := selected, order, q, false;
    parents', dist', turned' := parents, dist, turned;
    NeighbourlyAt(nodes, links, adj, order[p]);
    ExpandingLevel(links, roots, limit, maxNodes, t, order, parents, dist, q, p, turned, Neighbours(links, {order[p]}));
    var rest := adj[id];
    while rest != {}
      invariant order <= order' && (forall x :: x in dist ==> x in dist' && dist'[x] == dist[x])
      invariant selected' == dist'.Keys && |order'| == |selected'|
      invariant Expanding(links, roots, limit, maxNodes, t, order', parents', dist', q', p, turned', rest)
      invariant turned.Some? ==> turned'.Some?
      invariant turned.None? ==> (truncated <==> turned'.Some?)
      invariant truncated ==> turned'.Some?
      decreases |rest|
    {
      var next := Smallest(rest);
      if next in selected' {
        SkipNeighbour(links, roots, limit, maxNodes, t, order', parents', dist', q', p, turned', rest, next);
      } else if |selected'| == maxNodes {
        TurnAway(links, roots, limit, maxNodes, t, order', parents', dist', q', p, turned', rest, next);
        truncated := true;
        turned' := Some(next);
      } else {
        RoomLeft(links, roots, limit, maxNodes, t, order', parents', dist', q', p, turned', rest);
        TakeNeighbour(links, roots, limit, maxNodes, t, order', parents', dist', q', p, rest, next);
        selected' := selected' + {next};
        order', parents' := order' + [next], parents' + [p];
        q' := q' + [(next, level + 1)];
        dist' := dist'[next := level + 1];
      }
      rest := rest - {next};
    }
  }

  lemma NeighbourlyAt(nodes: set<Id>, links: seq<Link>, adj: map<Id, set<Id>>, x: Id)
    requires Neighbourly(nodes, links, adj) && x in nodes
    ensures x in adj && adj[x] == Neighbours(links, {x})
  {
  }

  lemma ExpandingLevel(links: seq<Link>, roots: set<Id>, limit: nat, maxNodes: nat, t: nat, order: seq<Id>, parents: seq<nat>,
                       dist: map<Id, nat>, q: seq<(Id, nat)>, p: nat, turned: Option<Id>, rest: set<Id>)
    requires Expanding(links, roots, limit, maxNodes, t, order, parents, dist, q, p, turned, rest)
    ensures p < |order| <= maxNodes && order[p] in dist
  {
  }

  // A budget that is not used up was never exceeded.
  lemma RoomLeft(links: seq<Link>, roots: set<Id>, limit: nat, maxNodes: nat, t: nat, order: seq<Id>, parents: seq<nat>,
                 dist: map<Id, nat>, q: seq<(Id, nat)>, p: nat, turned: Option<Id>, rest: set<Id>)
    requires Expanding(links, roots, limit, maxNodes, t, order, parents, dist, q, p, turned, rest) && |order| != maxNodes
    ensures turned.None? && |order| < maxNodes
  {
  }

  lemma GrowStart(links: seq<Link>, limit: nat, maxNodes: nat, seeds: seq<Id>, dist: map<Id, nat>, q: seq<(Id, nat)>)
    requires NoRepeats(seeds) && |seeds| <= maxNodes && dist.Keys == Members(seeds) && forall x :: x in dist ==> dist[x] == 0
    requires |q| == |seeds| && forall i :: 0 <= i < |q| ==> q[i] == (seeds[i], 0)
    ensures Growing(links, Members(seeds), limit, maxNodes, |seeds|, seeds, seq(|seeds|, i => 0), dist, q, 0, 0, None)
  {
    hide Adjacent;
    assert forall x :: x in seeds ==> x in Members(seeds);
    forall x | x in Members(seeds) ensures InQueue(q, x) {
      var i :| 0 <= i < |seeds| && seeds[i] == x;
      assert q[i].0 == x;
    }
    assert forall i :: 0 <= i < |q| ==> seeds[i] in Members(seeds);
    SearchStart(links, Members(seeds), limit, q, dist);
    assert q == QueueOf(seeds, 0, dist);
  }

  // What the finished growth means: the order is the whole ball, or a node of the ball was
  // turned away from a full order.
  ghost predicate Final(links: seq<Link>, roots: set<Id>, limit: nat, maxNodes: nat, t: nat, order: seq<Id>, parents: seq<nat>,
                        dist: map<Id, nat>, truncated: bool) {
    && Grown(links, t, order, parents) && Layered(links, roots, limit, order, dist) && |order| <= maxNodes
    && (!truncated ==> Members(order) == Ball(links, roots, limit))
    && (truncated ==> |order| == maxNodes && exists y :: y in Ball(links, roots, limit) && y !in Members(order))
  }

  lemma GrowEnd(links: seq<Link>, roots: set<Id>, limit: nat, maxNodes: nat, t: nat, order: seq<Id>, parents: seq<nat>,
                dist: map<Id, nat>, q: seq<(Id, nat)>, p: nat, d: nat, turned: Option<Id>)
    requires Growing(links, roots, limit, maxNodes, t, order, parents, dist, q, p, d, turned) && q == []
    ensures Final(links, roots, limit, maxNodes, t, order, parents, dist, turned.Some?)
  {
    hide Adjacent, Ball, Exact, Grown, Searching;
    LayeredKeys(links, roots, limit, order, dist);
    if turned.None? { SearchDone(links, roots, limit, dist, d); }
  }

  lemma GrowingShape(links: seq<Link>, roots: set<Id>, limit: nat, maxNodes: nat, t: nat, order: seq<Id>, parents: seq<nat>,
                     dist: map<Id, nat>, q: seq<(Id, nat)>, p: nat, d: nat, turned: Option<Id>)
    requires Growing(links, roots, limit, maxNodes, t, order, parents, dist, q, p, d, turned)
    ensures p <= |order| <= maxNodes && |q| == |order| - p && Members(order) == dist.Keys && |order| == |dist.Keys|
    ensures q != [] ==> order[p] in dist && q[0] == (order[p], dist[order[p]])
  {
    hide Adjacent, Ball, Exact, Searching;
    LayeredKeys(links, roots, limit, order, dist);
    MembersCard(order);
  }

  // Everything in the ball of known nodes is known.
  lemma {:induction false} BallInside(links: seq<Link>, nodes: set<Id>, roots: set<Id>, k: nat)
    requires roots <= nodes && forall l :: l in links ==> l.source in nodes && l.target in nodes
    ensures Ball(links, roots, k) <= nodes
  {
    if k == 0 {
    } else {
      BallInside(links, nodes, roots, k - 1);
    }
  }

  lemma OrderInside(links: seq<Link>, nodes: set<Id>, roots: set<Id>, limit: nat, order: seq<Id>, dist: map<Id, nat>, p: nat)
    requires Layered(links, roots, limit, order, dist) && p < |order|
    requires roots <= nodes && forall l :: l in links ==> l.source in nodes && l.target in nodes
    ensures order[p] in nodes
  {
    BallInside(links, nodes, roots, dist[order[p]]);
  }

  /** Breadth-first growth from the seeds under a depth limit and a node budget: the result is
      the whole ball exactly when nothing was turned away. */
  method Grow(links: seq<Link>, adj: map<Id, set<Id>>, ghost nodes: set<Id>, seeds: seq<Id>, limit: nat, maxNodes: nat)
    returns (selected: set<Id>, order: seq<Id>, truncated: bool, ghost parents: seq<nat>, ghost dist: map<Id, nat>)
    requires Neighbourly(nodes, links, adj) && forall l :: l in links ==> l.source in nodes && l.target in nodes
    requires NoRepeats(seeds) && |seeds| <= maxNodes && Members(seeds) <= nodes
    ensures selected == Members(order) && Final(links, Members(seeds), limit, maxNodes, |seeds|, order, parents, dist, truncated)
    ensures seeds <= order
  {
    hide Adjacent, Ball, Exact, Growing, Expanding, Neighbours, Neighbourly, NoRepeats, Members, Final;
    ghost var roots := Members(seeds);
    selected := SeqToSet(seeds);
    order, truncated := seeds, false;
    parents := seq(|seeds|, i => 0);
    dist := map x | x in selected :: 0;
    var q: seq<(Id, nat)> := seq(|seeds|, i requires 0 <= i < |seeds| => (seeds[i], 0));
    ghost var turned: Option<Id> := None;
    ghost var p: nat := 0;
    ghost var d: nat := 0;
    GrowStart(links, limit, maxNodes, seeds, dist, q);
    while q != []
      invariant Growing(links, roots, limit, maxNodes, |seeds|, order, parents, dist, q, p, d, turned)
      invariant selected == dist.Keys && truncated == turned.Some? && seeds <= order
      invariant p <= maxNodes
      decreases maxNodes - p
    {
      GrowingShape(links, roots, limit, maxNodes, |seeds|, order, parents, dist, q, p, d, turned);
      var (id, level) := q[0];
      if level >= limit {
        PassNode(links, roots, limit, maxNodes, |seeds|, order, parents, dist, q, p, d, turned);
        q := q[1..];
      } else {
        GrowingInside(links, nodes, roots, limit, maxNodes, |seeds|, order, parents, dist, q, p, d, turned);
        OpenNode(links, roots, limit, maxNodes, |seeds|, order, parents, dist, q, p, d, turned, Neighbours(links, {order[p]}));
        var more;
        ghost var before := order;
        selected, order, q, more, parents, dist, turned :=
          ExpandNode(links, roots, limit, maxNodes, |seeds|, adj, nodes, selected, order, q[1..], parents, dist, p, id, level, turned);
        CloseNode(links, roots, limit, maxNodes, |seeds|, order, parents, dist, q, p, turned);
        truncated := truncated || more;
      }
      p, d := p + 1, level;
    }
    GrowingShape(links, roots, limit, maxNodes, |seeds|, order, parents, dist, q, p, d, turned);
    GrowEnd(links, roots, limit, maxNodes, |seeds|, order, parents, dist, q, p, d, turned);
  }

  lemma GrowingInside(links: seq<Link>, nodes: set<Id>, roots: set<Id>, limit: nat, maxNodes: nat, t: nat, order: seq<Id>, parents: seq<nat>,
                      dist: map<Id, nat>, q: seq<(Id, nat)>, p: nat, d: nat, turned: Option<Id>)
    requires Growing(links, roots, limit, maxNodes, t, order, parents, dist, q, p, d, turned) && p < |order|
    requires roots <= nodes && forall l :: l in links ==> l.source in nodes && l.target in nodes
    ensures order[p] in nodes
  {
    OrderInside(links, nodes, roots, limit, order, dist, p);
  }

  method SeqToSet(s: seq<Id>) returns (r: set<Id>)
    ensures r == Members(s)
  {
    r := set x | x in s;
  }

  // ----- the packet -----

  datatype Packet = Packet(nodes: set<Id>, links: seq<Link>, truncated: bool)

  // The links with both ends among the nodes.
  ghost function Induced(links: seq<Link>, nodes: set<Id>): seq<Link> {
    if links == [] then [] else
      var l := links[|links| - 1];
      Induced(links[..|links| - 1], nodes) + (if l.source in nodes && l.target in nodes then [l] else [])
  }

  ghost predicate SortedById(links: seq<Link>) { forall i, j :: 0 <= i < j < |links| ==> links[i].id <= links[j].id }

  // The links of one identity, in order.
  ghost function WithId(links: seq<Link>, id: Id): seq<Link> {
    if links == [] then []
    else WithId(links[..|links| - 1], id) + (if links[|links| - 1].id == id then [links[|links| - 1]] else [])
  }

  lemma {:induction false} WithIdConcat(a: seq<Link>, b: seq<Link>, id: Id)
    ensures WithId(a + b, id) == WithId(a, id) + WithId(b, id)
    decreases |b|
  {
    if b == [] {
      assert a + b == a;
    } else {
      assert (a + b)[..|a + b| - 1] == a + b[..|b| - 1];
      WithIdConcat(a, b[..|b| - 1], id);
    }
  }

  lemma {:induction false} WithoutId(a: seq<Link>, id: Id)
    requires forall i :: 0 <= i < |a| ==> a[i].id != id
    ensures WithId(a, id) == []
    decreases |a|
  {
    if a == [] {
    } else {
      WithoutId(a[..|a| - 1], id);
    }
  }

  // Sorted by identity, links of one identity keeping their order.
  ghost predicate StablySorted(links: seq<Link>, r: seq<Link>) {
    SortedById(r) && multiset(r) == multiset(links) && forall id :: WithId(r, id) == WithId(links, id)
  }

  lemma PlacedStable(sorted: seq<Link>, l: Link, k: nat, id: Id)
    requires k <= |sorted| && forall i :: k <= i < |sorted| ==> sorted[i].id > l.id
    ensures WithId(sorted[..k] + [l] + sorted[k..], id) == WithId(sorted + [l], id)
  {
    var low, high := sorted[..k], sorted[k..];
    assert sorted == low + high;
    WithIdConcat(low + [l], high, id);
    WithIdConcat(low, [l], id);
    WithIdConcat(low, high, id);
    WithIdConcat(sorted, [l], id);
    if id == l.id {
      WithoutId(high, id);
    } else {
      WithoutId([l], id);
    }
  }

  // Places a link after those of the same or smaller identity.
  method PlaceLink(sorted: seq<Link>, l: Link) returns (r: seq<Link>)
    requires SortedById(sorted)
    ensures StablySorted(sorted + [l], r)
  {
    var k := |sorted|;
    while k > 0 && sorted[k - 1].id > l.id
      invariant 0 <= k <= |sorted| && forall i :: k <= i < |sorted| ==> sorted[i].id > l.id
    {
      k := k - 1;
    }
    r := sorted[..k] + [l] + sorted[k..];
    PlacedLink(sorted, l, k);
    forall id ensures WithId(r, id) == WithId(sorted + [l], id) { PlacedStable(sorted, l, k, id); }
  }

  lemma PlacedLink(sorted: seq<Link>, l: Link, k: nat)
    requires SortedById(sorted) && k <= |sorted| && (k > 0 ==> sorted[k - 1].id <= l.id)
    requires forall i :: k <= i < |sorted| ==> sorted[i].id > l.id
    ensures var r := sorted[..k] + [l] + sorted[k..]; SortedById(r) && multiset(r) == multiset(sorted) + multiset{l}
  {
    assert sorted == sorted[..k] + sorted[k..];
    PlacedSorted(sorted, l, k);
  }

  lemma PlacedSorted(sorted: seq<Link>, l: Link, k: nat)
    requires SortedById(sorted) && k <= |sorted| && (k > 0 ==> sorted[k - 1].id <= l.id)
    requires forall i :: k <= i < |sorted| ==> sorted[i].id > l.id
    ensures SortedById(sorted[..k] + [l] + sorted[k..])
  {
    var r := sorted[..k] + [l] + sorted[k..];
    assert forall i :: 0 <= i < k ==> r[i] == sorted[i] && sorted[i].id <= l.id;
    assert r[k] == l;
    assert forall i :: k < i < |r| ==> r[i] == sorted[i - 1];
  }

  lemma StableFacts(links: seq<Link>, r: seq<Link>)
    ensures StablySorted([], [])
    ensures StablySorted(links, r) ==> SortedById(r)
  {
  }

  lemma StableOneMore(links: seq<Link>, r: seq<Link>, l: Link, next: seq<Link>)
    requires StablySorted(links, r) && StablySorted(r + [l], next)
    ensures StablySorted(links + [l], next)
  {
    forall id ensures WithId(next, id) == WithId(links + [l], id) {
      WithIdConcat(r, [l], id);
      WithIdConcat(links, [l], id);
    }
  }

  lemma InducedOneMore(links: seq<Link>, nodes: set<Id>, i: nat)
    requires i < |links|
    ensures Induced(links[..i + 1], nodes) ==
              if links[i].source in nodes && links[i].target in nodes then Induced(links[..i], nodes) + [links[i]]
              else Induced(links[..i], nodes)
  {
    assert links[..i + 1][..i] == links[..i];
  }

  method InducedLinks(links: seq<Link>, nodes: set<Id>) returns (r: seq<Link>)
    ensures StablySorted(Induced(links, nodes), r)
  {
    hide StablySorted, SortedById;
    r := [];
    StableFacts([], []);
    for i := 0 to |links|
      invariant StablySorted(Induced(links[..i], nodes), r)
    {
      InducedOneMore(links, nodes, i);
      if links[i].source in nodes && links[i].target in nodes {
        ghost var before := r;
        StableFacts(Induced(links[..i], nodes), r);
        r := PlaceLink(r, links[i]);
        StableOneMore(Induced(links[..i], nodes), before, links[i], r);
      }
    }
    assert links[..|links|] == links;
  }

  // Whether the first k nodes of the order, flagged as they would be, fit the output budget.
  ghost predicate Fits(size: (set<Id>, bool) -> nat, order: seq<Id>, k: nat, truncated: bool, maxChars: nat)
    requires k <= |order|
  {
    size(Members(order[..k]), truncated || k < |order|) <= maxChars
  }

  /** Removes the last node of the order until the packet fits: the longest fitting prefix. */
  method Trim(links: seq<Link>, order: seq<Id>, selected: set<Id>, truncated: bool, size: (set<Id>, bool) -> nat, maxChars: nat)
    returns (r: Result<Packet>, ghost kept: nat)
    requires NoRepeats(order) && selected == Members(order)
    ensures r.Ok? <==> exists k :: 0 <= k <= |order| && Fits(size, order, k, truncated, maxChars)
    ensures r.Err? ==> r.error == OverBudget
    ensures r.Ok? ==> kept <= |order| && Fits(size, order, kept, truncated, maxChars)
                      && (forall k :: kept < k <= |order| ==> !Fits(size, order, k, truncated, maxChars))
    ensures r.Ok? ==> r.value.nodes == Members(order[..kept]) && r.value.truncated == (truncated || kept < |order|)
                      && StablySorted(Induced(links, r.value.nodes), r.value.links)
  {
    var priority, nodes, cut := order, selected, truncated;
    assert order[..|order|] == order;
    while true
      invariant |priority| <= |order| && priority == order[..|priority|] && nodes == Members(priority)
      invariant cut == (truncated || |priority| < |order|)
      invariant forall k :: |priority| < k <= |order| ==> !Fits(size, order, k, truncated, maxChars)
      decreases |priority|
    {
      kept := |priority|;
      if size(nodes, cut) <= maxChars {
        assert Fits(size, order, kept, truncated, maxChars);
        var induced := InducedLinks(links, nodes);
        return Ok(Packet(nodes, induced, cut)), kept;
      }
      assert !Fits(size, order, kept, truncated, maxChars);
      if priority == [] { return Err(OverBudget), kept; }
      var last := priority[|priority| - 1];
      ghost var shorter := priority[..|priority| - 1];
      assert priority == shorter + [last] && last == order[|priority| - 1];
      assert last !in shorter;
      assert nodes - {last} == Members(shorter);
      priority := priority[..|priority| - 1];
      nodes := nodes - {last};
      cut := true;
    }
  }

  // The nodes within `depth` steps of any lexical seed.
  ghost function Wanted(links: seq<Link>, seeds: seq<Id>, depth: nat): set<Id> { Ball(links, Members(seeds), depth) }

  lemma SeedsDistinct(nodes: set<Id>, score: Id -> nat, seeds: seq<Id>)
    requires SeedOrder(nodes, score, seeds)
    ensures NoRepeats(seeds) && Members(seeds) <= nodes
  {
  }

  lemma TakeFacts(seeds: seq<Id>, t: nat)
    requires NoRepeats(seeds) && t <= |seeds|
    ensures NoRepeats(seeds[..t]) && Members(seeds[..t]) <= Members(seeds)
    ensures t == |seeds| ==> seeds[..t] == seeds
  {
    assert forall x :: x in seeds[..t] ==> x in seeds;
  }

  /** The truncation flag is exact: it is clear precisely when the kept nodes are everything
      within reach of a seed. */
  lemma FlagExact(links: seq<Link>, seeds: seq<Id>, t: nat, depth: nat, maxNodes: nat, order: seq<Id>, parents: seq<nat>,
                  dist: map<Id, nat>, grown: bool, kept: nat)
    requires NoRepeats(seeds) && t == (if |seeds| <= maxNodes then |seeds| else maxNodes)
    requires Final(links, Members(seeds[..t]), depth, maxNodes, t, order, parents, dist, grown) && kept <= |order|
    ensures Members(order[..kept]) == Wanted(links, seeds, depth) <==> !(t < |seeds| || grown || kept < |order|)
  {
    hide Adjacent, Ball, Exact;
    TakeFacts(seeds, t);
    BallMonotone(links, Members(seeds[..t]), Members(seeds), depth);
    assert Members(order[..kept]) <= Members(order) by { assert forall x :: x in order[..kept] ==> x in order; }
    if kept < |order| {
      KeptMisses(links, Members(seeds[..t]), depth, order, dist, kept);
    } else if grown {
      var y :| y in Ball(links, Members(seeds[..t]), depth) && y !in Members(order);
      assert y in Wanted(links, seeds, depth);
    } else if t < |seeds| {
      MembersCard(seeds);
      MembersCard(order);
      BallGrows(links, Members(seeds), 0, depth);
      BallZero(links, Members(seeds));
      if Members(seeds) <= Members(order[..kept]) { SubsetCard(Members(seeds), Members(order)); }
    } else {
      assert order[..kept] == order;
    }
  }

  lemma BallZero(links: seq<Link>, roots: set<Id>)
    ensures Ball(links, roots, 0) == roots
  {
  }

  lemma KeptMisses(links: seq<Link>, roots: set<Id>, limit: nat, order: seq<Id>, dist: map<Id, nat>, kept: nat)
    requires Layered(links, roots, limit, order, dist) && NoRepeats(order) && kept < |order|
    ensures order[kept] in Ball(links, roots, limit) && order[kept] !in Members(order[..kept])
  {
    hide Adjacent, Ball;
    ExactIsLeast(links, roots, order[kept], dist[order[kept]], limit);
  }

  // ----- the predicates of the contract below, written out -----

  lemma ClosedIs(ids: seq<Id>, links: seq<Link>)
    ensures Closed(ids, links) <==>
              ((forall i, j :: 0 <= i < j < |ids| ==> ids[i] != ids[j]) && forall l :: l in links ==> l.source in ids && l.target in ids)
  {
  }

  lemma SeedsAre(ids: seq<Id>, score: Id -> nat, seeds: seq<Id>)
    requires SeedOrder(Members(ids), score, seeds)
    ensures forall x :: x in seeds <==> x in ids && score(x) > 0
    ensures forall i, j :: 0 <= i < j < |seeds| ==>
              (score(seeds[i]) > score(seeds[j]) || (score(seeds[i]) == score(seeds[j]) && seeds[i] < seeds[j]))
  {
  }

  lemma OrderIs(links: seq<Link>, roots: set<Id>, limit: nat, t: nat, order: seq<Id>, parents: seq<nat>, dist: map<Id, nat>)
    requires Grown(links, t, order, parents) && Layered(links, roots, limit, order, dist)
    ensures |parents| == |order| && forall i, j :: 0 <= i < j < |order| ==> order[i] != order[j]
    ensures forall i :: t <= i < |order| ==>
              parents[i] < i && Adjacent(links, order[parents[i]], order[i]) && forall j :: 0 <= j < parents[i] ==> !Adjacent(links, order[j], order[i])
    ensures forall i, j :: t <= i < j < |order| ==> parents[i] < parents[j] || (parents[i] == parents[j] && order[i] < order[j])
    ensures forall x :: x in order ==> x in Ball(links, roots, limit)
  {
    hide Adjacent, Ball;
    forall i | t <= i < |order| ensures forall j :: 0 <= j < parents[i] ==> !Adjacent(links, order[j], order[i]) {
      assert FirstParent(links, order, parents[i], order[i]);
    }
    forall i | 0 <= i < |order| ensures order[i] in Ball(links, roots, limit) {
      ExactIsLeast(links, roots, order[i], dist[order[i]], limit);
    }
  }

  lemma FitsIs(size: (set<Id>, bool) -> nat, order: seq<Id>, truncated: bool, maxChars: nat)
    ensures forall k :: 0 <= k <= |order| ==>
              (Fits(size, order, k, truncated, maxChars) <==> size(Members(order[..k]), truncated || k < |order|) <= maxChars)
  {
  }

  // Every induced link as often as it is listed, and no other.
  lemma {:induction false} InducedCount(links: seq<Link>, nodes: set<Id>, l: Link)
    ensures multiset(Induced(links, nodes))[l] == if l.source in nodes && l.target in nodes then multiset(links)[l] else 0
    decreases |links|
  {
    if links == [] {
    } else {
      var init := links[..|links| - 1];
      InducedCount(init, nodes, l);
      assert links == init + [links[|links| - 1]];
    }
  }

  lemma InducedOrder(a: seq<Link>, l: Link, nodes: set<Id>, id: Id)
    ensures Induced(a + [l], nodes) == Induced(a, nodes) + if l.source in nodes && l.target in nodes then [l] else []
    ensures WithId(a + [l], id) == WithId(a, id) + if l.id == id then [l] else []
  {
    assert (a + [l])[..|a|] == a;
  }

  lemma PacketLinks(links: seq<Link>, nodes: set<Id>, r: seq<Link>)
    requires StablySorted(Induced(links, nodes), r)
    ensures forall i, j :: 0 <= i < j < |r| ==> r[i].id <= r[j].id
    ensures forall l :: multiset(r)[l] == if l.source in nodes && l.target in nodes then multiset(links)[l] else 0
  {
    forall l ensures multiset(r)[l] == if l.source in nodes && l.target in nodes then multiset(links)[l] else 0 {
      InducedCount(links, nodes, l);
    }
  }

  /** Bounded lexical context. It fails exactly on a malformed graph or when not even the
      empty packet fits. Otherwise the seeds are the scoring nodes, best score first; the order
      is the seeds, as many as the node budget allows, then breadth first, full unless it holds
      everything within reach; the packet is its longest prefix that fits, with the links between
      kept nodes by identity; and the flag is clear exactly when nothing within reach is missing. */
  method RenderContext(ids: seq<Id>, links: seq<Link>, score: Id -> nat, depth: nat, maxNodes: nat, maxChars: nat, size: (set<Id>, bool) -> nat)
    returns (r: Result<Packet>, ghost seeds: seq<Id>, ghost order: seq<Id>, ghost parents: seq<nat>, ghost dist: map<Id, nat>, ghost kept: nat, ghost cut: bool)
    ensures (r.Err? && r.error != OverBudget) <==>
              !((forall i, j :: 0 <= i < j < |ids| ==> ids[i] != ids[j]) && forall l :: l in links ==> l.source in ids && l.target in ids)
    ensures r.Ok? || r.error == OverBudget ==>
              && (forall x :: x in seeds <==> x in ids && score(x) > 0)
              && (forall i, j :: 0 <= i < j < |seeds| ==>
                    (score(seeds[i]) > score(seeds[j]) || (score(seeds[i]) == score(seeds[j]) && seeds[i] < seeds[j])))
    ensures var t := if |seeds| <= maxNodes then |seeds| else maxNodes;
            r.Ok? || r.error == OverBudget ==>
              && seeds[..t] <= order && |order| <= maxNodes && |parents| == |order|
              && (forall i, j :: 0 <= i < j < |order| ==> order[i] != order[j])
              && (forall i :: t <= i < |order| ==>
                    parents[i] < i && Adjacent(links, order[parents[i]], order[i])
                    && forall j :: 0 <= j < parents[i] ==> !Adjacent(links, order[j], order[i]))
              && (forall i, j :: t <= i < j < |order| ==> parents[i] < parents[j] || (parents[i] == parents[j] && order[i] < order[j]))
              && Layered(links, Members(seeds[..t]), depth, order, dist)
              && (forall x :: x in order ==> x in Ball(links, Members(seeds), depth))
              && (cut <==> Members(order) != Ball(links, Members(seeds), depth))
              && (cut ==> |order| == maxNodes)
              && (r.Ok? <==> exists k :: 0 <= k <= |order| && size(Members(order[..k]), cut || k < |order|) <= maxChars)
    ensures r.Ok? ==>
              && kept <= |order| && r.value.nodes == Members(order[..kept]) && |r.value.nodes| <= maxNodes
              && size(r.value.nodes, cut || kept < |order|) <= maxChars
              && (forall k :: kept < k <= |order| ==> size(Members(order[..k]), cut || k < |order|) > maxChars)
              && (forall l :: multiset(r.value.links)[l] == if l.source in r.value.nodes && l.target in r.value.nodes then multiset(links)[l] else 0)
              && (forall i, j :: 0 <= i < j < |r.value.links| ==> r.value.links[i].id <= r.value.links[j].id)
              && StablySorted(Induced(links, r.value.nodes), r.value.links)
              && (!r.value.truncated <==> r.value.nodes == Ball(links, Members(seeds), depth))
  {
    hide Adjacent, Ball, Exact, Neighbours, Neighbourly, NoRepeats, Grown, Layered, Fits, SeedOrder, Closed, StablySorted, Induced, Members;
    seeds, order, parents, dist, kept, cut := [], [], [], map[], 0, false;
    ClosedIs(ids, links);
    var indexed := BuildIndex(ids, links);
    if indexed.Err? {
      r := Err(indexed.error);
      return;
    }
    var nodes, adj := indexed.value.nodes, indexed.value.adjacency;
    ClosedInside(ids, links);
    var ranked := Seeds(nodes, score);
    seeds := ranked;
    SeedsAre(ids, score, seeds);
    SeedsDistinct(nodes, score, seeds);
    var t := if |ranked| <= maxNodes then |ranked| else maxNodes;
    TakeFacts(seeds, t);
    var selected, priority, grown;
    selected, priority, grown, parents, dist := Grow(links, adj, nodes, ranked[..t], depth, maxNodes);
    order := priority;
    FinalShape(links, Members(seeds[..t]), depth, maxNodes, t, order, parents, dist, grown);
    OrderIs(links, Members(seeds[..t]), depth, t, order, parents, dist);
    BallMonotone(links, Members(seeds[..t]), Members(seeds), depth);
    cut := |ranked| > maxNodes || grown;
    FlagExact(links, seeds, t, depth, maxNodes, order, parents, dist, grown, |order|);
    assert order[..|order|] == order;
    FitsIs(size, order, cut, maxChars);
    r, kept := Trim(links, priority, selected, |ranked| > maxNodes || grown, size, maxChars);
    if r.Ok? {
      FlagExact(links, seeds, t, depth, maxNodes, order, parents, dist, grown, kept);
      PrefixCard(order, kept);
      PacketLinks(links, r.value.nodes, r.value.links);
    }
  }

  lemma ClosedInside(ids: seq<Id>, links: seq<Link>)
    requires Closed(ids, links)
    ensures forall l :: l in links ==> l.source in Members(ids) && l.target in Members(ids)
  {
  }

  lemma FinalShape(links: seq<Link>, roots: set<Id>, limit: nat, maxNodes: nat, t: nat, order: seq<Id>, parents: seq<nat>,
                   dist: map<Id, nat>, truncated: bool)
    requires Final(links, roots, limit, maxNodes, t, order, parents, dist, truncated)
    ensures Grown(links, t, order, parents) && Layered(links, roots, limit, order, dist) && |order| <= maxNodes && NoRepeats(order)
    ensures truncated ==> |order| == maxNodes
  {
  }

  lemma PrefixCard(order: seq<Id>, k: nat)
    requires NoRepeats(order) && k <= |order|
    ensures |Members(order[..k])| == k
  {
    MembersCard(order[..k]);
  }
}
