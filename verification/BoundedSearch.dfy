// The bounded searches over a build: reachability and shortest paths within a hop limit.
module BoundedSearch {
  import opened GraphSearch
  import opened Sets

  // Neighbours with the id of the link leading to them, both directions of every link.
  ghost predicate Indexes(links: seq<Link>, adj: map<Id, seq<(Id, Id)>>) {
    && (forall x, k :: x in adj && 0 <= k < |adj[x]| ==> Adjacent(links, x, adj[x][k].0))
    && (forall x, y :: Adjacent(links, x, y) ==> x in adj && Lists(adj[x], y))
  }

  ghost predicate Lists(nexts: seq<(Id, Id)>, y: Id) { exists k :: 0 <= k < |nexts| && nexts[k].0 == y }

  // `adj.entry(x).or_default().push(..)`
  function Push(adj: map<Id, seq<(Id, Id)>>, x: Id, y: Id, link: Id): map<Id, seq<(Id, Id)>> {
    adj[x := (if x in adj then adj[x] else []) + [(y, link)]]
  }

  // The entries of a node: the other ends of its links, in link order, a loop entered twice.
  ghost function RowOf(links: seq<Link>, x: Id): seq<(Id, Id)> {
    if links == [] then []
    else
      var l := links[|links| - 1];
      RowOf(links[..|links| - 1], x)
      + (if l.source == x then [(l.target, l.id)] else []) + (if l.target == x then [(l.source, l.id)] else [])
  }

  ghost predicate Rows(links: seq<Link>, adj: map<Id, seq<(Id, Id)>>) {
    forall x :: (x in adj <==> RowOf(links, x) != []) && (x in adj ==> adj[x] == RowOf(links, x))
  }

  lemma RowsStep(links: seq<Link>, l: Link, adj: map<Id, seq<(Id, Id)>>)
    requires Rows(links, adj)
    ensures Rows(links + [l], Push(Push(adj, l.source, l.target, l.id), l.target, l.source, l.id))
  {
    var all, next := links + [l], Push(Push(adj, l.source, l.target, l.id), l.target, l.source, l.id);
    assert all[..|all| - 1] == links;
    forall x ensures (x in next <==> RowOf(all, x) != []) && (x in next ==> next[x] == RowOf(all, x)) {
      assert x in adj <==> RowOf(links, x) != [];
    }
  }

  lemma ListsConcat(a: seq<(Id, Id)>, b: seq<(Id, Id)>, y: Id)
    ensures Lists(a + b, y) <==> Lists(a, y) || Lists(b, y)
  {
    if Lists(a, y) {
      var k :| 0 <= k < |a| && a[k].0 == y;
      assert (a + b)[k].0 == y;
    }
    if Lists(b, y) {
      var k :| 0 <= k < |b| && b[k].0 == y;
      assert (a + b)[|a| + k].0 == y;
    }
  }

  lemma ListsOne(y: Id, id: Id, z: Id)
    ensures (Lists([(y, id)], z) <==> y == z) && !Lists([], z)
  {
    assert [(y, id)][0].0 == y;
  }

  // A row lists exactly the neighbours of its node.
  lemma {:induction false} RowLists(links: seq<Link>, x: Id, y: Id)
    ensures Lists(RowOf(links, x), y) <==> Adjacent(links, x, y)
    decreases |links|
  {
    if links == [] {
    } else {
      var init, l := links[..|links| - 1], links[|links| - 1];
      var out := if l.source == x then [(l.target, l.id)] else [];
      var back := if l.target == x then [(l.source, l.id)] else [];
      RowLists(init, x, y);
      ListsConcat(RowOf(init, x) + out, back, y);
      ListsConcat(RowOf(init, x), out, y);
      ListsOne(l.target, l.id, y);
      ListsOne(l.source, l.id, y);
      assert links == init + [l];
    }
  }

  lemma RowsIndex(links: seq<Link>, adj: map<Id, seq<(Id, Id)>>)
    requires Rows(links, adj)
    ensures Indexes(links, adj)
  {
    forall x, k | x in adj && 0 <= k < |adj[x]| ensures Adjacent(links, x, adj[x][k].0) {
      assert Lists(adj[x], adj[x][k].0);
      RowLists(links, x, adj[x][k].0);
    }
    forall x, y | Adjacent(links, x, y) ensures x in adj && Lists(adj[x], y) { RowLists(links, x, y); }
  }

  // Undirected adjacency of all links, in link order.
  method Adjacency(links: seq<Link>) returns (adj: map<Id, seq<(Id, Id)>>)
    ensures Rows(links, adj) && Indexes(links, adj)
  {
    adj := map[];
    for i := 0 to |links|
      invariant Rows(links[..i], adj)
    {
      var l := links[i];
      RowsStep(links[..i], l, adj);
      assert links[..i + 1] == links[..i] + [l];
      adj := Push(adj, l.source, l.target, l.id);
      adj := Push(adj, l.target, l.source, l.id);
    }
    assert links[..|links|] == links;
    RowsIndex(links, adj);
  }

  lemma WholeRow(links: seq<Link>, adj: map<Id, seq<(Id, Id)>>, x: Id, seen: set<Id>)
    requires Indexes(links, adj)
    requires x in adj ==> forall k :: 0 <= k < |adj[x]| ==> adj[x][k].0 in seen
    ensures forall y :: Adjacent(links, x, y) ==> y in seen
  {
  }

  lemma RowEntry(links: seq<Link>, adj: map<Id, seq<(Id, Id)>>, x: Id, k: nat)
    requires Indexes(links, adj) && x in adj && k < |adj[x]|
    ensures Adjacent(links, x, adj[x][k].0)
  {
  }

  // Puts the unseen neighbours of `cur` at the end of the queue.
  method Expand(links: seq<Link>, ghost roots: set<Id>, ghost limit: nat, adj: map<Id, seq<(Id, Id)>>, cur: Id, depth: nat,
                seen: set<Id>, q: seq<(Id, nat)>, ghost dist: map<Id, nat>)
    returns (seen': set<Id>, q': seq<(Id, nat)>, ghost dist': map<Id, nat>)
    requires Indexes(links, adj) && cur in adj && depth < limit
    requires Searching(links, roots, limit, q, dist, depth, {cur}) && seen == dist.Keys
    ensures forall y :: y in seen' <==> y in seen || Adjacent(links, cur, y)
    ensures q <= q' && forall i :: |q| <= i < |q'| ==> q'[i].1 == depth + 1
    ensures Searching(links, roots, limit, q', dist', depth, {}) && seen' == dist'.Keys
    ensures dist.Keys <= dist'.Keys && (dist'.Keys == dist.Keys ==> q' == q)
  {
    hide Adjacent, Ball, Searching, Lists, Exact, Indexes, InQueue;
    seen', q', dist' := seen, q, dist;
    var nexts := adj[cur];
    for k := 0 to |nexts|
      invariant Searching(links, roots, limit, q', dist', depth, {cur}) && seen' == dist'.Keys
      invariant (forall i :: 0 <= i < k ==> nexts[i].0 in seen') && seen <= seen'
      invariant forall y :: y in seen' ==> y in seen || Adjacent(links, cur, y)
      invariant q <= q' && forall i :: |q| <= i < |q'| ==> q'[i].1 == depth + 1
      invariant dist.Keys <= dist'.Keys && (dist'.Keys == dist.Keys ==> q' == q)
    {
      var next := nexts[k].0;
      if next !in seen' {
        RowEntry(links, adj, cur, k);
        SearchDiscover(links, roots, limit, q', dist', depth, cur, next);
        seen' := seen' + {next};
        q' := q' + [(next, depth + 1)];
        dist' := dist'[next := depth + 1];
      }
    }
    WholeRow(links, adj, cur, seen');
    SearchClose(links, roots, limit, q', dist', depth, cur);
  }

  // Nodes without a row have no neighbours.
  lemma NoRow(links: seq<Link>, adj: map<Id, seq<(Id, Id)>>, x: Id)
    requires Indexes(links, adj) && x !in adj
    ensures forall y :: !Adjacent(links, x, y)
  {
  }

  /** The nodes within max hops of `start`, itself excluded: the ball without its centre. */
  method Reachable(links: seq<Link>, start: Id, maxHops: nat) returns (found: set<Id>)
    ensures found == Ball(links, {start}, maxHops) - {start}
  {
    hide Adjacent, Ball, Searching, Lists, Exact, Indexes, InQueue;
    var seen := {start};
    var q: seq<(Id, nat)> := [(start, 0)];
    ghost var dist: map<Id, nat> := map[start := 0];
    ghost var d: nat := 0;
    var adj := Adjacency(links);
    StartOne(links, start, maxHops);
    while q != []
      invariant Searching(links, {start}, maxHops, q, dist, d, {}) && seen == dist.Keys
      decreases |Ball(links, {start}, maxHops)| - |dist.Keys|, |q|
    {
      var (cur, depth) := q[0];
      SearchPop(links, {start}, maxHops, q, dist, d);
      q, d := q[1..], depth;
      ghost var dist0 := dist;
      if depth < maxHops && cur in adj {
        seen, q, dist := Expand(links, {start}, maxHops, adj, cur, depth, seen, q, dist);
      } else {
        if depth < maxHops { NoRow(links, adj, cur); }
        SearchClose(links, {start}, maxHops, q, dist, d, cur);
      }
      SeenShrinks(links, {start}, maxHops, q, dist, d, dist0);
    }
    SearchDone(links, {start}, maxHops, dist, d);
    found := seen - {start};
  }

  lemma StartOne(links: seq<Link>, start: Id, limit: nat)
    ensures Searching(links, {start}, limit, [(start, 0)], map[start := 0], 0, {})
  {
    var q: seq<(Id, nat)> := [(start, 0)];
    assert q[0].0 == start;
    SearchStart(links, {start}, limit, q, map[start := 0]);
  }

  // Seeing more nodes brings the search closer to its end.
  lemma SeenShrinks(links: seq<Link>, roots: set<Id>, limit: nat, q: seq<(Id, nat)>, dist: map<Id, nat>, d: nat, dist0: map<Id, nat>)
    requires Searching(links, roots, limit, q, dist, d, {}) && dist0.Keys <= dist.Keys
    ensures |dist0.Keys| <= |dist.Keys| <= |Ball(links, roots, limit)|
    ensures dist.Keys != dist0.Keys ==> |dist0.Keys| < |dist.Keys|
  {
    hide Adjacent, InQueue;
    SubsetCard(dist0.Keys, dist.Keys);
    forall x | x in dist ensures x in Ball(links, roots, limit) { ExactIsLeast(links, roots, x, dist[x], limit); }
    SubsetCard(dist.Keys, Ball(links, roots, limit));
  }

  // ----- paths -----

  // Every seen node but the start has a seen predecessor one step nearer.
  ghost predicate Traced(links: seq<Link>, start: Id, dist: map<Id, nat>, prev: map<Id, (Id, Id)>) {
    && prev.Keys == dist.Keys - {start}
    && (start in dist && dist[start] == 0)
    && (forall x :: x in prev ==> prev[x].0 in dist && dist[x] == dist[prev[x].0] + 1 && Adjacent(links, prev[x].0, x))
  }

  ghost predicate Simple(p: seq<Id>) { forall i, j :: 0 <= i < j < |p| ==> p[i] != p[j] }

  // Follows predecessors from `end` back to the start.
  method TraceBack(links: seq<Link>, start: Id, end: Id, prev: map<Id, (Id, Id)>, ghost dist: map<Id, nat>) returns (path: seq<Id>)
    requires Traced(links, start, dist, prev) && end in dist
    ensures WalkFrom(links, path, start, end) && Simple(path) && |path| == dist[end] + 1
  {
    hide Adjacent;
    path := [end];
    var c := end;
    while c in prev
      invariant c in dist && path != [] && path[0] == c && path[|path| - 1] == end
      invariant |path| + dist[c] == dist[end] + 1
      invariant forall i :: 0 <= i < |path| - 1 ==> Adjacent(links, path[i], path[i + 1])
      invariant forall i :: 0 <= i < |path| ==> path[i] in dist && dist[path[i]] == dist[c] + i
      decreases dist[c]
    {
      c := prev[c].0;
      path := [c] + path;
    }
  }

  // Expands `cur`, recording predecessors, until the end is discovered.
  method ExpandTraced(links: seq<Link>, start: Id, end: Id, ghost limit: nat, adj: map<Id, seq<(Id, Id)>>, cur: Id, depth: nat,
                      seen: set<Id>, prev: map<Id, (Id, Id)>, q: seq<(Id, nat)>, ghost dist: map<Id, nat>)
    returns (seen': set<Id>, prev': map<Id, (Id, Id)>, q': seq<(Id, nat)>, ghost dist': map<Id, nat>, hit: bool)
    requires Indexes(links, adj) && cur in adj && depth < limit && end !in seen
    requires Searching(links, {start}, limit, q, dist, depth, {cur}) && seen == dist.Keys && Traced(links, start, dist, prev)
    ensures hit <==> Adjacent(links, cur, end)
    ensures seen <= seen' && forall y :: y in seen' ==> y in seen || Adjacent(links, cur, y)
    ensures Traced(links, start, dist', prev') && seen' == dist'.Keys
    ensures hit ==> end in dist' && dist'[end] == depth + 1 && Exact(links, {start}, end, depth + 1)
    ensures !hit ==> end !in seen' && Searching(links, {start}, limit, q', dist', depth, {})
                     && dist.Keys <= dist'.Keys && (dist'.Keys == dist.Keys ==> q' == q)
  {
    hide Adjacent, Ball, Searching, Lists, Exact, Indexes, InQueue, Traced;
    seen', prev', q', dist', hit := seen, prev, q, dist, false;
    var nexts := adj[cur];
    for k := 0 to |nexts|
      invariant Searching(links, {start}, limit, q', dist', depth, {cur}) && seen' == dist'.Keys && end !in seen'
      invariant Traced(links, start, dist', prev')
      invariant (forall i :: 0 <= i < k ==> nexts[i].0 in seen') && seen <= seen'
      invariant forall y :: y in seen' ==> y in seen || Adjacent(links, cur, y)
      invariant dist.Keys <= dist'.Keys && (dist'.Keys == dist.Keys ==> q' == q)
    {
      var (next, link) := nexts[k];
      if next !in seen' {
        RowEntry(links, adj, cur, k);
        SearchDiscover(links, {start}, limit, q', dist', depth, cur, next);
        TraceStep(links, {start}, limit, q', dist', depth, start, prev', cur, next, link);
        seen' := seen' + {next};
        prev' := prev'[next := (cur, link)];
        q' := q' + [(next, depth + 1)];
        dist' := dist'[next := depth + 1];
        if next == end {
          hit := true;
          return;
        }
      }
    }
    WholeRow(links, adj, cur, seen');
    SearchClose(links, {start}, limit, q', dist', depth, cur);
  }

  // Takes the front of the queue and expands it if it is within the hop limit and has links.
  method VisitTraced(links: seq<Link>, start: Id, end: Id, maxHops: nat, adj: map<Id, seq<(Id, Id)>>, seen: set<Id>,
                     prev: map<Id, (Id, Id)>, q: seq<(Id, nat)>, ghost dist: map<Id, nat>, ghost d: nat)
    returns (seen': set<Id>, prev': map<Id, (Id, Id)>, q': seq<(Id, nat)>, ghost dist': map<Id, nat>, ghost d': nat, hit: bool)
    requires Indexes(links, adj) && q != [] && end !in seen
    requires Searching(links, {start}, maxHops, q, dist, d, {}) && seen == dist.Keys && Traced(links, start, dist, prev)
    ensures Traced(links, start, dist', prev') && seen' == dist'.Keys
    ensures hit <==> q[0].1 < maxHops && Adjacent(links, q[0].0, end)
    ensures hit ==> d' < maxHops && end in dist' && dist'[end] == d' + 1 && Exact(links, {start}, end, d' + 1)
    ensures !hit ==> end !in seen' && Searching(links, {start}, maxHops, q', dist', d', {})
                     && dist.Keys <= dist'.Keys && (dist'.Keys == dist.Keys ==> q' == q[1..])
  {
    hide Adjacent, Ball, Searching, Lists, Exact, Traced, Indexes, InQueue;
    var (cur, depth) := q[0];
    SearchPop(links, {start}, maxHops, q, dist, d);
    seen', prev', q', dist', d', hit := seen, prev, q[1..], dist, depth, false;
    if depth < maxHops && cur in adj {
      seen', prev', q', dist', hit := ExpandTraced(links, start, end, maxHops, adj, cur, depth, seen, prev, q', dist);
    } else {
      if depth < maxHops { NoRow(links, adj, cur); }
      SearchClose(links, {start}, maxHops, q', dist, depth, cur);
    }
  }

  /** A shortest undirected path within max hops, if there is one: it exists exactly when the
      distance is at most the limit, repeats no node, and no other walk is shorter. */
  method BoundedPath(links: seq<Link>, start: Id, end: Id, maxHops: nat) returns (path: Option<seq<Id>>)
    ensures path.Some? <==> end in Ball(links, {start}, maxHops)
    ensures path.Some? ==> WalkFrom(links, path.value, start, end) && Simple(path.value) && |path.value| - 1 <= maxHops
    ensures path.Some? ==> forall p :: WalkFrom(links, p, start, end) ==> |path.value| <= |p|
  {
    hide Adjacent, Ball, Searching, Lists, Exact, Walk, Traced, Indexes, InQueue, WalkFrom, Simple;
    if start == end {
      OneStep(links, start, maxHops);
      return Some([start]);
    }
    var prev: map<Id, (Id, Id)> := map[];
    var seen := {start};
    var q: seq<(Id, nat)> := [(start, 0)];
    ghost var dist: map<Id, nat> := map[start := 0];
    ghost var d: nat := 0;
    var adj := Adjacency(links);
    StartOne(links, start, maxHops);
    TraceStart(links, start);
    while q != []
      invariant Searching(links, {start}, maxHops, q, dist, d, {}) && seen == dist.Keys && end !in seen
      invariant Traced(links, start, dist, prev)
      decreases |Ball(links, {start}, maxHops)| - |dist.Keys|, |q|
    {
      ghost var dist0 := dist;
      var hit;
      seen, prev, q, dist, d, hit := VisitTraced(links, start, end, maxHops, adj, seen, prev, q, dist, d);
      if hit {
        var p := TraceBack(links, start, end, prev, dist);
        Shortest(links, start, end, d + 1, maxHops);
        return Some(p);
      }
      SeenShrinks(links, {start}, maxHops, q, dist, d, dist0);
    }
    SearchDone(links, {start}, maxHops, dist, d);
    path := None;
  }

  lemma OneStep(links: seq<Link>, x: Id, limit: nat)
    ensures x in Ball(links, {x}, limit) && WalkFrom(links, [x], x, x) && Simple([x])
    ensures forall p :: WalkFrom(links, p, x, x) ==> |p| >= 1
  {
    BallGrows(links, {x}, 0, limit);
  }

  lemma TraceStart(links: seq<Link>, start: Id)
    ensures Traced(links, start, map[start := 0], map[])
  {
  }

  lemma TraceStep(links: seq<Link>, roots: set<Id>, limit: nat, q: seq<(Id, nat)>, dist: map<Id, nat>, d: nat, start: Id,
                  prev: map<Id, (Id, Id)>, cur: Id, y: Id, link: Id)
    requires Searching(links, roots, limit, q, dist, d, {cur}) && Traced(links, start, dist, prev)
    requires Adjacent(links, cur, y) && y !in dist
    ensures Traced(links, start, dist[y := d + 1], prev[y := (cur, link)])
  {
    hide Adjacent, Exact, InQueue;
    assert cur in {cur} && dist[cur] == d;
    var dist', prev' := dist[y := d + 1], prev[y := (cur, link)];
    forall x | x in prev' ensures prev'[x].0 in dist' && dist'[x] == dist'[prev'[x].0] + 1 && Adjacent(links, prev'[x].0, x) { }
  }

  lemma Shortest(links: seq<Link>, start: Id, end: Id, k: nat, limit: nat)
    requires Exact(links, {start}, end, k) && k <= limit
    ensures end in Ball(links, {start}, limit)
    ensures forall p :: WalkFrom(links, p, start, end) ==> k + 1 <= |p|
  {
    hide Adjacent;
    ExactIsLeast(links, {start}, end, k, limit);
    forall p | WalkFrom(links, p, start, end) ensures k + 1 <= |p| {
      WalkInBall(links, start, p, end);
      ExactIsLeast(links, {start}, end, k, |p| - 1);
    }
  }
}
