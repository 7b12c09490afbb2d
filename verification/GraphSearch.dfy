// Breadth-first search over undirected links: distance balls, and the invariant the
// bounded searches share.
module GraphSearch {

  // Identities are only compared and ordered; numbers stand for them.
  type Id = nat

  datatype Link = Link(id: Id, source: Id, target: Id)

  datatype Option<T> = None | Some(value: T)

  ghost predicate Adjacent(links: seq<Link>, x: Id, y: Id) {
    exists l :: l in links && ((l.source == x && l.target == y) || (l.target == x && l.source == y))
  }

  ghost function Neighbours(links: seq<Link>, s: set<Id>): set<Id> {
    (set l | l in links && l.source in s :: l.target) + (set l | l in links && l.target in s :: l.source)
  }

  // Everything within k steps of the roots.
  ghost function Ball(links: seq<Link>, roots: set<Id>, k: nat): set<Id> {
    if k == 0 then roots else Ball(links, roots, k - 1) + Neighbours(links, Ball(links, roots, k - 1))
  }

  // At distance exactly k.
  ghost predicate Exact(links: seq<Link>, roots: set<Id>, x: Id, k: nat) {
    x in Ball(links, roots, k) && (k > 0 ==> x !in Ball(links, roots, k - 1))
  }

  lemma NeighboursAre(links: seq<Link>, s: set<Id>)
    ensures forall y :: y in Neighbours(links, s) <==> exists x :: x in s && Adjacent(links, x, y)
  {
    forall y ensures y in Neighbours(links, s) <==> exists x :: x in s && Adjacent(links, x, y) {
      if y in Neighbours(links, s) {
        if l :| l in links && l.source in s && l.target == y {
          assert Adjacent(links, l.source, y);
        } else {
          var l :| l in links && l.target in s && l.source == y;
          assert Adjacent(links, l.target, y);
        }
      }
    }
  }

  lemma NeighbourOf(links: seq<Link>, x: Id, y: Id)
    ensures y in Neighbours(links, {x}) <==> Adjacent(links, x, y)
    ensures Adjacent(links, x, y) <==> Adjacent(links, y, x)
  {
    NeighboursAre(links, {x});
  }

  lemma {:induction false} BallGrows(links: seq<Link>, roots: set<Id>, j: nat, k: nat)
    requires j <= k
    ensures Ball(links, roots, j) <= Ball(links, roots, k)
    decreases k
  {
    if j < k { BallGrows(links, roots, j, k - 1); }
  }

  lemma ExactIsLeast(links: seq<Link>, roots: set<Id>, x: Id, k: nat, j: nat)
    requires Exact(links, roots, x, k)
    ensures x in Ball(links, roots, j) <==> k <= j
  {
    if k <= j { BallGrows(links, roots, k, j); } else { BallGrows(links, roots, j, k - 1); }
  }

  // ----- paths -----

  // A walk along links.
  ghost predicate Walk(links: seq<Link>, p: seq<Id>) {
    p != [] && forall i :: 0 <= i < |p| - 1 ==> Adjacent(links, p[i], p[i + 1])
  }

  ghost predicate WalkFrom(links: seq<Link>, p: seq<Id>, x: Id, y: Id) {
    Walk(links, p) && p[0] == x && p[|p| - 1] == y
  }

  /** The ball of radius k holds exactly the ends of walks of at most k steps. */
  lemma {:induction false} WalkInBall(links: seq<Link>, x: Id, p: seq<Id>, y: Id)
    requires WalkFrom(links, p, x, y)
    ensures y in Ball(links, {x}, |p| - 1)
    decreases |p|
  {
    if |p| > 1 {
      var q := p[..|p| - 1];
      assert Adjacent(links, p[|p| - 2], p[|p| - 1]);
      forall i | 0 <= i < |q| - 1 ensures Adjacent(links, q[i], q[i + 1]) { assert Adjacent(links, p[i], p[i + 1]); }
      WalkInBall(links, x, q, p[|p| - 2]);
      NeighboursAre(links, Ball(links, {x}, |p| - 2));
    }
  }

  lemma {:induction false} BallHasWalk(links: seq<Link>, x: Id, k: nat, y: Id) returns (p: seq<Id>)
    requires y in Ball(links, {x}, k)
    ensures WalkFrom(links, p, x, y) && |p| - 1 <= k
  {
    if k == 0 {
      p := [x];
    } else if y in Ball(links, {x}, k - 1) {
      p := BallHasWalk(links, x, k - 1, y);
    } else {
      NeighboursAre(links, Ball(links, {x}, k - 1));
      var z :| z in Ball(links, {x}, k - 1) && Adjacent(links, z, y);
      var q := BallHasWalk(links, x, k - 1, z);
      p := q + [y];
      forall i | 0 <= i < |p| - 1 ensures Adjacent(links, p[i], p[i + 1]) {
        if i < |q| - 1 { assert Adjacent(links, q[i], q[i + 1]); }
      }
    }
  }

  // ----- the search invariant -----

  ghost predicate InQueue(q: seq<(Id, nat)>, x: Id) { exists i :: 0 <= i < |q| && q[i].0 == x }

  // What a search from the roots knows when every queued node has depth d or d + 1: exact
  // distances for all seen nodes, and all neighbours of every seen node below the depth
  // limit that is neither queued nor being expanded.
  ghost predicate Searching(links: seq<Link>, roots: set<Id>, limit: nat, q: seq<(Id, nat)>, dist: map<Id, nat>, d: nat, open: set<Id>) {
    && roots <= dist.Keys
    && (forall x :: x in dist ==> Exact(links, roots, x, dist[x]) && dist[x] <= limit)
    && (forall i :: 0 <= i < |q| ==> q[i].0 in dist && q[i].1 == dist[q[i].0] && d <= q[i].1 <= d + 1)
    && (forall i, j :: 0 <= i < j < |q| ==> q[i].1 <= q[j].1)
    && (forall x :: x in open ==> x in dist && dist[x] == d)
    && (forall x, y :: x in dist && dist[x] < limit && x !in open && !InQueue(q, x) && Adjacent(links, x, y) ==> y in dist)
    && (forall x :: x in dist ==> dist[x] <= d + 1)
  }

  // A seen node nearer than the queued ones has all its neighbours seen.
  lemma NearerIsExpanded(links: seq<Link>, roots: set<Id>, limit: nat, q: seq<(Id, nat)>, dist: map<Id, nat>, d: nat, open: set<Id>, x: Id, y: Id)
    requires Searching(links, roots, limit, q, dist, d, open) && x in dist && dist[x] < limit && Adjacent(links, x, y)
    requires dist[x] < d || (q == [] && open == {})
    ensures y in dist
  {
    hide Adjacent, Exact;
  }

  // One more layer of a ball whose inner nodes are all expanded.
  lemma LayerSeen(links: seq<Link>, roots: set<Id>, limit: nat, q: seq<(Id, nat)>, dist: map<Id, nat>, d: nat, open: set<Id>, k: nat)
    requires Searching(links, roots, limit, q, dist, d, open) && 0 < k <= limit && Ball(links, roots, k - 1) <= dist.Keys
    requires k <= d || (q == [] && open == {})
    ensures Ball(links, roots, k) <= dist.Keys
  {
    hide Adjacent, Neighbours, InQueue;
    NeighboursAre(links, Ball(links, roots, k - 1));
    forall y | y in Neighbours(links, Ball(links, roots, k - 1)) ensures y in dist {
      var x :| x in Ball(links, roots, k - 1) && Adjacent(links, x, y);
      ExactIsLeast(links, roots, x, dist[x], k - 1);
      NearerIsExpanded(links, roots, limit, q, dist, d, open, x, y);
    }
  }

  lemma {:induction false} BallSeen(links: seq<Link>, roots: set<Id>, limit: nat, q: seq<(Id, nat)>, dist: map<Id, nat>, d: nat, open: set<Id>, k: nat)
    requires Searching(links, roots, limit, q, dist, d, open) && k <= limit && (k <= d || (q == [] && open == {}))
    ensures Ball(links, roots, k) <= dist.Keys
  {
    hide Adjacent, Neighbours, InQueue, Exact;
    if k == 0 {
    } else {
      BallSeen(links, roots, limit, q, dist, d, open, k - 1);
      LayerSeen(links, roots, limit, q, dist, d, open, k);
    }
  }

  // Starting from the roots.
  lemma SearchStart(links: seq<Link>, roots: set<Id>, limit: nat, q: seq<(Id, nat)>, dist: map<Id, nat>)
    requires dist.Keys == roots && (forall x :: x in dist ==> dist[x] == 0)
    requires (forall i :: 0 <= i < |q| ==> q[i].0 in roots && q[i].1 == 0) && (forall x :: x in roots ==> InQueue(q, x))
    ensures Searching(links, roots, limit, q, dist, 0, {})
  {
  }

  // Taking the front node off the queue.
  lemma SearchPop(links: seq<Link>, roots: set<Id>, limit: nat, q: seq<(Id, nat)>, dist: map<Id, nat>, d: nat)
    requires Searching(links, roots, limit, q, dist, d, {}) && q != []
    ensures Searching(links, roots, limit, q[1..], dist, q[0].1, {q[0].0})
  {
    var rest, e := q[1..], q[0].1;
    forall x | InQueue(q, x) && x != q[0].0 ensures InQueue(rest, x) {
      var i :| 0 <= i < |q| && q[i].0 == x;
      assert rest[i - 1].0 == x;
    }
    forall i | 0 <= i < |rest| ensures e <= rest[i].1 <= e + 1 { assert rest[i] == q[i + 1]; }
  }

  // A neighbour not seen before is one step further than the node being expanded.
  lemma DiscoveredExact(links: seq<Link>, roots: set<Id>, limit: nat, q: seq<(Id, nat)>, dist: map<Id, nat>, d: nat, cur: Id, y: Id)
    requires Searching(links, roots, limit, q, dist, d, {cur}) && d < limit && Adjacent(links, cur, y) && y !in dist
    ensures Exact(links, roots, y, d + 1)
  {
    hide Adjacent, Neighbours, InQueue;
    BallSeen(links, roots, limit, q, dist, d, {cur}, d);
    NeighboursAre(links, Ball(links, roots, d));
    assert cur in Ball(links, roots, d);
  }

  lemma SearchDiscover(links: seq<Link>, roots: set<Id>, limit: nat, q: seq<(Id, nat)>, dist: map<Id, nat>, d: nat, cur: Id, y: Id)
    requires Searching(links, roots, limit, q, dist, d, {cur}) && d < limit && Adjacent(links, cur, y) && y !in dist
    ensures Exact(links, roots, y, d + 1)
    ensures Searching(links, roots, limit, q + [(y, d + 1)], dist[y := d + 1], d, {cur})
  {
    hide Adjacent, Exact;
    var q', dist' := q + [(y, d + 1)], dist[y := d + 1];
    DiscoveredExact(links, roots, limit, q, dist, d, cur, y);
    forall x | InQueue(q, x) ensures InQueue(q', x) {
      var i :| 0 <= i < |q| && q[i].0 == x;
      assert q'[i].0 == x;
    }
    assert q'[|q|].0 == y;
    assert InQueue(q', y);
  }

  // Done with a node: all its neighbours are seen, or it lies at the depth limit.
  lemma SearchClose(links: seq<Link>, roots: set<Id>, limit: nat, q: seq<(Id, nat)>, dist: map<Id, nat>, d: nat, cur: Id)
    requires Searching(links, roots, limit, q, dist, d, {cur})
    requires d >= limit || forall y :: Adjacent(links, cur, y) ==> y in dist
    ensures Searching(links, roots, limit, q, dist, d, {})
  {
  }

  /** When the queue runs empty the search has seen exactly the ball of its depth limit. */
  lemma SearchDone(links: seq<Link>, roots: set<Id>, limit: nat, dist: map<Id, nat>, d: nat)
    requires Searching(links, roots, limit, [], dist, d, {})
    ensures dist.Keys == Ball(links, roots, limit)
  {
    hide Adjacent, InQueue;
    forall x | x in dist ensures x in Ball(links, roots, limit) {
      ExactIsLeast(links, roots, x, dist[x], limit);
    }
    BallSeen(links, roots, limit, [], dist, d, {}, limit);
  }
}
