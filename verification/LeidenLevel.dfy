// One level of the multi-level graph: adjacency rows, the weight internal to each
// (aggregated) node, and node strengths. A row is an ordered map in the source; here
// it is a map that loops traverse in ascending key order.
module LeidenLevel {
  import opened RealSums

  type Edge = (nat, nat, real)

  datatype Level = Level(adj: seq<map<nat, real>>, inner: seq<real>, strength: seq<real>) {
    function Len(): nat { |adj| }
  }

  // ----- what a level means -----

  ghost function Weight(g: Level, v: nat, u: nat): real {
    if v < |g.adj| && u in g.adj[v] then g.adj[v][u] else 0.0
  }

  ghost function Weights(g: Level): Matrix { (v: nat, u: nat) => Weight(g, v, u) }

  ghost predicate Adjacent(g: Level, v: nat, u: nat) { v < |g.adj| && u in g.adj[v] }

  ghost function Strength(g: Level): Vector {
    (v: nat) => if v < |g.strength| then g.strength[v] else 0.0
  }

  ghost function Inner(g: Level): Vector {
    (v: nat) => if v < |g.inner| then g.inner[v] else 0.0
  }

  // Adjacency as a full symmetric matrix: an aggregated node is joined to itself by its
  // internal weight, counted from both ends.
  ghost function Affinity(g: Level): Matrix {
    (v: nat, u: nat) => if v == u then 2.0 * Inner(g)(v) else Weight(g, v, u)
  }

  // Symmetric, positive, free of self-loops, with every strength the incident weight.
  ghost predicate Valid(g: Level) {
    && |g.inner| == |g.strength| == |g.adj|
    && (forall v: nat, u: nat {:trigger u in g.adj[v]} :: v < |g.adj| && u in g.adj[v] ==>
          u < |g.adj| && u != v && g.adj[v][u] > 0.0 && v in g.adj[u] && g.adj[u][v] == g.adj[v][u])
    && (forall v :: 0 <= v < |g.adj| ==> g.inner[v] >= 0.0)
    && (forall v :: 0 <= v < |g.adj| ==> g.strength[v] == Sum(|g.adj|, Row(Weights(g), v)) + 2.0 * g.inner[v])
  }

  lemma ValidShape(g: Level)
    requires Valid(g)
    ensures |g.inner| == |g.strength| == |g.adj|
  {
  }

  ghost function TotalStrength(g: Level): real { Sum(|g.adj|, Strength(g)) }

  // ----- modularity -----

  // The weight two nodes of given strengths are expected to share.
  function Expected(gamma: real, total: real, k: real, s: real): real
    requires total > 0.0
  {
    gamma * k * s / total
  }

  // Actual minus expected weight of every pair of nodes.
  ghost function Excess(g: Level, gamma: real, total: real): Matrix
    requires total > 0.0
  {
    (v: nat, u: nat) => Affinity(g)(v, u) - Expected(gamma, total, Strength(g)(v), Strength(g)(u))
  }

  ghost function SameLabel(p: seq<nat>): Relation {
    (v: nat, u: nat) => v < |p| && u < |p| && p[v] == p[u]
  }

  // Unnormalised modularity of a labelling under a pair matrix.
  ghost function Objective(m: Matrix, p: seq<nat>): real { PairSum(|p|, SameLabel(p), m) }

  // Definitional modularity with resolution gamma.
  ghost function Modularity(g: Level, p: seq<nat>, gamma: real, total: real): real
    requires total > 0.0
  {
    Objective(Excess(g, gamma, total), p) / total
  }

  ghost predicate Labelling(p: seq<nat>, n: nat) { |p| == n && forall v :: 0 <= v < n ==> p[v] < n }

  ghost predicate SamePartition(p: seq<nat>, q: seq<nat>) {
    |p| == |q| && forall x, y :: 0 <= x < |p| && 0 <= y < |p| ==> (p[x] == p[y] <==> q[x] == q[y])
  }

  function Identity(n: nat): (p: seq<nat>)
    ensures |p| == n && forall v :: 0 <= v < n ==> p[v] == v
  {
    seq(n, v => v)
  }

  ghost predicate Symmetric(n: nat, m: Matrix) {
    forall v: nat, u: nat :: v < n && u < n ==> m(v, u) == m(u, v)
  }

  lemma ObjectiveOfPartition(m: Matrix, p: seq<nat>, q: seq<nat>)
    requires SamePartition(p, q)
    ensures Objective(m, p) == Objective(m, q)
  {
    PairSumExt(|p|, SameLabel(p), m, SameLabel(q), m);
  }

  lemma ExpectedLaws(gamma: real, total: real, k: real, s: real)
    requires total > 0.0
    ensures Expected(gamma, total, k, s) == Expected(gamma, total, s, k)
    ensures Expected(gamma, total, k, s) == Expected(gamma, total, k, 1.0) * s
  {
    assert gamma * k * s == gamma * s * k;
    assert gamma * k * s == (gamma * k) * s;
    assert gamma * k * 1.0 == gamma * k;
    var a := gamma * k;
    assert (a * s) / total == (a / total) * s;
  }

  // The expected weight is a product of the two strengths.
  lemma ExpectedFactor(gamma: real, total: real, k: real, s: real)
    requires total > 0.0
    ensures Expected(gamma, total, k, s) == (Expected(gamma, total, 1.0, 1.0) * k) * s
    ensures Expected(gamma, total, k, s) == s * (Expected(gamma, total, 1.0, 1.0) * k)
  {
    ExpectedLaws(gamma, total, k, s);
    ExpectedLaws(gamma, total, k, 1.0);
    ExpectedLaws(gamma, total, 1.0, k);
  }

  lemma AffinitySymmetric(g: Level, v: nat, u: nat)
    requires Valid(g) && v < |g.adj| && u < |g.adj|
    ensures Affinity(g)(v, u) == Affinity(g)(u, v)
  {
    assert Weight(g, v, u) == Weight(g, u, v) by {
      if u in g.adj[v] {
        assert g.adj[u][v] == g.adj[v][u];
      } else {
        assert v !in g.adj[u];
      }
    }
  }

  lemma ExcessSymmetric(g: Level, gamma: real, total: real)
    requires Valid(g) && total > 0.0
    ensures Symmetric(|g.adj|, Excess(g, gamma, total))
  {
    forall v: nat, u: nat | v < |g.adj| && u < |g.adj|
      ensures Excess(g, gamma, total)(v, u) == Excess(g, gamma, total)(u, v)
    {
      ExpectedLaws(gamma, total, Strength(g)(v), Strength(g)(u));
      AffinitySymmetric(g, v, u);
    }
  }

  lemma ExpectedSum(g: Level, gamma: real, total: real, k: real, on: nat -> bool, f: Vector)
    requires total > 0.0
    requires forall i: nat :: i < |g.adj| ==>
               f(i) == if on(i) then Expected(gamma, total, k, Strength(g)(i)) else 0.0
    ensures Sum(|g.adj|, f) == Expected(gamma, total, k, Sum(|g.adj|, Restrict(on, Strength(g))))
  {
    var a, s := Expected(gamma, total, k, 1.0), Restrict(on, Strength(g));
    forall i: nat | i < |g.adj| ensures f(i) == a * s(i) {
      ExpectedLaws(gamma, total, k, s(i));
      if !on(i) { assert a * 0.0 == 0.0; }
    }
    SumScale(|g.adj|, a, s, f);
    ExpectedLaws(gamma, total, k, Sum(|g.adj|, s));
  }

  // Excess of node v against a set of nodes of known weight and strength.
  lemma ExcessSum(g: Level, gamma: real, total: real, v: nat, on: nat -> bool)
    requires total > 0.0 && v < |g.adj|
    ensures Sum(|g.adj|, Restrict(on, Row(Excess(g, gamma, total), v)))
         == Sum(|g.adj|, Restrict(on, Row(Affinity(g), v)))
          - Expected(gamma, total, Strength(g)(v), Sum(|g.adj|, Restrict(on, Strength(g))))
  {
    var k := Strength(g)(v);
    var f, h := Restrict(on, ExpectedFrom(g, gamma, total, k)), Restrict(on, Row(Excess(g, gamma, total), v));
    ExpectedSum(g, gamma, total, k, on, f);
    SumAdd(|g.adj|, h, f, Restrict(on, Row(Affinity(g), v)));
  }

  ghost function ExpectedFrom(g: Level, gamma: real, total: real, k: real): Vector
    requires total > 0.0
  {
    (i: nat) => Expected(gamma, total, k, Strength(g)(i))
  }

  ghost function Restrict(on: nat -> bool, f: Vector): Vector {
    (i: nat) => if on(i) then f(i) else 0.0
  }

  // ----- construction -----

  // `*row.entry(b).or_default() += w`
  function AddTo(row: map<nat, real>, b: nat, w: real): map<nat, real> {
    row[b := (if b in row then row[b] else 0.0) + w]
  }

  predicate Counted(e: Edge, n: nat) { e.0 != e.1 && e.0 < n && e.1 < n && e.2 > 0.0 }

  predicate Joins(e: Edge, a: nat, b: nat) { (e.0 == a && e.1 == b) || (e.0 == b && e.1 == a) }

  ghost predicate Joined(edges: seq<Edge>, n: nat, a: nat, b: nat) {
    exists e :: e in edges && Counted(e, n) && Joins(e, a, b)
  }

  // Total weight of the counted edges between a and b.
  ghost function EdgeWeight(edges: seq<Edge>, n: nat, a: nat, b: nat): real {
    if edges == [] then 0.0 else
      var e := edges[|edges| - 1];
      EdgeWeight(edges[..|edges| - 1], n, a, b) + (if Counted(e, n) && Joins(e, a, b) then e.2 else 0.0)
  }

  ghost function EdgeRow(edges: seq<Edge>, n: nat, a: nat): map<nat, real> {
    map b: nat | b < n && Joined(edges, n, a, b) :: EdgeWeight(edges, n, a, b)
  }

  ghost function RowWeights(row: map<nat, real>): Vector {
    (u: nat) => if u in row then row[u] else 0.0
  }

  ghost function WithStrengths(adj: seq<map<nat, real>>, inner: seq<real>): Level
    requires |inner| == |adj|
  {
    Level(adj, inner, seq(|adj|, v requires 0 <= v < |adj| => Sum(|adj|, RowWeights(adj[v])) + 2.0 * inner[v]))
  }

  // The level of an edge list.
  ghost function LevelOf(n: nat, edges: seq<Edge>): Level {
    WithStrengths(seq(n, a requires 0 <= a < n => EdgeRow(edges, n, a)), seq(n, v => 0.0))
  }

  lemma {:induction false} EdgeWeightPositive(edges: seq<Edge>, n: nat, a: nat, b: nat)
    ensures Joined(edges, n, a, b) ==> EdgeWeight(edges, n, a, b) > 0.0
    ensures !Joined(edges, n, a, b) ==> EdgeWeight(edges, n, a, b) == 0.0
    ensures EdgeWeight(edges, n, a, b) == EdgeWeight(edges, n, b, a)
  {
    if edges == [] {
    } else {
      var e, rest := edges[|edges| - 1], edges[..|edges| - 1];
      assert edges == rest + [e];
      EdgeWeightPositive(rest, n, a, b);
    }
  }

  lemma {:induction false} EdgeWeightSplit(before: seq<Edge>, e: Edge, after: seq<Edge>, n: nat, a: nat, b: nat)
    ensures EdgeWeight(before + [e] + after, n, a, b)
         == EdgeWeight(before + after, n, a, b) + (if Counted(e, n) && Joins(e, a, b) then e.2 else 0.0)
  {
    var all := before + [e] + after;
    if after == [] {
      assert all[..|all| - 1] == before && before + after == before;
    } else {
      var l := after[|after| - 1];
      var rest := after[..|after| - 1];
      assert all[..|all| - 1] == before + [e] + rest;
      assert (before + after)[..|before + after| - 1] == before + rest;
      EdgeWeightSplit(before, e, rest, n, a, b);
    }
  }

  /** The level of an edge list does not depend on the order of the edges. */
  lemma {:induction false} EdgeWeightPermuted(e1: seq<Edge>, e2: seq<Edge>, n: nat, a: nat, b: nat)
    requires multiset(e1) == multiset(e2)
    ensures EdgeWeight(e1, n, a, b) == EdgeWeight(e2, n, a, b)
    decreases |e1|
  {
    if e1 == [] {
      assert |multiset(e2)| == |e2|;
    } else {
      var e, rest := e1[|e1| - 1], e1[..|e1| - 1];
      assert e1 == rest + [e];
      assert e in multiset(e2);
      var i :| 0 <= i < |e2| && e2[i] == e;
      assert e2 == e2[..i] + [e] + e2[i + 1..];
      assert multiset(e1) == multiset(rest) + multiset{e};
      assert multiset(e2) == multiset(e2[..i] + e2[i + 1..]) + multiset{e};
      assert multiset(rest) == multiset(e1) - multiset{e};
      EdgeWeightPermuted(rest, e2[..i] + e2[i + 1..], n, a, b);
      EdgeWeightSplit(e2[..i], e, e2[i + 1..], n, a, b);
    }
  }

  lemma LevelOfPermuted(n: nat, e1: seq<Edge>, e2: seq<Edge>)
    requires multiset(e1) == multiset(e2)
    ensures LevelOf(n, e1) == LevelOf(n, e2)
  {
    forall e ensures e in e1 <==> e in e2 {
      assert e in multiset(e1) <==> e in multiset(e2);
    }
    forall a: nat | a < n ensures EdgeRow(e1, n, a) == EdgeRow(e2, n, a) {
      forall b: nat | b < n ensures EdgeWeight(e1, n, a, b) == EdgeWeight(e2, n, a, b) {
        EdgeWeightPermuted(e1, e2, n, a, b);
      }
    }
    assert LevelOf(n, e1).adj == LevelOf(n, e2).adj;
  }

  lemma StrengthsOfRows(g: Level, v: nat)
    requires v < |g.adj|
    ensures Sum(|g.adj|, RowWeights(g.adj[v])) == Sum(|g.adj|, Row(Weights(g), v))
  {
    SumExt(|g.adj|, RowWeights(g.adj[v]), Row(Weights(g), v));
  }

  lemma EdgeMutual(edges: seq<Edge>, n: nat, v: nat, u: nat)
    requires v < n && u in EdgeRow(edges, n, v)
    ensures u < n && u != v && EdgeRow(edges, n, v)[u] > 0.0
    ensures v in EdgeRow(edges, n, u) && EdgeRow(edges, n, u)[v] == EdgeRow(edges, n, v)[u]
  {
    EdgeWeightPositive(edges, n, v, u);
    var e :| e in edges && Counted(e, n) && Joins(e, v, u);
    assert Joins(e, u, v);
  }

  lemma LevelOfValid(n: nat, edges: seq<Edge>)
    ensures Valid(LevelOf(n, edges)) && LevelOf(n, edges).Len() == n
  {
    hide EdgeRow, Sum;
    var g := LevelOf(n, edges);
    forall v: nat, u: nat {:trigger u in g.adj[v]} | v < n && u in g.adj[v]
      ensures u < n && u != v && g.adj[v][u] > 0.0 && v in g.adj[u] && g.adj[u][v] == g.adj[v][u]
    {
      assert g.adj[v] == EdgeRow(edges, n, v);
      EdgeMutual(edges, n, v, u);
      assert g.adj[u] == EdgeRow(edges, n, u);
    }
    forall v | 0 <= v < n ensures g.strength[v] == Sum(n, Row(Weights(g), v)) + 2.0 * g.inner[v] {
      StrengthsOfRows(g, v);
    }
  }

  lemma EdgeStep(edges: seq<Edge>, e: Edge, n: nat, x: nat, b: nat)
    ensures Joined(edges + [e], n, x, b) <==> Joined(edges, n, x, b) || (Counted(e, n) && Joins(e, x, b))
    ensures EdgeWeight(edges + [e], n, x, b)
         == (if Joined(edges, n, x, b) then EdgeWeight(edges, n, x, b) else 0.0) + (if Counted(e, n) && Joins(e, x, b) then e.2 else 0.0)
  {
    var more := edges + [e];
    assert more[..|more| - 1] == edges;
    assert forall f :: f in more <==> f in edges || f == e;
    EdgeWeightPositive(edges, n, x, b);
  }

  lemma EdgeRowStep(edges: seq<Edge>, e: Edge, n: nat, x: nat)
    requires x < n
    ensures EdgeRow(edges + [e], n, x)
         == if Counted(e, n) && x == e.0 then AddTo(EdgeRow(edges, n, x), e.1, e.2)
            else if Counted(e, n) && x == e.1 then AddTo(EdgeRow(edges, n, x), e.0, e.2)
            else EdgeRow(edges, n, x)
  {
    hide EdgeWeight, Joined;
    forall b: nat | b < n
      ensures Joined(edges + [e], n, x, b) <==> Joined(edges, n, x, b) || (Counted(e, n) && Joins(e, x, b))
      ensures EdgeWeight(edges + [e], n, x, b)
           == (if Joined(edges, n, x, b) then EdgeWeight(edges, n, x, b) else 0.0) + (if Counted(e, n) && Joins(e, x, b) then e.2 else 0.0)
    {
      EdgeStep(edges, e, n, x, b);
    }
  }

  // ----- what the base level holds -----

  lemma {:induction false} EdgeWeightIsSum(edges: seq<Edge>, n: nat, a: nat, b: nat, f: Vector)
    requires a < n && b < n && a != b
    requires forall i: nat :: i < |edges| ==>
               f(i) == if ((edges[i].0 == a && edges[i].1 == b) || (edges[i].0 == b && edges[i].1 == a)) && edges[i].2 > 0.0
                       then edges[i].2 else 0.0
    ensures EdgeWeight(edges, n, a, b) == Sum(|edges|, f)
    decreases |edges|
  {
    hide Joined;
    if edges == [] {
    } else {
      EdgeWeightIsSum(edges[..|edges| - 1], n, a, b, f);
    }
  }

  lemma JoinedIs(edges: seq<Edge>, n: nat, a: nat, b: nat)
    requires a < n && b < n && a != b
    ensures Joined(edges, n, a, b) <==>
              exists i: nat :: i < |edges| && ((edges[i].0 == a && edges[i].1 == b) || (edges[i].0 == b && edges[i].1 == a)) && edges[i].2 > 0.0
  {
    if Joined(edges, n, a, b) {
      var e :| e in edges && Counted(e, n) && Joins(e, a, b);
      var i :| 0 <= i < |edges| && edges[i] == e;
    }
    forall i: nat | i < |edges| ensures edges[i] in edges { }
  }

  lemma EndsPair(x: nat, y: nat, a: nat, b: nat)
    ensures {x, y} == {a, b} <==> (x == a && y == b) || (x == b && y == a)
  {
    if {x, y} == {a, b} {
      assert x in {a, b} && y in {a, b} && a in {x, y} && b in {x, y};
    }
  }

  /** The base level of an edge list joins two nodes exactly when some edge of positive weight
      does, whichever end it lists first, and by the total weight of all such edges. */
  lemma LevelOfWeights(n: nat, edges: seq<Edge>, a: nat, b: nat, f: Vector)
    requires a < n && b < n && a != b
    requires forall i: nat :: i < |edges| ==>
               f(i) == if {edges[i].0, edges[i].1} == {a, b} && edges[i].2 > 0.0 then edges[i].2 else 0.0
    ensures Weight(LevelOf(n, edges), a, b) == Sum(|edges|, f)
    ensures b in LevelOf(n, edges).adj[a] <==>
              exists i: nat :: i < |edges| && {edges[i].0, edges[i].1} == {a, b} && edges[i].2 > 0.0
  {
    hide Joined, EdgeWeight, Sum;
    forall i: nat | i < |edges|
      ensures {edges[i].0, edges[i].1} == {a, b} <==> (edges[i].0 == a && edges[i].1 == b) || (edges[i].0 == b && edges[i].1 == a)
    {
      EndsPair(edges[i].0, edges[i].1, a, b);
    }
    EdgeWeightIsSum(edges, n, a, b, f);
    JoinedIs(edges, n, a, b);
    EdgeWeightPositive(edges, n, a, b);
    assert LevelOf(n, edges).adj[a] == EdgeRow(edges, n, a);
  }

  // Which end of an edge is listed first does not matter.
  lemma EndsSwapped(n: nat, edges: seq<Edge>, i: nat)
    requires i < |edges|
    ensures LevelOf(n, edges[i := (edges[i].1, edges[i].0, edges[i].2)]) == LevelOf(n, edges)
  {
    var e := edges[i];
    var e' := (e.1, e.0, e.2);
    var before, after := edges[..i], edges[i + 1..];
    assert edges == before + [e] + after && edges[i := e'] == before + [e'] + after;
    forall a: nat | a < n ensures EdgeRow(edges[i := e'], n, a) == EdgeRow(edges, n, a) {
      forall b: nat | b < n
        ensures EdgeWeight(edges[i := e'], n, a, b) == EdgeWeight(edges, n, a, b)
        ensures Joined(edges[i := e'], n, a, b) <==> Joined(edges, n, a, b)
      {
        EdgeWeightSplit(before, e, after, n, a, b);
        EdgeWeightSplit(before, e', after, n, a, b);
        EdgeWeightPositive(edges, n, a, b);
        EdgeWeightPositive(edges[i := e'], n, a, b);
      }
    }
    assert LevelOf(n, edges[i := e']).adj == LevelOf(n, edges).adj;
  }

  /** On the base level modularity is what its definition says: over all ordered pairs of nodes
      of one label, the weight between them less gamma times the product of their strengths over
      the total, all over the total. */
  lemma ModularityOfEdges(n: nat, edges: seq<Edge>, p: seq<nat>, gamma: real, k: Vector, m: Matrix)
    requires |p| == n && Sum(n, k) > 0.0
    requires forall v: nat :: v < n ==> k(v) == Sum(n, Row(Weights(LevelOf(n, edges)), v))
    requires forall v: nat, u: nat :: v < n && u < n ==>
               m(v, u) == if p[v] == p[u] then Weight(LevelOf(n, edges), v, u) - gamma * k(v) * k(u) / Sum(n, k) else 0.0
    ensures TotalStrength(LevelOf(n, edges)) == Sum(n, k)
    ensures Modularity(LevelOf(n, edges), p, gamma, Sum(n, k)) == Total(n, n, m) / Sum(n, k)
  {
    hide LevelOf, Sum, Weight;
    var g, total := LevelOf(n, edges), Sum(n, k);
    LevelOfValid(n, edges);
    LevelOfInner(n, edges);
    forall v: nat | v < n ensures Strength(g)(v) == k(v) {}
    SumExt(n, Strength(g), k);
    var q := Masked(SameLabel(p), Excess(g, gamma, total));
    forall v: nat, u: nat | v < n && u < n ensures q(v, u) == m(v, u) {
      NoSelfWeight(g, v);
      assert Affinity(g)(v, u) == if v == u then 2.0 * Inner(g)(v) else Weight(g, v, u);
      assert Affinity(g)(v, u) == Weight(g, v, u);
      assert Excess(g, gamma, total)(v, u) == Affinity(g)(v, u) - Expected(gamma, total, k(v), k(u));
    }
    TotalExt(n, n, q, m);
  }

  lemma LevelOfInner(n: nat, edges: seq<Edge>)
    ensures |LevelOf(n, edges).inner| == n && forall v :: 0 <= v < n ==> LevelOf(n, edges).inner[v] == 0.0
  {
  }

  lemma NoSelfWeight(g: Level, v: nat)
    requires Valid(g)
    ensures Weight(g, v, v) == 0.0
  {
  }

  /** Builds the base level from an edge list: self-loops, edges with an endpoint outside
      the graph and edges without positive weight are ignored, parallel edges merge. */
  method NewLevel(n: nat, edges: seq<Edge>) returns (g: Level)
    ensures g == LevelOf(n, edges)
    ensures Valid(g) && g.Len() == n
  {
    var adj := new map<nat, real>[n](_ => map[]);
    assert forall x: nat :: x < n ==> EdgeRow(edges[..0], n, x) == map[];
    for i := 0 to |edges|
      invariant forall x: nat :: x < n ==> adj[x] == EdgeRow(edges[..i], n, x)
    {
      var (a, b, w) := edges[i];
      ghost var e := edges[i];
      assert edges[..i + 1] == edges[..i] + [e];
      forall x: nat | x < n
        ensures EdgeRow(edges[..i + 1], n, x)
             == if Counted(e, n) && x == e.0 then AddTo(EdgeRow(edges[..i], n, x), e.1, e.2)
                else if Counted(e, n) && x == e.1 then AddTo(EdgeRow(edges[..i], n, x), e.0, e.2)
                else EdgeRow(edges[..i], n, x)
      {
        EdgeRowStep(edges[..i], e, n, x);
      }
      if a != b && a < n && b < n && w > 0.0 {
        adj[a] := AddTo(adj[a], b, w);
        adj[b] := AddTo(adj[b], a, w);
      }
    }
    assert edges[..|edges|] == edges;
    assert adj[..] == LevelOf(n, edges).adj;
    g := FromMaps(adj[..], seq(n, v => 0.0));
    LevelOfValid(n, edges);
  }

  /** Completes adjacency maps and internal weights with the node strengths. */
  method FromMaps(adj: seq<map<nat, real>>, inner: seq<real>) returns (g: Level)
    requires |inner| == |adj|
    ensures g == WithStrengths(adj, inner)
  {
    var n := |adj|;
    var strength := new real[n];
    for v := 0 to n
      invariant forall x :: 0 <= x < v ==> strength[x] == Sum(n, RowWeights(adj[x])) + 2.0 * inner[x]
    {
      var sum := 0.0;
      for u := 0 to n
        invariant sum == Sum(u, RowWeights(adj[v]))
      {
        if u in adj[v] {
          sum := sum + adj[v][u];
        }
      }
      strength[v] := sum + 2.0 * inner[v];
    }
    g := Level(adj, inner, strength[..]);
    assert g.strength == WithStrengths(adj, inner).strength;
  }
}
