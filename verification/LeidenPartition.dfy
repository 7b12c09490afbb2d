// The multi-level loop: local moving, refinement and aggregation until every community is
// a single node of the current level. Specification, its guarantees, and the code.
module LeidenPartition {
  import opened RealSums
  import opened Sets
  import opened LeidenLevel
  import opened LeidenMove
  import opened LeidenPaths
  import opened LeidenRefine
  import opened LeidenAggregate
  import opened LeidenLabels
  import opened LeidenQuality

  // How the level loop was left: every community a single node, no refinement progress,
  // the level cap, or a graph without edges.
  datatype Exit = Converged | NoProgress | OutOfLevels | Edgeless

  // The current level, the level node of every base node, and the current communities.
  datatype LevelState = LevelState(graph: Level, nodeOf: seq<nat>, part: seq<nat>) {
    ghost predicate Shaped() {
      && Valid(graph) && Labelling(part, |graph.adj|) && InertAlone(graph, part)
      && forall v :: 0 <= v < |nodeOf| ==> nodeOf[v] < |graph.adj|
    }
  }

  datatype LevelStep = Leave(membership: seq<nat>, exit: Exit) | Go(next: LevelState)

  // Communities after local moving.
  ghost function Moved(s: LevelState, gamma: real, total: real): MoveState
    requires s.Shaped() && total > 0.0
  {
    ExcessSymmetric(s.graph, gamma, total);
    StartOk(s.graph, s.part);
    MoveRun(s.graph, Excess(s.graph, gamma, total), MoveStart(s.part))
  }

  // The community of every cluster, read off a member.
  ghost function NextPart(part: seq<nat>, refined: seq<nat>, clusters: nat): (r: seq<nat>)
    requires |part| == |refined|
    ensures |r| == clusters
  {
    seq(clusters, a requires 0 <= a < clusters =>
      if IndexOf(refined, a) < |part| then part[IndexOf(refined, a)] else 0)
  }

  ghost function OneLevel(s: LevelState, gamma: real, total: real): LevelStep
    requires s.Shaped() && total > 0.0
  {
    MovedFacts(s, gamma, total);
    var moved := Moved(s, gamma, total);
    var part := DenseLabels(moved.part);
    if |FirstSeen(moved.part)| == |s.graph.adj| then Leave(Compose(s.nodeOf, part), Converged)
    else
      var raw := RefineTo(s.graph, gamma, total, part, |part|);
      var refined, clusters := DenseLabels(raw), |FirstSeen(raw)|;
      if !moved.moved && clusters == |s.graph.adj| then Leave(Compose(s.nodeOf, part), NoProgress)
      else Go(LevelState(AggregateOf(s.graph, refined, clusters), Compose(s.nodeOf, refined), NextPart(part, refined, clusters)))
  }

  // ----- one level -----

  lemma AlonePartition(p: seq<nat>, q: seq<nat>, v: nat)
    requires SamePartition(p, q) && v < |p|
    ensures Alone(p, v) <==> Alone(q, v)
  {
  }

  lemma SettledPartition(g: Level, m: Matrix, p: seq<nat>, q: seq<nat>, v: nat)
    requires SamePartition(p, q) && Labelling(p, |p|) && v < |p| && Settled(g, m, p, v)
    ensures Settled(g, m, q, v)
  {
    AlonePartition(p, q, v);
    SumExt(|p|, Restrict(Others(p, v, p[v]), Row(m, v)), Restrict(Others(q, v, q[v]), Row(m, v)));
    forall c: nat | c < |q| && Touches(g, q, v, c) ensures LinkGain(m, q, v, c) <= LinkGain(m, q, v, q[v]) {
      var u: nat :| u < |q| && q[u] == c && Adjacent(g, v, u);
      assert Touches(g, p, v, p[u]);
      SumExt(|p|, Restrict(Others(p, v, p[u]), Row(m, v)), Restrict(Others(q, v, c), Row(m, v)));
    }
  }

  // What local moving followed by dense renumbering achieves.
  lemma MovedFacts(s: LevelState, gamma: real, total: real)
    requires s.Shaped() && total > 0.0
    ensures var moved, m, n := Moved(s, gamma, total), Excess(s.graph, gamma, total), |s.graph.adj|;
            var part := DenseLabels(moved.part);
            && Labelling(moved.part, n) && Labelling(part, n) && InertAlone(s.graph, part)
            && Objective(m, part) >= Objective(m, s.part)
            && (moved.moved ==> Objective(m, part) > Objective(m, s.part))
            && (!moved.moved ==> forall v: nat :: v < n ==> Settled(s.graph, m, part, v))
  {
    hide Valid, Excess, Objective, Settled;
    var g, m := s.graph, Excess(s.graph, gamma, total);
    ExcessSymmetric(g, gamma, total);
    StartOk(g, s.part);
    RunOutcome(g, m, MoveStart(s.part));
    var moved := Moved(s, gamma, total);
    var part := DenseLabels(moved.part);
    DenseFacts(moved.part);
    ObjectiveOfPartition(m, moved.part, part);
    forall v: nat | v < |part| && Strength(g)(v) == 0.0 ensures Alone(part, v) { AlonePartition(moved.part, part, v); }
    if !moved.moved {
      forall v: nat | v < |part| ensures Settled(g, m, part, v) {
        assert Identity(|part|)[v] == v;
        assert v in MoveStart(s.part).queue;
        SettledPartition(g, m, moved.part, part, v);
      }
    }
  }

  // The clusters of a level: a dense refinement of its communities, connected inside.
  lemma ClusterFacts(g: Level, gamma: real, total: real, part: seq<nat>)
    requires Valid(g) && total > 0.0 && Labelling(part, |g.adj|)
    ensures var raw := RefineTo(g, gamma, total, part, |part|);
            var refined, clusters := DenseLabels(raw), |FirstSeen(raw)|;
            && Clustering(g, refined, clusters) && clusters <= |g.adj|
            && (forall a: nat :: a < clusters ==> a in refined)
            && (forall x, y :: 0 <= x < |part| && 0 <= y < |part| && refined[x] == refined[y] ==> part[x] == part[y])
            && AllConnected(g, refined)
  {
    hide Valid, RefineTo, Linked;
    var raw := RefineTo(g, gamma, total, part, |part|);
    RefinementConnected(g, gamma, total, part, |part|);
    DenseFacts(raw);
    var refined := DenseLabels(raw);
    forall x, y | 0 <= x < |part| && 0 <= y < |part| && refined[x] == refined[y] ensures part[x] == part[y] {
      assert raw[x] == raw[y] && part[raw[x]] == part[x] && part[raw[y]] == part[y];
    }
    forall x: nat, y: nat | x < |refined| && y < |refined| && refined[x] == refined[y] ensures Linked(g, refined, x, y) {
      assert raw[x] == raw[y];
      LinkedPartition(g, raw, refined, x, y);
    }
  }

  lemma LinkedPartition(g: Level, p: seq<nat>, q: seq<nat>, x: nat, y: nat)
    requires |p| == |g.adj| && |q| == |p| && x < |p| && Linked(g, p, x, y)
    requires forall v, u :: 0 <= v < |p| && 0 <= u < |p| && p[v] == p[u] ==> q[v] == q[u]
    ensures Linked(g, q, x, y)
  {
    var s :| Path(g, p, s) && s[0] == x && s[|s| - 1] == y;
    assert Path(g, q, s);
  }

  // Members of a cluster read the same community from it.
  lemma NextPartFacts(g: Level, part: seq<nat>, refined: seq<nat>, clusters: nat, communities: nat)
    requires Valid(g) && Clustering(g, refined, clusters) && |part| == |refined|
    requires forall a: nat :: a < clusters ==> a in refined
    requires forall x, y :: 0 <= x < |part| && 0 <= y < |part| && refined[x] == refined[y] ==> part[x] == part[y]
    requires forall v :: 0 <= v < |part| ==> part[v] < communities
    requires forall d: nat :: d < communities ==> d in part
    ensures var next := NextPart(part, refined, clusters);
            && Labelling(next, clusters)
            && forall v :: 0 <= v < |part| ==> next[refined[v]] == part[v]
  {
    var next := NextPart(part, refined, clusters);
    forall v | 0 <= v < |part| ensures next[refined[v]] == part[v] {
      IndexOfFirst(refined, refined[v]);
      assert refined[v] in refined;
    }
    forall a: nat | a < clusters ensures next[a] < communities {
      IndexOfFirst(refined, a);
    }
    // Every community has a cluster of its own.
    forall d: nat | d < communities ensures d in next {
      assert d in part;
      var v :| 0 <= v < |part| && part[v] == d;
      assert next[refined[v]] == d;
    }
    IdentityCard(communities);
    DistinctEntries(next);
    forall d: nat | d in Elements(Identity(communities)) ensures d in Elements(next) { }
    SubsetCard(Elements(Identity(communities)), Elements(next));
  }

  lemma MemberStrength(g: Level, refined: seq<nat>, a: nat, v: nat)
    requires Valid(g) && |refined| == |g.adj| && v < |refined| && refined[v] == a && ClassSum(refined, a, Strength(g)) == 0.0
    ensures Strength(g)(v) == 0.0
  {
    forall x: nat | x < |refined| ensures Class(refined, a, Strength(g))(x) >= 0.0 {
      StrengthNonNegative(g, x);
    }
    SumNonNegative(|refined|, Class(refined, a, Strength(g)));
    assert Class(refined, a, Strength(g))(v) <= 0.0;
    StrengthNonNegative(g, v);
  }

  // Clusters without strength are still alone in their community.
  lemma NextInertAlone(g: Level, part: seq<nat>, refined: seq<nat>, clusters: nat)
    requires Valid(g) && Clustering(g, refined, clusters) && |part| == |refined| && InertAlone(g, part)
    requires forall a: nat :: a < clusters ==> a in refined
    requires forall v :: 0 <= v < |part| ==> NextPart(part, refined, clusters)[refined[v]] == part[v]
    ensures |AggregateOf(g, refined, clusters).adj| == clusters
    ensures InertAlone(AggregateOf(g, refined, clusters), NextPart(part, refined, clusters))
  {
    hide Valid, NextPart, ClassSum;
    var next, g' := NextPart(part, refined, clusters), AggregateOf(g, refined, clusters);
    forall a: nat | a < clusters && Strength(g')(a) == 0.0 ensures Alone(next, a) {
      AggregateStrength(g, refined, clusters, a);
      assert a in refined;
      var v: nat :| v < |refined| && refined[v] == a;
      MemberStrength(g, refined, a, v);
      assert Alone(part, v);
      forall b: nat | b < clusters && b != a ensures next[b] != next[a] {
        assert b in refined;
        var u: nat :| u < |refined| && refined[u] == b;
        assert u != v && part[u] != part[v];
      }
    }
  }

  // ----- what holds between levels -----

  // The level is the quotient of the base graph by nodeOf, whose classes are connected.
  ghost predicate Quotient(base: Level, s: LevelState, gamma: real, total: real)
    requires total > 0.0
  {
    && Valid(base) && s.Shaped() && |s.nodeOf| == |base.adj| && |s.graph.adj| <= |base.adj|
    && IsQuotient(s.nodeOf, |s.graph.adj|, Affinity(base), Affinity(s.graph))
    && IsQuotient(s.nodeOf, |s.graph.adj|, Excess(base, gamma, total), Excess(s.graph, gamma, total))
    && AllConnected(base, s.nodeOf)
  }

  /** An edge of an aggregated level stands for an edge of the base graph. */
  lemma EdgeBelow(base: Level, g: Level, nodeOf: seq<nat>, a: nat, b: nat) returns (i: nat, j: nat)
    requires Valid(base) && Valid(g) && |nodeOf| == |base.adj| && IsQuotient(nodeOf, |g.adj|, Affinity(base), Affinity(g))
    requires Adjacent(g, a, b)
    ensures i < |nodeOf| && j < |nodeOf| && nodeOf[i] == a && nodeOf[j] == b && Adjacent(base, i, j)
  {
    hide Valid;
    AdjacentMutual(g, a, b);
    assert Affinity(g)(a, b) == Weight(g, a, b) > 0.0;
    i, j := PairSumPositive(|nodeOf|, Between(nodeOf, a, b), Affinity(base));
    assert i != j;
    assert Affinity(base)(i, j) == Weight(base, i, j);
  }

  // A path between clusters lifts to a path between any of their members.
  lemma {:induction false} PathLift(base: Level, g: Level, nodeOf: seq<nat>, lab: seq<nat>, s: seq<nat>, x: nat, y: nat)
    requires Valid(base) && Valid(g) && |nodeOf| == |base.adj| && |lab| == |g.adj|
    requires IsQuotient(nodeOf, |g.adj|, Affinity(base), Affinity(g)) && AllConnected(base, nodeOf)
    requires Path(g, lab, s) && x < |nodeOf| && y < |nodeOf| && nodeOf[x] == s[0] && nodeOf[y] == s[|s| - 1]
    ensures Linked(base, Compose(nodeOf, lab), x, y)
    decreases |s|
  {
    hide Valid, Linked, IsQuotient, Affinity;
    QuotientLabels(nodeOf, |g.adj|, Affinity(base), Affinity(g));
    var lab' := Compose(nodeOf, lab);
    if |s| == 1 {
      LinkedPartition(base, nodeOf, lab', x, y);
    } else {
      assert Adjacent(g, s[0], s[1]);
      var i, j := EdgeBelow(base, g, nodeOf, s[0], s[1]);
      LinkedPartition(base, nodeOf, lab', x, i);
      LinkedByEdge(base, lab', i, j);
      LinkedThrough(base, lab', x, i, j);
      assert Path(g, lab, s[1..]) by {
        forall k | 0 <= k < |s[1..]| - 1 ensures Adjacent(g, s[1..][k], s[1..][k + 1]) { assert Adjacent(g, s[k + 1], s[k + 2]); }
      }
      PathLift(base, g, nodeOf, lab, s[1..], j, y);
      LinkedThrough(base, lab', x, j, y);
    }
  }

  lemma QuotientLabels(lab: seq<nat>, classes: nat, m: Matrix, q: Matrix)
    requires IsQuotient(lab, classes, m, q)
    ensures forall v :: 0 <= v < |lab| ==> lab[v] < classes
  {
  }

  /** Connected clusters of connected clusters are connected in the base graph. */
  lemma LiftConnected(base: Level, g: Level, nodeOf: seq<nat>, lab: seq<nat>)
    requires Valid(base) && Valid(g) && |nodeOf| == |base.adj| && |lab| == |g.adj|
    requires IsQuotient(nodeOf, |g.adj|, Affinity(base), Affinity(g)) && AllConnected(base, nodeOf)
    requires AllConnected(g, lab)
    ensures AllConnected(base, Compose(nodeOf, lab))
  {
    hide Valid, Affinity;
    var lab' := Compose(nodeOf, lab);
    forall x: nat, y: nat | x < |lab'| && y < |lab'| && lab'[x] == lab'[y] ensures Linked(base, lab', x, y) {
      assert Linked(g, lab, nodeOf[x], nodeOf[y]);
      var s :| Path(g, lab, s) && s[0] == nodeOf[x] && s[|s| - 1] == nodeOf[y];
      PathLift(base, g, nodeOf, lab, s, x, y);
    }
  }

  /** Communities of the level and the base communities they stand for have one objective. */
  lemma SameObjective(base: Level, s: LevelState, gamma: real, total: real, p: seq<nat>)
    requires total > 0.0 && Quotient(base, s, gamma, total) && |p| == |s.graph.adj|
    ensures Objective(Excess(s.graph, gamma, total), p) == Objective(Excess(base, gamma, total), Compose(s.nodeOf, p))
  {
    hide Valid, Excess;
    var m, q := Excess(base, gamma, total), Excess(s.graph, gamma, total);
    QuotientPairSum(s.nodeOf, |p|, m, q, SameLabel(p));
    PairSumExt(|s.nodeOf|, Lift(SameLabel(p), s.nodeOf), m, SameLabel(Compose(s.nodeOf, p)), m);
  }

  // What is left to do: base labellings still to climb, then nodes still to merge.
  ghost function Remaining(base: Level, s: LevelState, gamma: real, total: real): nat
    requires total > 0.0 && Quotient(base, s, gamma, total)
  {
    |Better(Excess(base, gamma, total), BaseLabels(s))| * (|base.adj| + 1) + |s.graph.adj|
  }

  lemma RemainingDrops(b: nat, b': nat, n: nat, n': nat, k: nat)
    requires b' < b || (b' <= b && n' < n)
    requires n' <= k
    ensures b' * (k + 1) + n' < b * (k + 1) + n
  {
    if b' < b {
      assert b * (k + 1) >= (b' + 1) * (k + 1);
    } else {
      assert b == b';
    }
  }

  ghost function CommunitiesOf(s: LevelState, gamma: real, total: real): seq<nat>
    requires s.Shaped() && total > 0.0
  {
    DenseLabels(Moved(s, gamma, total).part)
  }

  /** The next level is well formed and stands for the communities local moving found. */
  lemma NextShaped(s: LevelState, gamma: real, total: real)
    requires total > 0.0 && s.Shaped() && OneLevel(s, gamma, total).Go?
    ensures var s', part := OneLevel(s, gamma, total).next, CommunitiesOf(s, gamma, total);
            && |part| == |s.graph.adj| && s'.Shaped() && |s'.graph.adj| <= |s.graph.adj|
            && (Moved(s, gamma, total).moved || |s'.graph.adj| < |s.graph.adj|)
            && |s'.nodeOf| == |s.nodeOf| && Compose(s'.nodeOf, s'.part) == Compose(s.nodeOf, part)
  {
    hide Valid, Excess, Objective, Settled, RefineTo, AggregateOf, NextPart, AllConnected, InertAlone, MoveRun;
    var g := s.graph;
    var moved, s' := Moved(s, gamma, total), OneLevel(s, gamma, total).next;
    var part := CommunitiesOf(s, gamma, total);
    MovedFacts(s, gamma, total);
    DenseFacts(moved.part);
    var raw := RefineTo(g, gamma, total, part, |part|);
    var refined, clusters := DenseLabels(raw), |FirstSeen(raw)|;
    ClusterFacts(g, gamma, total, part);
    NextPartFacts(g, part, refined, clusters, |FirstSeen(moved.part)|);
    NextInertAlone(g, part, refined, clusters);
    AggregateValid(g, refined, clusters);
    assert Compose(s'.nodeOf, s'.part) == Compose(s.nodeOf, part);
  }

  /** The next level is again a quotient of the base graph with connected classes. */
  lemma NextQuotient(base: Level, s: LevelState, gamma: real, total: real)
    requires total > 0.0 && Quotient(base, s, gamma, total) && OneLevel(s, gamma, total).Go?
    ensures Quotient(base, OneLevel(s, gamma, total).next, gamma, total)
  {
    hide Valid, Excess, Objective, Settled, RefineTo, Affinity, AggregateOf, NextPart, AllConnected, InertAlone, MoveRun, PairSum;
    var g, n, m := s.graph, |s.graph.adj|, Excess(base, gamma, total);
    var part, s' := CommunitiesOf(s, gamma, total), OneLevel(s, gamma, total).next;
    NextShaped(s, gamma, total);
    MovedFacts(s, gamma, total);
    var raw := RefineTo(g, gamma, total, part, |part|);
    var refined, clusters := DenseLabels(raw), |FirstSeen(raw)|;
    ClusterFacts(g, gamma, total, part);
    AggregateValid(g, refined, clusters);
    AggregateAffinity(g, refined, clusters);
    AggregateExcess(g, refined, clusters, gamma, total);
    QuotientCompose(s.nodeOf, n, Affinity(base), Affinity(g), refined, clusters, Affinity(s'.graph));
    QuotientCompose(s.nodeOf, n, m, Excess(g, gamma, total), refined, clusters, Excess(s'.graph, gamma, total));
    LiftConnected(base, g, s.nodeOf, refined);
  }

  // Base labelling a level stands for.
  ghost function BaseLabels(s: LevelState): seq<nat>
    requires s.Shaped()
  {
    Compose(s.nodeOf, s.part)
  }

  /** A level that goes on raises the objective or merges nodes; either way less remains. */
  lemma NextClimbs(base: Level, s: LevelState, gamma: real, total: real)
    requires total > 0.0 && Quotient(base, s, gamma, total) && OneLevel(s, gamma, total).Go?
    ensures var s' := OneLevel(s, gamma, total).next;
            && Quotient(base, s', gamma, total)
            && Objective(Excess(base, gamma, total), BaseLabels(s')) >= Objective(Excess(base, gamma, total), BaseLabels(s))
            && Remaining(base, s', gamma, total) < Remaining(base, s, gamma, total)
  {
    hide Valid, Excess, Objective, Settled, RefineTo, OneLevel, AllConnected, InertAlone, MoveRun, IsQuotient, Better;
    var n, m := |s.graph.adj|, Excess(base, gamma, total);
    var part, s' := CommunitiesOf(s, gamma, total), OneLevel(s, gamma, total).next;
    MovedFacts(s, gamma, total);
    NextShaped(s, gamma, total);
    NextQuotient(base, s, gamma, total);
    SameObjective(base, s, gamma, total, part);
    SameObjective(base, s, gamma, total, s.part);
    BetterShrinks(m, BaseLabels(s), BaseLabels(s'));
    RemainingDrops(|Better(m, BaseLabels(s))|, |Better(m, BaseLabels(s'))|, n, |s'.graph.adj|, |base.adj|);
  }

  // Leaving the loop: never for want of progress, and with connected communities.
  lemma LastLevel(base: Level, s: LevelState, gamma: real, total: real)
    requires gamma > 0.0 && total > 0.0 && Quotient(base, s, gamma, total) && OneLevel(s, gamma, total).Leave?
    ensures var leave := OneLevel(s, gamma, total);
            && leave.exit == Converged && |leave.membership| == |base.adj|
            && AllConnected(base, leave.membership)
            && Objective(Excess(base, gamma, total), leave.membership) >= Objective(Excess(base, gamma, total), BaseLabels(s))
  {
    hide Valid, Excess, Objective, Settled, RefineTo, Affinity, AggregateOf, NextPart, AllConnected, Better, InertAlone, MoveRun, PairSum;
    var g, n := s.graph, |s.graph.adj|;
    var moved := Moved(s, gamma, total);
    var part := CommunitiesOf(s, gamma, total);
    MovedFacts(s, gamma, total);
    DenseFacts(moved.part);
    SameObjective(base, s, gamma, total, part);
    SameObjective(base, s, gamma, total, s.part);
    if |FirstSeen(moved.part)| == n {
      DenseOfAlone(moved.part);
      assert Compose(s.nodeOf, part) == s.nodeOf;
    } else if !moved.moved {
      var v: nat :| v < n && !Alone(moved.part, v);
      AlonePartition(moved.part, part, v);
      RefinementProgress(g, gamma, total, part);
      DenseFacts(RefineTo(g, gamma, total, part, |part|));
    }
  }

  // ----- what convergence means -----

  // The labelling in which community a has joined community b.
  function Merged(p: seq<nat>, a: nat, b: nat): (r: seq<nat>)
    ensures |r| == |p|
  {
    seq(|p|, v requires 0 <= v < |p| => if p[v] == a then b else p[v])
  }

  // Two nodes of their own communities: what joining them would gain.
  lemma PairGain(m: Matrix, n: nat, a: nat, b: nat)
    requires a < n && b < n && a != b
    ensures LinkGain(m, Identity(n), a, b) == m(a, b) && LinkGain(m, Identity(n), a, a) == 0.0
  {
    SumSpike(n, b, Restrict(Others(Identity(n), a, b), Row(m, a)));
    SumZero(n, Restrict(Others(Identity(n), a, a), Row(m, a)));
  }

  lemma ExpectedNonNegative(gamma: real, total: real, k: real, s: real)
    requires gamma > 0.0 && total > 0.0 && k >= 0.0 && s >= 0.0
    ensures Expected(gamma, total, k, s) >= 0.0
  {
    var x := gamma * k;
    assert x >= 0.0;
    assert x * s >= 0.0;
  }

  lemma ApartExcess(g: Level, gamma: real, total: real, a: nat, b: nat)
    requires gamma > 0.0 && total > 0.0 && Valid(g) && a < |g.adj| && b < |g.adj| && a != b && !Adjacent(g, a, b)
    ensures Excess(g, gamma, total)(a, b) <= 0.0
  {
    hide Valid;
    StrengthNonNegative(g, a);
    StrengthNonNegative(g, b);
    ExpectedNonNegative(gamma, total, Strength(g)(a), Strength(g)(b));
    assert Affinity(g)(a, b) == Weight(g, a, b) == 0.0;
    assert Excess(g, gamma, total)(a, b) == Affinity(g)(a, b) - Expected(gamma, total, Strength(g)(a), Strength(g)(b));
  }

  // A settled node among single nodes is better off joining none of them.
  lemma SettledPair(g: Level, gamma: real, total: real, a: nat, b: nat)
    requires gamma > 0.0 && total > 0.0 && Valid(g) && a < |g.adj| && b < |g.adj| && a != b
    requires Settled(g, Excess(g, gamma, total), Identity(|g.adj|), a)
    ensures Excess(g, gamma, total)(a, b) <= 0.0
  {
    hide Valid, Excess, LinkGain;
    var n, m, p := |g.adj|, Excess(g, gamma, total), Identity(|g.adj|);
    PairGain(m, n, a, b);
    if Adjacent(g, a, b) {
      assert p[b] == b;
      assert Touches(g, p, a, b);
    } else {
      ApartExcess(g, gamma, total, a, b);
    }
  }

  lemma ComposeMerged(lab: seq<nat>, n: nat, a: nat, b: nat)
    requires (forall v :: 0 <= v < |lab| ==> lab[v] < n) && a < n
    ensures Compose(lab, Identity(n)) == lab && Compose(lab, Identity(n)[a := b]) == Merged(lab, a, b)
  {
  }

  lemma SingleCommunities(s: LevelState, gamma: real, total: real)
    requires s.Shaped() && total > 0.0 && |FirstSeen(Moved(s, gamma, total).part)| == |s.graph.adj|
    ensures CommunitiesOf(s, gamma, total) == Identity(|s.graph.adj|)
  {
    hide MoveRun, Valid, InertAlone;
    MovedFacts(s, gamma, total);
    DenseOfAlone(Moved(s, gamma, total).part);
  }

  /** When the last level moved nothing, the communities the loop leaves with are such that
      joining any two of them would not raise modularity. */
  lemma NoMergerHelps(base: Level, s: LevelState, gamma: real, total: real, a: nat, b: nat)
    requires gamma > 0.0 && total > 0.0 && Quotient(base, s, gamma, total) && OneLevel(s, gamma, total).Leave?
    requires !Moved(s, gamma, total).moved && a < |s.graph.adj| && b < |s.graph.adj| && a != b
    ensures var membership := OneLevel(s, gamma, total).membership;
            && (forall v :: 0 <= v < |membership| ==> membership[v] < |s.graph.adj|)
            && Modularity(base, Merged(membership, a, b), gamma, total) <= Modularity(base, membership, gamma, total)
  {
    hide Valid, Excess, Objective, Settled, RefineTo, IsQuotient, AllConnected, InertAlone, MoveRun, LinkGain, AggregateOf, NextPart;
    var g, n, m := s.graph, |s.graph.adj|, Excess(s.graph, gamma, total);
    LastLevel(base, s, gamma, total);
    SingleCommunities(s, gamma, total);
    MovedFacts(s, gamma, total);
    assert OneLevel(s, gamma, total).membership == Compose(s.nodeOf, Identity(n));
    ComposeMerged(s.nodeOf, n, a, b);
    SettledPair(g, gamma, total, a, b);
    PairGain(m, n, a, b);
    ExcessSymmetric(g, gamma, total);
    MoveChangesObjective(m, Identity(n), a, b);
    SameObjective(base, s, gamma, total, Identity(n));
    SameObjective(base, s, gamma, total, Identity(n)[a := b]);
    DivideOrder(Objective(Excess(base, gamma, total), Merged(s.nodeOf, a, b)), Objective(Excess(base, gamma, total), s.nodeOf), total);
  }

  /** One pass of the level loop: it ends if local moving left every node alone, or moved nothing
      and the refinement merged nothing; otherwise the clusters become the nodes of the next
      level, each in the community of its members. */
  lemma LevelExact(s: LevelState, gamma: real, total: real)
    requires s.Shaped() && total > 0.0
    ensures var step, moved, n := OneLevel(s, gamma, total), Moved(s, gamma, total), |s.graph.adj|;
            |moved.part| == n && |s.part| == n &&
            var alone := forall u, v :: 0 <= u < v < n ==> moved.part[u] != moved.part[v];
            var part := DenseLabels(moved.part);
            var raw := RefineTo(s.graph, gamma, total, part, n);
            |raw| == n &&
            var unmerged := forall u, v :: 0 <= u < v < n ==> raw[u] != raw[v];
            var refined := DenseLabels(raw);
            if alone || (!moved.moved && unmerged) then
              && step.Leave? && step.exit == (if alone then Converged else NoProgress) && |step.membership| == |s.nodeOf|
              && forall v :: 0 <= v < |s.nodeOf| ==> step.membership[v] == part[s.nodeOf[v]]
            else
              && step.Go? && |step.next.nodeOf| == |s.nodeOf|
              && (forall v :: 0 <= v < |s.nodeOf| ==> step.next.nodeOf[v] == refined[s.nodeOf[v]])
              && (forall v :: 0 <= v < n ==> refined[v] < |step.next.part| && step.next.part[refined[v]] == part[v])
              && (forall d: nat :: d < |step.next.part| ==> d in refined)
              && step.next.graph == AggregateOf(s.graph, refined, |step.next.part|)
  {
    hide Valid, RefineTo, InertAlone, AggregateOf, Objective, Excess, DenseLabels, FirstSeen, Settled, MoveRun;
    MovedFacts(s, gamma, total);
    var moved := Moved(s, gamma, total);
    var part := DenseLabels(moved.part);
    DenseFacts(moved.part);
    AllAlone(moved.part);
    ClusterFacts(s.graph, gamma, total, part);
    RefinedLength(s.graph, gamma, total, part);
    var raw := RefineTo(s.graph, gamma, total, part, |part|);
    AllAlone(raw);
    DenseFacts(raw);
    CarriedOver(s.graph, part, DenseLabels(raw), |FirstSeen(raw)|);
  }

  lemma AllAlone(p: seq<nat>)
    ensures (forall v: nat :: v < |p| ==> Alone(p, v)) <==> forall u, v :: 0 <= u < v < |p| ==> p[u] != p[v]
  {
    if forall u, v :: 0 <= u < v < |p| ==> p[u] != p[v] {
    } else {
      var u, v :| 0 <= u < v < |p| && p[u] == p[v];
      assert !Alone(p, u);
    }
  }

  lemma RefinedLength(g: Level, gamma: real, total: real, part: seq<nat>)
    requires Valid(g) && total > 0.0 && Labelling(part, |g.adj|)
    ensures |RefineTo(g, gamma, total, part, |part|)| == |part|
  {
    hide Valid, Linked;
    RefinementConnected(g, gamma, total, part, |part|);
  }

  lemma CarriedOver(g: Level, part: seq<nat>, refined: seq<nat>, clusters: nat)
    requires |part| == |refined|
    requires forall x, y :: 0 <= x < |part| && 0 <= y < |part| && refined[x] == refined[y] ==> part[x] == part[y]
    ensures forall v :: 0 <= v < |part| && refined[v] < clusters ==> NextPart(part, refined, clusters)[refined[v]] == part[v]
  {
    forall v | 0 <= v < |part| && refined[v] < clusters ensures NextPart(part, refined, clusters)[refined[v]] == part[v] {
      assert refined[v] in refined;
      IndexOfFirst(refined, refined[v]);
    }
  }

  // ----- whole runs -----

  // Base membership and exit of the level loop, at most cap levels deep.
  ghost function Levels(s: LevelState, gamma: real, total: real, cap: nat): (seq<nat>, Exit)
    requires s.Shaped() && total > 0.0
    decreases cap
  {
    if cap == 0 then (BaseLabels(s), OutOfLevels) else
      match OneLevel(s, gamma, total)
      case Leave(membership, exit) => (membership, exit)
      case Go(next) =>
        NextShaped(s, gamma, total);
        Levels(next, gamma, total, cap - 1)
  }

  /** Every run of the level loop: modularity never falls, refinement never gets stuck, the
      loop converges if the cap covers what remains, and then communities are connected. */
  lemma {:induction false} LevelsOutcome(base: Level, s: LevelState, gamma: real, total: real, cap: nat)
    requires gamma > 0.0 && total > 0.0 && Quotient(base, s, gamma, total) && |base.adj| > 0
    ensures var (membership, exit) := Levels(s, gamma, total, cap);
            && |membership| == |base.adj| && (exit == Converged || exit == OutOfLevels)
            && Objective(Excess(base, gamma, total), membership) >= Objective(Excess(base, gamma, total), BaseLabels(s))
            && (exit == Converged ==> AllConnected(base, membership))
            && (cap >= Remaining(base, s, gamma, total) ==> exit == Converged)
    decreases cap
  {
    hide Valid, Excess, Objective, AllConnected, Quotient, OneLevel, Remaining;
    SomethingRemains(base, s, gamma, total);
    if cap == 0 {
    } else {
      if OneLevel(s, gamma, total).Leave? {
        LastLevel(base, s, gamma, total);
      } else {
        NextClimbs(base, s, gamma, total);
        NextShaped(s, gamma, total);
        LevelsOutcome(base, OneLevel(s, gamma, total).next, gamma, total, cap - 1);
      }
    }
  }

  lemma SomethingRemains(base: Level, s: LevelState, gamma: real, total: real)
    requires total > 0.0 && Quotient(base, s, gamma, total) && |base.adj| > 0
    ensures Remaining(base, s, gamma, total) > 0 && s.Shaped() && |BaseLabels(s)| == |base.adj|
  {
    hide Valid, IsQuotient, AllConnected, Better;
    assert s.nodeOf[0] < |s.graph.adj|;
  }

  // ----- the partitioner -----

  ghost function StartLevel(base: Level): LevelState {
    LevelState(base, Identity(|base.adj|), Identity(|base.adj|))
  }

  lemma StartShaped(base: Level)
    requires Valid(base)
    ensures StartLevel(base).Shaped()
  {
  }

  // Base membership and exit for an edge list.
  ghost function MembershipOf(n: nat, edges: seq<Edge>, gamma: real, cap: nat): (seq<nat>, Exit) {
    var base := LevelOf(n, edges);
    LevelOfValid(n, edges);
    TotalNonNegative(base);
    StartShaped(base);
    if TotalStrength(base) == 0.0 then (Identity(n), Edgeless)
    else Levels(StartLevel(base), gamma, TotalStrength(base), cap)
  }

  lemma TotalNonNegative(g: Level)
    requires Valid(g)
    ensures TotalStrength(g) >= 0.0
  {
    hide Valid;
    forall v: nat | v < |g.adj| ensures Strength(g)(v) >= 0.0 { StrengthNonNegative(g, v); }
    SumNonNegative(|g.adj|, Strength(g));
  }

  lemma IdentityBlock(m: Matrix, n: nat, a: nat, b: nat)
    requires a < n && b < n
    ensures PairSum(n, Between(Identity(n), a, b), m) == m(a, b)
  {
    BlockByRows(Identity(n), a, b, m);
    SumSpike(n, a, Class(Identity(n), a, RowsOnClass(Identity(n), b, m)));
    SumSpike(n, b, Class(Identity(n), b, Row(m, a)));
  }

  lemma StartQuotient(base: Level, gamma: real, total: real)
    requires Valid(base) && total > 0.0
    ensures Quotient(base, StartLevel(base), gamma, total) && BaseLabels(StartLevel(base)) == Identity(|base.adj|)
  {
    hide Valid, PairSum, Excess, Affinity;
    var n := |base.adj|;
    forall a: nat, b: nat | a < n && b < n
      ensures Affinity(base)(a, b) == PairSum(n, Between(Identity(n), a, b), Affinity(base))
      ensures Excess(base, gamma, total)(a, b) == PairSum(n, Between(Identity(n), a, b), Excess(base, gamma, total))
    {
      IdentityBlock(Affinity(base), n, a, b);
      IdentityBlock(Excess(base, gamma, total), n, a, b);
    }
    IdentityConnected(base);
  }

  // A level cap that every graph of n nodes converges within.
  ghost function LevelBound(n: nat): nat { |Labellings(n, n)| * (n + 1) + n }

  lemma RemainingBounded(base: Level, gamma: real, total: real)
    requires Valid(base) && total > 0.0 && Quotient(base, StartLevel(base), gamma, total)
    ensures Remaining(base, StartLevel(base), gamma, total) <= LevelBound(|base.adj|)
  {
    hide Valid, Objective, Better, Labellings, Quotient;
    var n, p := |base.adj|, BaseLabels(StartLevel(base));
    StartShaped(base);
    BetterShrinks(Excess(base, gamma, total), p, p);
    assert |Better(Excess(base, gamma, total), p)| * (n + 1) <= |Labellings(n, n)| * (n + 1);
  }

  /** Every run of the partitioner: refinement never gets stuck, any cap of at least
      LevelBound(n) is never reached, unless the cap was reached every community is
      connected in the positive-weight graph, and modularity is at least that of singletons. */
  lemma PartitionOutcome(n: nat, edges: seq<Edge>, gamma: real, cap: nat)
    requires gamma > 0.0
    ensures var (membership, exit) := MembershipOf(n, edges, gamma, cap);
            var base := LevelOf(n, edges);
            && |membership| == n == |base.adj|
            && (exit == Edgeless <==> TotalStrength(base) == 0.0)
            && exit != NoProgress
            && (exit != OutOfLevels ==> AllConnected(base, membership))
            && (cap >= LevelBound(n) ==> exit != OutOfLevels)
            && (exit != Edgeless ==>
                  var total := TotalStrength(base);
                  total > 0.0 && Modularity(base, membership, gamma, total) >= Modularity(base, Identity(n), gamma, total))
  {
    hide Valid, Objective, AllConnected, Quotient, Levels, LevelOf, Excess, Remaining, LevelBound, Sum;
    var base := LevelOf(n, edges);
    LevelOfValid(n, edges);
    TotalNonNegative(base);
    StartShaped(base);
    IdentityConnected(base);
    var total := TotalStrength(base);
    if total != 0.0 {
      StartQuotient(base, gamma, total);
      SomeNode(base);
      LevelsOutcome(base, StartLevel(base), gamma, total, cap);
      RemainingBounded(base, gamma, total);
      var m := Excess(base, gamma, total);
      DivideOrder(Objective(m, Identity(n)), Objective(m, Levels(StartLevel(base), gamma, total, cap).0), total);
    }
  }

  lemma SomeNode(base: Level)
    requires TotalStrength(base) != 0.0
    ensures |base.adj| > 0
  {
  }

  lemma DivideOrder(x: real, y: real, total: real)
    requires x <= y && total > 0.0
    ensures x / total <= y / total
  {
  }

  lemma {:induction false} LevelSteps(s: LevelState, gamma: real, total: real, cap: nat) returns (states: seq<LevelState>)
    requires s.Shaped() && total > 0.0
    ensures 0 < |states| <= cap + 1 && states[0] == s && (forall i :: 0 <= i < |states| ==> states[i].Shaped())
    ensures forall i :: 0 <= i < |states| - 1 ==> OneLevel(states[i], gamma, total) == Go(states[i + 1])
    ensures var last, (membership, exit) := states[|states| - 1], Levels(s, gamma, total, cap);
            if |states| <= cap then OneLevel(last, gamma, total) == Leave(membership, exit)
            else membership == BaseLabels(last) && exit == OutOfLevels
    decreases cap
  {
    hide OneLevel, Valid, InertAlone;
    LevelsUnfold(s, gamma, total, cap);
    if cap == 0 || OneLevel(s, gamma, total).Leave? {
      states := [s];
    } else {
      var rest := LevelSteps(OneLevel(s, gamma, total).next, gamma, total, cap - 1);
      states := [s] + rest;
    }
  }

  /** The whole run is one level after another, from single nodes on the graph of the edges until
      a level ends it or the cap is reached; a graph without weight is left in single nodes. */
  lemma PartitionSteps(n: nat, edges: seq<Edge>, gamma: real, cap: nat) returns (states: seq<LevelState>)
    requires gamma > 0.0
    ensures var (membership, exit), base := MembershipOf(n, edges, gamma, cap), LevelOf(n, edges);
            var total := TotalStrength(base);
            && |membership| == n
            && (total == 0.0 ==> exit == Edgeless && forall v :: 0 <= v < n ==> membership[v] == v)
            && (total != 0.0 ==>
                  && total > 0.0 && 0 < |states| <= cap + 1 && states[0].graph == base
                  && |states[0].nodeOf| == |states[0].part| == n && (forall v :: 0 <= v < n ==> states[0].nodeOf[v] == states[0].part[v] == v)
                  && (forall i :: 0 <= i < |states| ==> states[i].Shaped() && |states[i].nodeOf| == n)
                  && (forall i :: 0 <= i < |states| - 1 ==> OneLevel(states[i], gamma, total) == Go(states[i + 1]))
                  && var last := states[|states| - 1];
                     if |states| <= cap then OneLevel(last, gamma, total) == Leave(membership, exit)
                     else exit == OutOfLevels && forall v :: 0 <= v < n ==> membership[v] == last.part[last.nodeOf[v]])
  {
    hide OneLevel, Valid, InertAlone, LevelOf, Levels;
    var base := LevelOf(n, edges);
    MembershipIs(n, edges, gamma, cap);
    TotalNonNegative(base);
    states := [];
    if TotalStrength(base) != 0.0 {
      states := LevelSteps(StartLevel(base), gamma, TotalStrength(base), cap);
      NodesKept(states, gamma, TotalStrength(base));
    }
  }

  lemma {:induction false} NodesKept(states: seq<LevelState>, gamma: real, total: real)
    requires total > 0.0 && |states| > 0 && (forall i :: 0 <= i < |states| ==> states[i].Shaped())
    requires forall i :: 0 <= i < |states| - 1 ==> OneLevel(states[i], gamma, total) == Go(states[i + 1])
    ensures forall i :: 0 <= i < |states| ==> |states[i].nodeOf| == |states[0].nodeOf|
  {
    hide OneLevel, Valid, InertAlone;
    var k := |states| - 1;
    if k > 0 {
      NodesKept(states[..k], gamma, total);
      NextLength(states[k - 1], gamma, total);
    }
  }

  lemma NextLength(s: LevelState, gamma: real, total: real)
    requires s.Shaped() && total > 0.0
    ensures OneLevel(s, gamma, total).Go? ==> |OneLevel(s, gamma, total).next.nodeOf| == |s.nodeOf|
  {
    hide Valid, RefineTo, InertAlone, AggregateOf, Excess, DenseLabels, FirstSeen, MoveRun;
  }

  // A result of the partitioner: canonical ranks of the membership, in 32 bits, and its modularity.
  ghost predicate ResultOf(n: nat, edges: seq<Edge>, gamma: real, cap: nat, labels: seq<nat>, quality: real, exit: Exit) {
    var base := LevelOf(n, edges);
    var (membership, exit') := MembershipOf(n, edges, gamma, cap);
    && exit == exit' && (exists ranks :: RanksOf(membership, ranks, labels))
    && quality == if TotalStrength(base) > 0.0 && |membership| == n
                  then Modularity(base, membership, gamma, TotalStrength(base)) else 0.0
  }

  /** The result depends on the edges as a collection, not on their order. */
  lemma EdgeOrderIrrelevant(n: nat, e1: seq<Edge>, e2: seq<Edge>, gamma: real, cap: nat,
                            labels1: seq<nat>, q1: real, x1: Exit, labels2: seq<nat>, q2: real, x2: Exit)
    requires multiset(e1) == multiset(e2)
    requires ResultOf(n, e1, gamma, cap, labels1, q1, x1) && ResultOf(n, e2, gamma, cap, labels2, q2, x2)
    ensures labels1 == labels2 && q1 == q2 && x1 == x2
  {
    hide LevelOf, Canonical, Levels;
    LevelOfPermuted(n, e1, e2);
    var (membership, _) := MembershipOf(n, e1, gamma, cap);
    var ranks1 :| RanksOf(membership, ranks1, labels1);
    var ranks2 :| RanksOf(membership, ranks2, labels2);
    assert SamePartition(membership, membership);
    CanonicalUnique(membership, ranks1, membership, ranks2);
  }

  /** The returned quality is the definitional modularity of the ranks on the base graph and
      no less than that of singletons, the communities they name are connected unless the
      level cap was reached, and the 32-bit labels are the ranks exactly when no rank
      exceeds them, so always for at most 2^32 nodes. */
  lemma ReturnedLabels(n: nat, edges: seq<Edge>, gamma: real, cap: nat, labels: seq<nat>, quality: real, exit: Exit)
    returns (ranks: seq<nat>)
    requires gamma > 0.0 && ResultOf(n, edges, gamma, cap, labels, quality, exit)
    ensures RanksOf(MembershipOf(n, edges, gamma, cap).0, ranks, labels)
    ensures |labels| == |ranks| == n == |LevelOf(n, edges).adj|
    ensures exit != OutOfLevels ==> AllConnected(LevelOf(n, edges), ranks)
    ensures exit != Edgeless ==> var total := TotalStrength(LevelOf(n, edges));
              total > 0.0 && quality == Modularity(LevelOf(n, edges), ranks, gamma, total)
              && quality >= Modularity(LevelOf(n, edges), Identity(n), gamma, total)
    ensures labels == ranks <==> forall v :: 0 <= v < |ranks| ==> ranks[v] <= RANK_MAX
    ensures n <= RANK_MAX + 1 ==> labels == ranks
  {
    hide LevelOf, Linked, MembershipOf, Excess, Objective, LevelBound;
    PartitionOutcome(n, edges, gamma, cap);
    var base := LevelOf(n, edges);
    var (membership, _) := MembershipOf(n, edges, gamma, cap);
    ranks :| RanksOf(membership, ranks, labels);
    RanksBelowCount(ranks);
    SaturationExact(ranks, labels);
    if exit != Edgeless {
      ObjectiveOfPartition(Excess(base, gamma, TotalStrength(base)), membership, ranks);
    }
    forall x: nat, y: nat | x < n && y < n && ranks[x] == ranks[y] && exit != OutOfLevels ensures Linked(base, ranks, x, y) {
      LinkedPartition(base, membership, ranks, x, y);
    }
  }

  lemma RanksBelowCount(ranks: seq<nat>)
    requires Canonical(ranks)
    ensures forall v :: 0 <= v < |ranks| ==> ranks[v] < |ranks|
  {
    forall v | 0 <= v < |ranks| ensures ranks[v] < |ranks| {
      IdentityCard(ranks[v] + 1);
      DistinctEntries(ranks);
      forall d: nat | d in Elements(Identity(ranks[v] + 1)) ensures d in Elements(ranks) {
        assert d < ranks[v] || d == ranks[v];
      }
      SubsetCard(Elements(Identity(ranks[v] + 1)), Elements(ranks));
    }
  }

  // Every cluster takes over the community of its members.
  method CarryOver(part: seq<nat>, refined: seq<nat>, clusters: nat) returns (next: seq<nat>)
    requires |part| == |refined| && forall v :: 0 <= v < |refined| ==> refined[v] < clusters
    requires forall a: nat :: a < clusters ==> a in refined
    requires forall x, y :: 0 <= x < |part| && 0 <= y < |part| && refined[x] == refined[y] ==> part[x] == part[y]
    ensures next == NextPart(part, refined, clusters)
  {
    var nextPart := new nat[clusters](_ => 0);
    for v := 0 to |part|
      invariant forall x :: 0 <= x < v ==> nextPart[refined[x]] == part[x]
    {
      nextPart[refined[v]] := part[v];
    }
    next := nextPart[..];
    forall a: nat | a < clusters ensures next[a] == NextPart(part, refined, clusters)[a] {
      assert a in refined;
      IndexOfFirst(refined, a);
    }
  }

  // One pass of the level loop.
  method RunLevel(graph: Level, nodeOf: seq<nat>, part: seq<nat>, gamma: real, total: real) returns (step: LevelStep)
    requires total > 0.0 && LevelState(graph, nodeOf, part).Shaped()
    ensures step == OneLevel(LevelState(graph, nodeOf, part), gamma, total)
  {
    hide Valid, Excess, Objective, Settled, RefineTo, AggregateOf, NextPart, AllConnected, InertAlone, MoveRun, FirstSeen, DenseLabels, MoveOk, MoveStart;
    ghost var s := LevelState(graph, nodeOf, part);
    MovedFacts(s, gamma, total);
    var labels := new nat[|part|](v requires 0 <= v < |part| => part[v]);
    assert labels[..] == part;
    var moved := MoveNodes(graph, labels, gamma, total);
    var communities := Dense(labels);
    var dense := labels[..];
    if communities == graph.Len() {
      return Leave(Compose(nodeOf, dense), Converged);
    }
    ClusterFacts(graph, gamma, total, dense);
    var refined := Refine(graph, dense, gamma, total);
    var clusters := Dense(refined);
    if !moved && clusters == graph.Len() {
      return Leave(Compose(nodeOf, dense), NoProgress);
    }
    var next := CarryOver(dense, refined[..], clusters);
    var graph' := Aggregate(graph, refined[..], clusters);
    return Go(LevelState(graph', Compose(nodeOf, refined[..]), next));
  }

  lemma LevelsUnfold(s: LevelState, gamma: real, total: real, cap: nat)
    requires s.Shaped() && total > 0.0
    ensures cap == 0 ==> Levels(s, gamma, total, cap) == (BaseLabels(s), OutOfLevels)
    ensures cap > 0 && OneLevel(s, gamma, total).Leave? ==>
              Levels(s, gamma, total, cap) == (OneLevel(s, gamma, total).membership, OneLevel(s, gamma, total).exit)
    ensures cap > 0 && OneLevel(s, gamma, total).Go? ==>
              OneLevel(s, gamma, total).next.Shaped()
              && Levels(s, gamma, total, cap) == Levels(OneLevel(s, gamma, total).next, gamma, total, cap - 1)
  {
    hide Valid, InertAlone, OneLevel;
    if OneLevel(s, gamma, total).Go? { NextShaped(s, gamma, total); }
  }

  lemma MembershipIs(n: nat, edges: seq<Edge>, gamma: real, cap: nat)
    requires gamma > 0.0
    ensures var base := LevelOf(n, edges);
            && |MembershipOf(n, edges, gamma, cap).0| == n == |base.adj| && Valid(base) && StartLevel(base).Shaped()
            && (forall v :: 0 <= v < |base.inner| ==> base.inner[v] == 0.0)
            && MembershipOf(n, edges, gamma, cap)
               == if TotalStrength(base) == 0.0 then (Identity(n), Edgeless)
                  else (TotalNonNegative(base); Levels(StartLevel(base), gamma, TotalStrength(base), cap))
  {
    hide Valid, Levels;
    LevelOfValid(n, edges);
    StartShaped(LevelOf(n, edges));
    PartitionOutcome(n, edges, gamma, cap);
  }

  method SumStrengths(g: Level) returns (total: real)
    requires |g.strength| == |g.adj|
    ensures total == TotalStrength(g)
  {
    total := 0.0;
    for v := 0 to |g.strength|
      invariant total == Sum(v, Strength(g))
    {
      total := total + g.strength[v];
    }
  }

  /** Partitions n nodes into communities: canonical 32-bit labels, the partition's
      modularity, and how the level loop was left. */
  method Partition(n: nat, edges: seq<Edge>, gamma: real, maxLevels: nat) returns (labels: seq<nat>, quality: real, exit: Exit)
    requires gamma > 0.0
    ensures ResultOf(n, edges, gamma, maxLevels, labels, quality, exit)
  {
    hide Valid, RanksOf, Levels, Modularity, LevelOf, Quotient, OneLevel;
    var base := NewLevel(n, edges);
    ValidShape(base);
    MembershipIs(n, edges, gamma, maxLevels);
    var total := SumStrengths(base);
    TotalNonNegative(base);
    if total == 0.0 {
      labels := Renumber(Identity(n));
      return labels, 0.0, Edgeless;
    }
    var graph := NewLevel(n, edges);
    var nodeOf: seq<nat> := Identity(n);
    var part: seq<nat> := Identity(n);
    StartShaped(base);
    ghost var start := StartLevel(base);
    exit := OutOfLevels;
    var membership: seq<nat> := [];
    var level := 0;
    while level < maxLevels
      invariant level <= maxLevels && LevelState(graph, nodeOf, part).Shaped() && exit == OutOfLevels
      invariant Levels(LevelState(graph, nodeOf, part), gamma, total, maxLevels - level) == Levels(start, gamma, total, maxLevels)
    {
      ghost var s := LevelState(graph, nodeOf, part);
      LevelsUnfold(s, gamma, total, maxLevels - level);
      var step := RunLevel(graph, nodeOf, part, gamma, total);
      match step
      case Leave(m, e) =>
        membership, exit := m, e;
        assert (membership, exit) == Levels(start, gamma, total, maxLevels);
        break;
      case Go(next) =>
        graph, nodeOf, part := next.graph, next.nodeOf, next.part;
        level := level + 1;
    }
    if level == maxLevels {
      LevelsUnfold(LevelState(graph, nodeOf, part), gamma, total, 0);
      membership := Compose(nodeOf, part);
    }
    assert (membership, exit) == Levels(start, gamma, total, maxLevels);
    quality := ModularityOf(base, membership, gamma, total);
    labels := Renumber(membership);
  }
}
