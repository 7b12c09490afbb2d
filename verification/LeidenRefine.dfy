// Splitting each community into connected clusters, grown from single nodes. Specification by
// definitional cuts and strengths, the guarantees of a whole pass, and the array code with
// incremental tables.
module LeidenRefine {
  import opened RealSums
  import opened LeidenLevel
  import opened LeidenMove
  import opened LeidenPaths

  datatype Option<T> = None | Some(value: T)

  // Pairs leaving cluster c inside its community.
  ghost function Leaving(part: seq<nat>, refined: seq<nat>, c: nat): Relation {
    (x: nat, y: nat) => x < |part| == |refined| && y < |part| && refined[x] == c && refined[y] != c && part[x] == part[y]
  }

  // The cut between cluster c and the other members of its community.
  ghost function External(g: Level, part: seq<nat>, refined: seq<nat>, c: nat): real {
    PairSum(|part|, Leaving(part, refined, c), Weights(g))
  }

  ghost function ClusterStrength(g: Level, refined: seq<nat>, c: nat): real { ClassSum(refined, c, Strength(g)) }

  predicate Connected(inside: real, k: real, community: real, gamma: real, total: real)
    requires total > 0.0
  {
    inside >= Expected(gamma, total, k, community - k)
  }

  // Cluster c is well connected to the rest of the community of v.
  ghost predicate WellConnected(g: Level, gamma: real, total: real, part: seq<nat>, refined: seq<nat>, v: nat, c: nat)
    requires total > 0.0 && v < |part|
  {
    Connected(External(g, part, refined, c), ClusterStrength(g, refined, c), ClassSum(part, part[v], Strength(g)), gamma, total)
  }

  ghost predicate TouchesInside(g: Level, part: seq<nat>, refined: seq<nat>, v: nat, c: nat)
    requires v < |part| == |refined|
  {
    exists u: nat :: u < |refined| && refined[u] == c && part[u] == part[v] && Adjacent(g, v, u)
  }

  ghost predicate Eligible(g: Level, gamma: real, total: real, part: seq<nat>, refined: seq<nat>, v: nat, c: nat)
    requires total > 0.0 && v < |part| == |refined|
  {
    && TouchesInside(g, part, refined, v, c) && c != refined[v]
    && WellConnected(g, gamma, total, part, refined, v, c)
    && LinkGain(Excess(g, gamma, total), refined, v, c) >= 0.0
  }

  // The first eligible cluster below c of maximal gain.
  ghost function BestCluster(g: Level, gamma: real, total: real, part: seq<nat>, refined: seq<nat>, v: nat, c: nat): Option<nat>
    requires total > 0.0 && v < |part| == |refined|
  {
    if c == 0 then None else
      var best := BestCluster(g, gamma, total, part, refined, v, c - 1);
      var m := Excess(g, gamma, total);
      if Eligible(g, gamma, total, part, refined, v, c - 1)
         && (best.None? || LinkGain(m, refined, v, c - 1) > LinkGain(m, refined, v, best.value))
      then Some(c - 1) else best
  }

  // Still the only member of the cluster it started as.
  ghost predicate Singleton(refined: seq<nat>, v: nat)
    requires v < |refined|
  {
    refined[v] == v && Alone(refined, v)
  }

  ghost function RefineStep(g: Level, gamma: real, total: real, part: seq<nat>, refined: seq<nat>, v: nat): (r: seq<nat>)
    requires total > 0.0 && v < |part| == |refined|
    ensures |r| == |refined|
  {
    if Singleton(refined, v) && WellConnected(g, gamma, total, part, refined, v, v) then
      match BestCluster(g, gamma, total, part, refined, v, |part|)
      case Some(c) => refined[v := c]
      case None => refined
    else refined
  }

  // The clusters after visiting nodes 0..k.
  ghost function RefineTo(g: Level, gamma: real, total: real, part: seq<nat>, k: nat): (r: seq<nat>)
    requires total > 0.0 && k <= |part|
    ensures |r| == |part|
  {
    if k == 0 then Identity(|part|)
    else RefineStep(g, gamma, total, part, RefineTo(g, gamma, total, part, k - 1), k - 1)
  }

  // ----- what every visit keeps -----

  // Every cluster is named after a member, stays in one community and is connected.
  ghost predicate RefineOk(g: Level, part: seq<nat>, refined: seq<nat>) {
    && Labelling(refined, |g.adj|) && |part| == |g.adj|
    && (forall x :: 0 <= x < |refined| ==> refined[refined[x]] == refined[x] && part[refined[x]] == part[x])
    && AllConnected(g, refined)
  }

  lemma {:induction false} BestClusterEligible(g: Level, gamma: real, total: real, part: seq<nat>, refined: seq<nat>, v: nat, c: nat)
    requires total > 0.0 && v < |part| == |refined|
    ensures var best := BestCluster(g, gamma, total, part, refined, v, c);
            best.Some? ==> best.value < c && Eligible(g, gamma, total, part, refined, v, best.value)
    ensures forall d: nat :: d < c && Eligible(g, gamma, total, part, refined, v, d) ==>
              var best := BestCluster(g, gamma, total, part, refined, v, c);
              best.Some? && LinkGain(Excess(g, gamma, total), refined, v, best.value) >= LinkGain(Excess(g, gamma, total), refined, v, d)
              && (d < best.value ==> LinkGain(Excess(g, gamma, total), refined, v, best.value) > LinkGain(Excess(g, gamma, total), refined, v, d))
  {
    hide LinkGain, WellConnected, TouchesInside, Excess;
    if c == 0 {
    } else {
      BestClusterEligible(g, gamma, total, part, refined, v, c - 1);
    }
  }

  // The cluster the visit to v leaves it in: its own unless it is still alone, well connected and
  // has somewhere to go, and then the eligible cluster of greatest gain, the smallest among equals.
  ghost predicate VisitExact(g: Level, gamma: real, total: real, part: seq<nat>, refined: seq<nat>, next: seq<nat>, v: nat)
    requires total > 0.0 && v < |part| == |refined| == |next|
  {
    var m := Excess(g, gamma, total);
    var merges := refined[v] == v && Alone(refined, v) && WellConnected(g, gamma, total, part, refined, v, v)
      && exists c: nat :: c < |part| && Eligible(g, gamma, total, part, refined, v, c);
    && (forall x :: 0 <= x < |refined| && x != v ==> next[x] == refined[x])
    && (next[v] != refined[v] <==> merges)
    && (merges ==> next[v] < |part| && Eligible(g, gamma, total, part, refined, v, next[v]))
    && (forall d: nat :: merges && d < |part| && Eligible(g, gamma, total, part, refined, v, d) ==>
          (LinkGain(m, refined, v, d) <= LinkGain(m, refined, v, next[v])
           && (LinkGain(m, refined, v, d) == LinkGain(m, refined, v, next[v]) ==> next[v] <= d)))
  }

  lemma RefineStepExact(g: Level, gamma: real, total: real, part: seq<nat>, refined: seq<nat>, v: nat)
    requires total > 0.0 && v < |part| == |refined|
    ensures VisitExact(g, gamma, total, part, refined, RefineStep(g, gamma, total, part, refined, v), v)
  {
    hide LinkGain, WellConnected, TouchesInside, Excess;
    BestClusterEligible(g, gamma, total, part, refined, v, |part|);
  }

  /** A pass starts from single nodes and visits every node once, in order; no visit is skipped
      for what earlier ones did, other than through the clusters they left. */
  lemma PassExact(g: Level, gamma: real, total: real, part: seq<nat>)
    requires total > 0.0
    ensures forall v: nat :: v < |part| ==> RefineTo(g, gamma, total, part, 0)[v] == v
    ensures forall k: nat :: k < |part| ==>
              VisitExact(g, gamma, total, part, RefineTo(g, gamma, total, part, k), RefineTo(g, gamma, total, part, k + 1), k)
  {
    hide VisitExact, RefineStep;
    forall k: nat | k < |part|
      ensures VisitExact(g, gamma, total, part, RefineTo(g, gamma, total, part, k), RefineTo(g, gamma, total, part, k + 1), k)
    {
      RefineStepExact(g, gamma, total, part, RefineTo(g, gamma, total, part, k), k);
    }
  }

  // Being well connected, in numbers: the cut of a cluster inside the community of v against the
  // expected one.
  lemma WellConnectedInNumbers(g: Level, gamma: real, total: real, part: seq<nat>, refined: seq<nat>, v: nat, c: nat, cut: Matrix)
    requires total > 0.0 && v < |part| == |refined| == |g.adj|
    requires forall x: nat, y: nat :: x < |part| && y < |part| ==>
               cut(x, y) == if refined[x] == c && refined[y] != c && part[x] == part[y] then Weight(g, x, y) else 0.0
    ensures var s := ClassSum(refined, c, Strength(g));
            WellConnected(g, gamma, total, part, refined, v, c) <==>
              Total(|part|, |part|, cut) >= gamma * s * (ClassSum(part, part[v], Strength(g)) - s) / total
  {
    hide Sum;
    TotalExt(|part|, |part|, cut, Masked(Leaving(part, refined, c), Weights(g)));
  }

  // Being eligible, in numbers: also the weight from v to the cluster against the expected one.
  lemma EligibleInNumbers(g: Level, gamma: real, total: real, part: seq<nat>, refined: seq<nat>, v: nat, c: nat, cut: Matrix, link: Vector)
    requires Valid(g) && total > 0.0 && v < |part| == |refined| == |g.adj| && Singleton(refined, v) && c != v
    requires forall x: nat, y: nat :: x < |part| && y < |part| ==>
               cut(x, y) == if refined[x] == c && refined[y] != c && part[x] == part[y] then Weight(g, x, y) else 0.0
    requires forall u: nat :: u < |part| ==> link(u) == if refined[u] == c then Weight(g, v, u) else 0.0
    ensures var n, s, k := |part|, ClassSum(refined, c, Strength(g)), Strength(g)(v);
            Eligible(g, gamma, total, part, refined, v, c) <==>
              && (exists u: nat :: u < n && refined[u] == c && part[u] == part[v] && u in g.adj[v])
              && Total(n, n, cut) >= gamma * s * (ClassSum(part, part[v], Strength(g)) - s) / total
              && Sum(n, link) - gamma * k * s / total >= 0.0
  {
    hide Valid, Sum, WellConnected;
    var n, on := |part|, Others(refined, v, c);
    WellConnectedInNumbers(g, gamma, total, part, refined, v, c, cut);
    ExcessSum(g, gamma, total, v, on);
    SumExt(n, Restrict(on, Row(Affinity(g), v)), link);
    SumExt(n, Restrict(on, Strength(g)), Class(refined, c, Strength(g)));
  }

  // A merge never lowers the objective of the clusters, so a pass never ends below single nodes.
  lemma StepRaises(g: Level, gamma: real, total: real, part: seq<nat>, refined: seq<nat>, v: nat)
    requires Valid(g) && total > 0.0 && v < |part| == |refined| == |g.adj|
    ensures Objective(Excess(g, gamma, total), RefineStep(g, gamma, total, part, refined, v)) >= Objective(Excess(g, gamma, total), refined)
  {
    hide Valid, WellConnected, TouchesInside, Excess, Objective, Sum;
    var m := Excess(g, gamma, total);
    var c := BestCluster(g, gamma, total, part, refined, v, |part|);
    BestClusterEligible(g, gamma, total, part, refined, v, |part|);
    ExcessSymmetric(g, gamma, total);
    if RefineStep(g, gamma, total, part, refined, v) != refined {
      MoveChangesObjective(m, refined, v, c.value);
      SumZero(|refined|, Restrict(Others(refined, v, refined[v]), Row(m, v)));
    }
  }

  lemma {:induction false} RefinementNeverLowers(g: Level, gamma: real, total: real, part: seq<nat>, k: nat)
    requires Valid(g) && total > 0.0 && |part| == |g.adj| && k <= |part|
    ensures Objective(Excess(g, gamma, total), RefineTo(g, gamma, total, part, k)) >= Objective(Excess(g, gamma, total), Identity(|part|))
  {
    hide Valid, Excess, Objective, RefineStep;
    if k == 0 {
    } else {
      RefinementNeverLowers(g, gamma, total, part, k - 1);
      StepRaises(g, gamma, total, part, RefineTo(g, gamma, total, part, k - 1), k - 1);
    }
  }

  // What a merging visit does: v, so far on its own, joins the cluster of a neighbour.
  lemma StepMerges(g: Level, gamma: real, total: real, part: seq<nat>, refined: seq<nat>, v: nat) returns (u: nat)
    requires total > 0.0 && v < |part| == |refined|
    requires RefineStep(g, gamma, total, part, refined, v) != refined
    ensures u < |refined| && Adjacent(g, v, u) && part[u] == part[v] && refined[u] != v && Singleton(refined, v)
    ensures RefineStep(g, gamma, total, part, refined, v) == refined[v := refined[u]]
  {
    hide LinkGain, WellConnected, Excess;
    BestClusterEligible(g, gamma, total, part, refined, v, |part|);
    var c := BestCluster(g, gamma, total, part, refined, v, |part|).value;
    u :| u < |refined| && refined[u] == c && part[u] == part[v] && Adjacent(g, v, u);
  }

  lemma StepKeepsClusters(g: Level, gamma: real, total: real, part: seq<nat>, refined: seq<nat>, v: nat)
    requires total > 0.0 && Valid(g) && RefineOk(g, part, refined) && v < |part|
    ensures RefineOk(g, part, RefineStep(g, gamma, total, part, refined, v))
  {
    hide WellConnected, Excess, BestCluster, Valid, AllConnected;
    if RefineStep(g, gamma, total, part, refined, v) != refined {
      var u := StepMerges(g, gamma, total, part, refined, v);
      AbsorbKeepsConnected(g, refined, v, u);
      assert forall x :: 0 <= x < |refined| && x != v ==> refined[x] != v;
    }
  }

  /** After a whole pass every cluster lies in one community, is named after one of its
      members and is connected by positive-weight edges. */
  lemma {:induction false} RefinementConnected(g: Level, gamma: real, total: real, part: seq<nat>, k: nat)
    requires total > 0.0 && Valid(g) && |part| == |g.adj| && k <= |part|
    ensures RefineOk(g, part, RefineTo(g, gamma, total, part, k))
  {
    if k == 0 {
      IdentityConnected(g);
    } else {
      RefinementConnected(g, gamma, total, part, k - 1);
      StepKeepsClusters(g, gamma, total, part, RefineTo(g, gamma, total, part, k - 1), k - 1);
    }
  }

  // ----- progress -----

  // Other members of the community of v.
  ghost function Peers(part: seq<nat>, v: nat): nat -> bool
    requires v < |part|
  {
    Others(part, v, part[v])
  }

  lemma ExternalOfSingleton(g: Level, part: seq<nat>, refined: seq<nat>, v: nat)
    requires Valid(g) && |part| == |refined| == |g.adj| && v < |part| && Singleton(refined, v)
    ensures External(g, part, refined, v) == Sum(|part|, Restrict(Peers(part, v), Row(Weights(g), v)))
    ensures ClusterStrength(g, refined, v) == Strength(g)(v)
  {
    var n, f := |part|, Masked(Leaving(part, refined, v), Weights(g));
    forall x: nat | x < n && x != v ensures RowTotals(n, f)(x) == 0.0 {
      SumZero(n, Row(f, x));
    }
    SumSpike(n, v, RowTotals(n, f));
    assert v !in g.adj[v];
    SumExt(n, Row(f, v), Restrict(Peers(part, v), Row(Weights(g), v)));
    SumSpike(n, v, Class(refined, v, Strength(g)));
  }

  // The own-community gain of v is non-negative exactly when v alone is well connected.
  lemma SettledIsConnected(g: Level, gamma: real, total: real, part: seq<nat>, refined: seq<nat>, v: nat)
    requires Valid(g) && total > 0.0 && |part| == |refined| == |g.adj| && v < |part| && Singleton(refined, v)
    ensures WellConnected(g, gamma, total, part, refined, v, v) <==> LinkGain(Excess(g, gamma, total), part, v, part[v]) >= 0.0
  {
    hide Valid;
    var n, k, on := |part|, Strength(g)(v), Peers(part, v);
    ExternalOfSingleton(g, part, refined, v);
    ExcessSum(g, gamma, total, v, on);
    SumExt(n, Restrict(on, Row(Weights(g), v)), Restrict(on, Row(Affinity(g), v)));
    SumChange(n, v, Class(part, part[v], Strength(g)), Restrict(on, Strength(g)));
    var s := ClassSum(part, part[v], Strength(g));
    assert Sum(n, Restrict(on, Strength(g))) == s - k;
    assert LinkGain(Excess(g, gamma, total), part, v, part[v]) == External(g, part, refined, v) - Expected(gamma, total, k, s - k);
  }

  lemma StrengthNonNegative(g: Level, v: nat)
    requires Valid(g) && v < |g.adj|
    ensures Strength(g)(v) >= 0.0
  {
    forall x: nat | x < |g.adj| ensures Row(Weights(g), v)(x) >= 0.0 { AdjacentMutual(g, v, x); }
    SumNonNegative(|g.adj|, Row(Weights(g), v));
  }

  lemma ExpectedPositive(gamma: real, total: real, k: real, s: real)
    requires gamma > 0.0 && total > 0.0 && k > 0.0 && s > 0.0
    ensures Expected(gamma, total, k, s) > 0.0
  {
    assert gamma * k > 0.0;
    assert gamma * k * s > 0.0;
  }

  // A settled node in a shared community has a neighbour there it gains from joining.
  lemma GainfulPeer(g: Level, gamma: real, total: real, part: seq<nat>, v: nat) returns (u: nat)
    requires Valid(g) && gamma > 0.0 && total > 0.0 && |part| == |g.adj| && InertAlone(g, part) && v < |part|
    requires !Alone(part, v) && LinkGain(Excess(g, gamma, total), part, v, part[v]) >= 0.0
    ensures u < |part| && u != v && part[u] == part[v] && Adjacent(g, v, u) && Excess(g, gamma, total)(v, u) >= 0.0
  {
    hide Valid;
    var on := Peers(part, v);
    var x :| 0 <= x < |part| && x != v && part[x] == part[v];
    assert on(x);
    u := SumSomeNonNegative(|part|, Restrict(on, Row(Excess(g, gamma, total), v)), on);
    assert !Alone(part, u);
    StrengthNonNegative(g, v);
    StrengthNonNegative(g, u);
    assert Strength(g)(v) > 0.0 && Strength(g)(u) > 0.0;
    ExpectedPositive(gamma, total, Strength(g)(v), Strength(g)(u));
    assert Affinity(g)(v, u) == Weight(g, v, u);
    assert Excess(g, gamma, total)(v, u) == Weight(g, v, u) - Expected(gamma, total, Strength(g)(v), Strength(g)(u));
  }

  lemma GainOfSingleton(m: Matrix, refined: seq<nat>, v: nat, u: nat)
    requires v < |refined| && u < |refined| && u != v && Singleton(refined, u)
    ensures LinkGain(m, refined, v, u) == m(v, u)
  {
    SumSpike(|refined|, u, Restrict(Others(refined, v, u), Row(m, v)));
  }

  // A settled node of a shared community merges if it is visited before any merge.
  lemma FirstVisitMerges(g: Level, gamma: real, total: real, part: seq<nat>, v: nat)
    requires Valid(g) && gamma > 0.0 && total > 0.0 && |part| == |g.adj| && InertAlone(g, part) && v < |part|
    requires !Alone(part, v)
    requires forall x: nat :: x < |part| ==> Settled(g, Excess(g, gamma, total), part, x)
    ensures RefineStep(g, gamma, total, part, Identity(|part|), v)[v] != v
  {
    hide Valid, LinkGain, Excess, WellConnected;
    var r, n := Identity(|part|), |part|;
    assert Settled(g, Excess(g, gamma, total), part, v);
    var u := GainfulPeer(g, gamma, total, part, v);
    assert !Alone(part, u) && Settled(g, Excess(g, gamma, total), part, u);
    SettledIsConnected(g, gamma, total, part, r, v);
    SettledIsConnected(g, gamma, total, part, r, u);
    assert WellConnected(g, gamma, total, part, r, v, u) by { SameCommunityTest(g, gamma, total, part, r, v, u); }
    GainOfSingleton(Excess(g, gamma, total), r, v, u);
    assert TouchesInside(g, part, r, v, u);
    assert Eligible(g, gamma, total, part, r, v, u);
    BestClusterEligible(g, gamma, total, part, r, v, n);
  }

  lemma SameCommunityTest(g: Level, gamma: real, total: real, part: seq<nat>, refined: seq<nat>, v: nat, u: nat)
    requires total > 0.0 && v < |part| && u < |part| && part[v] == part[u]
    ensures WellConnected(g, gamma, total, part, refined, v, u) == WellConnected(g, gamma, total, part, refined, u, u)
  {
  }

  lemma {:induction false} MergesLast(g: Level, gamma: real, total: real, part: seq<nat>, x: nat, j: nat, k: nat)
    requires total > 0.0 && x < |part| && j <= k <= |part|
    requires RefineTo(g, gamma, total, part, j)[x] != x
    ensures RefineTo(g, gamma, total, part, k)[x] != x
    decreases k - j
  {
    hide LinkGain, WellConnected, BestCluster;
    if j < k { MergesLast(g, gamma, total, part, x, j + 1, k); }
  }

  // Until the first merge the clusters are the nodes themselves.
  lemma {:induction false} NoMergeYet(g: Level, gamma: real, total: real, part: seq<nat>, j: nat, k: nat)
    requires total > 0.0 && j <= k <= |part| && RefineTo(g, gamma, total, part, k) == Identity(|part|)
    ensures RefineTo(g, gamma, total, part, j) == Identity(|part|)
  {
    hide RefineTo;
    var r := RefineTo(g, gamma, total, part, j);
    forall x: nat | x < |part| ensures r[x] == x {
      if r[x] != x { MergesLast(g, gamma, total, part, x, j, k); assert false; }
    }
  }

  /** If local moving left every node settled and some community has two members, then
      refinement merges at least two nodes. */
  lemma RefinementProgress(g: Level, gamma: real, total: real, part: seq<nat>)
    requires Valid(g) && gamma > 0.0 && total > 0.0 && |part| == |g.adj| && InertAlone(g, part)
    requires exists v: nat :: v < |part| && !Alone(part, v)
    requires forall x: nat :: x < |part| ==> Settled(g, Excess(g, gamma, total), part, x)
    ensures exists x: nat :: x < |part| && !Alone(RefineTo(g, gamma, total, part, |part|), x)
  {
    hide Valid, Excess, Settled, InertAlone;
    var n := |part|;
    var r := RefineTo(g, gamma, total, part, n);
    var v: nat :| v < n && !Alone(part, v);
    if r == Identity(n) {
      NoMergeYet(g, gamma, total, part, v, n);
      NoMergeYet(g, gamma, total, part, v + 1, n);
      FirstVisitMerges(g, gamma, total, part, v);
      assert false;
    }
    var x: nat :| x < n && r[x] != x;
    RefinementConnected(g, gamma, total, part, n);
    assert !Alone(r, x) by { assert r[r[x]] == r[x]; }
  }

  // ----- incremental cuts -----

  // Kept neighbours: members of the community of v.
  function SameCommunity(part: seq<nat>, v: nat): nat -> bool
    requires v < |part|
  {
    (u: nat) => u < |part| && part[u] == part[v]
  }

  // Weight from v to cluster c inside the community.
  ghost function LinkWeight(g: Level, part: seq<nat>, refined: seq<nat>, v: nat, c: nat): real
    requires v < |part|
  {
    Sum(|refined|, Restrict(Kept(refined, SameCommunity(part, v), c), Row(Weights(g), v)))
  }

  lemma LinkWeightIs(g: Level, part: seq<nat>, refined: seq<nat>, v: nat, c: nat)
    requires v < |part|
    ensures LinkWeight(g, part, refined, v, c) == Sum(|refined|, Restrict(Kept(refined, SameCommunity(part, v), c), Row(Weights(g), v)))
  {
  }

  // Row x of the cut of cluster c, before and after v joins c.
  lemma CutRows(g: Level, part: seq<nat>, refined: seq<nat>, v: nat, c: nat, x: nat)
    requires Valid(g) && RefineOk(g, part, refined) && v < |part| && x < |part|
    requires Singleton(refined, v) && c < |part| && c != v && refined[c] == c && part[c] == part[v]
    ensures var n, q, link := |part|, refined[v := c], Restrict(Kept(refined, SameCommunity(part, v), c), Row(Weights(g), v));
            var before, after := Masked(Leaving(part, refined, c), Weights(g)), Masked(Leaving(part, q, c), Weights(g));
            RowTotals(n, after)(x) == RowTotals(n, before)(x)
              + (if x == v then External(g, part, refined, v) - LinkWeight(g, part, refined, v, c) else -link(x))
  {
    hide AllConnected, External, Valid, LinkWeight;
    var n, q, W := |part|, refined[v := c], Weights(g);
    var link := Restrict(Kept(refined, SameCommunity(part, v), c), Row(W, v));
    var before, after := Masked(Leaving(part, refined, c), W), Masked(Leaving(part, q, c), W);
    AdjacentMutual(g, v, v);
    assert Weight(g, v, v) == 0.0 && LinkWeight(g, part, refined, v, c) == Sum(n, link) by { LinkWeightIs(g, part, refined, v, c); }
    if x == v {
      ExternalOfSingleton(g, part, refined, v);
      SumZero(n, Row(before, v));
      SumAdd(n, Row(after, v), link, Restrict(Peers(part, v), Row(W, v)));
    } else {
      AffinitySymmetric(g, x, v);
      assert part[refined[x]] == part[x];
      SumChange(n, v, Row(before, x), Row(after, x));
    }
  }

  /** When v joins cluster c the cut of c grows by the cut of v and shrinks by twice their
      link weight, its strength grows by that of v, and other clusters are unaffected. */
  lemma JoinChangesCut(g: Level, part: seq<nat>, refined: seq<nat>, v: nat, c: nat)
    requires Valid(g) && RefineOk(g, part, refined) && v < |part|
    requires Singleton(refined, v) && c < |part| && c != v && refined[c] == c && part[c] == part[v]
    ensures External(g, part, refined[v := c], c)
         == External(g, part, refined, c) + (External(g, part, refined, v) - 2.0 * LinkWeight(g, part, refined, v, c))
    ensures ClusterStrength(g, refined[v := c], c) == ClusterStrength(g, refined, c) + Strength(g)(v)
    ensures forall d: nat :: d != c && d != v ==>
              && External(g, part, refined[v := c], d) == External(g, part, refined, d)
              && ClusterStrength(g, refined[v := c], d) == ClusterStrength(g, refined, d)
  {
    hide AllConnected, Valid;
    var n, q, W := |part|, refined[v := c], Weights(g);
    var link := Restrict(Kept(refined, SameCommunity(part, v), c), Row(W, v));
    var before, after := Masked(Leaving(part, refined, c), W), Masked(Leaving(part, q, c), W);
    var rise := External(g, part, refined, v) - LinkWeight(g, part, refined, v, c);
    var change: Vector := (x: nat) => if x == v then rise else Scaled(-1.0, link)(x);
    forall x: nat | x < n ensures RowTotals(n, after)(x) == RowTotals(n, before)(x) + change(x) {
      CutRows(g, part, refined, v, c, x);
      assert Scaled(-1.0, link)(x) == -link(x);
    }
    SumAdd(n, RowTotals(n, before), change, RowTotals(n, after));
    SumChange(n, v, Scaled(-1.0, link), change);
    SumScale(n, -1.0, link, Scaled(-1.0, link));
    assert link(v) == 0.0;
    ClassSumUpdate(refined, v, c, c, Strength(g));
    forall d: nat | d != c && d != v
      ensures External(g, part, q, d) == External(g, part, refined, d)
      ensures ClusterStrength(g, q, d) == ClusterStrength(g, refined, d)
    {
      PairSumExt(n, Leaving(part, q, d), W, Leaving(part, refined, d), W);
      ClassSumUpdate(refined, v, c, d, Strength(g));
    }
  }

  // ----- the array code -----

  // The tables agree with the clusters: singleton flags for all nodes, strength and cut
  // for every cluster under its own name.
  ghost predicate CutTables(g: Level, part: seq<nat>, refined: seq<nat>, singleton: seq<bool>, weight: seq<real>, external: seq<real>) {
    && |singleton| == |weight| == |external| == |refined| == |part|
    && (forall v: nat :: v < |part| ==> (singleton[v] <==> Singleton(refined, v)))
    && (forall c: nat :: c < |part| && refined[c] == c ==>
          weight[c] == ClusterStrength(g, refined, c) && external[c] == External(g, part, refined, c))
  }

  lemma CutTablesStart(g: Level, part: seq<nat>, external: seq<real>)
    requires Valid(g) && |part| == |external| == |g.adj|
    requires forall v: nat :: v < |part| ==> external[v] == Sum(|part|, Restrict(Peers(part, v), Row(Weights(g), v)))
    ensures CutTables(g, part, Identity(|part|), seq(|part|, v => true), g.strength, external)
  {
    hide Valid, External, ClusterStrength, Sum;
    ValidShape(g);
    var r := Identity(|part|);
    forall c: nat | c < |part|
      ensures g.strength[c] == ClusterStrength(g, r, c) && external[c] == External(g, part, r, c)
    {
      ExternalOfSingleton(g, part, r, c);
    }
  }

  lemma CutTablesJoin(g: Level, part: seq<nat>, refined: seq<nat>, singleton: seq<bool>, weight: seq<real>, external: seq<real>, v: nat, c: nat)
    requires Valid(g) && RefineOk(g, part, refined) && CutTables(g, part, refined, singleton, weight, external)
    requires v < |part| && Singleton(refined, v) && c < |part| && c != v && refined[c] == c && part[c] == part[v]
    ensures CutTables(g, part, refined[v := c], singleton[v := false][c := false], weight[c := weight[c] + Strength(g)(v)],
                      external[c := external[c] + (external[v] - 2.0 * LinkWeight(g, part, refined, v, c))])
  {
    hide Valid, External, ClusterStrength, Sum, LinkWeight, AllConnected;
    JoinChangesCut(g, part, refined, v, c);
    var q := refined[v := c];
    forall x: nat | x < |part| && x != v && x != c ensures Singleton(q, x) <==> Singleton(refined, x) {
      if Singleton(q, x) {
        forall u | 0 <= u < |refined| && u != x ensures refined[u] != refined[x] { assert u != v ==> q[u] != q[x]; }
      }
    }
    assert q[v] == c && q[c] == c;
  }

  // The gain of joining cluster c, from its link weight and strength.
  lemma JoinGain(g: Level, gamma: real, total: real, part: seq<nat>, refined: seq<nat>, v: nat, c: nat)
    requires Valid(g) && total > 0.0 && RefineOk(g, part, refined) && v < |part| && Singleton(refined, v)
    requires c < |part| && c != v && refined[c] == c && part[c] == part[v]
    ensures LinkGain(Excess(g, gamma, total), refined, v, c)
         == LinkWeight(g, part, refined, v, c) - Expected(gamma, total, Strength(g)(v), ClusterStrength(g, refined, c))
  {
    hide AllConnected, Expected;
    var n, on := |part|, Others(refined, v, c);
    ExcessSum(g, gamma, total, v, on);
    forall u: nat | u < n && refined[u] == c ensures part[u] == part[v] { assert part[refined[u]] == part[u]; }
    SumExt(n, Restrict(Kept(refined, SameCommunity(part, v), c), Row(Weights(g), v)), Restrict(on, Row(Affinity(g), v)));
    SumExt(n, Class(refined, c, Strength(g)), Restrict(on, Strength(g)));
  }

  // A touched cluster is named after one of its members, in the community of v.
  lemma TouchedCluster(g: Level, part: seq<nat>, refined: seq<nat>, v: nat, c: nat)
    requires RefineOk(g, part, refined) && v < |part| && TouchesInside(g, part, refined, v, c)
    ensures c < |part| && refined[c] == c && part[c] == part[v]
  {
  }

  // The first well-connected cluster of maximal non-negative gain.
  method ChooseCluster(g: Level, part: seq<nat>, ghost refined: seq<nat>, v: nat, to: map<nat, real>,
                       weight: seq<real>, external: seq<real>, community: real, gamma: real, total: real, ghost singleton: seq<bool>)
    returns (best: Option<nat>)
    requires Valid(g) && total > 0.0 && RefineOk(g, part, refined) && v < |part| && Singleton(refined, v)
    requires |part| == |g.adj| && CutTables(g, part, refined, singleton, weight, external)
    requires community == ClassSum(part, part[v], Strength(g))
    requires forall c: nat :: c in to <==> TouchesInside(g, part, refined, v, c)
    requires forall c: nat :: RowWeights(to)(c) == LinkWeight(g, part, refined, v, c)
    ensures best == BestCluster(g, gamma, total, part, refined, v, |part|)
  {
    hide Valid, External, ClusterStrength, LinkWeight, AllConnected, LinkGain, Excess, Sum, TouchesInside, ClassSum, Expected, RefineOk, Alone;
    ValidShape(g);
    best := None;
    ghost var m := Excess(g, gamma, total);
    var bestGain := 0.0;
    for c := 0 to |part|
      invariant best == BestCluster(g, gamma, total, part, refined, v, c)
      invariant best.Some? ==> bestGain == LinkGain(m, refined, v, best.value)
    {
      if c in to && c != v {
        TouchedCluster(g, part, refined, v, c);
        if Connected(external[c], weight[c], community, gamma, total) {
          JoinGain(g, gamma, total, part, refined, v, c);
          assert to[c] == RowWeights(to)(c);
          var gain := to[c] - Expected(gamma, total, g.strength[v], weight[c]);
          if gain >= 0.0 && (best.None? || gain > bestGain) {
            best := Some(c);
            bestGain := gain;
          }
        }
      }
    }
  }

  // Strength of every community.
  method CommunityStrengths(g: Level, part: seq<nat>) returns (weight: array<real>)
    requires Labelling(part, |g.adj|) && |g.strength| == |g.adj|
    ensures weight.Length == |part|
    ensures forall c: nat :: c < |part| ==> weight[c] == ClassSum(part, c, Strength(g))
  {
    weight := new real[|part|](_ => 0.0);
    for v := 0 to |part|
      invariant forall c: nat :: c < |part| ==> weight[c] == Sum(v, Class(part, c, Strength(g)))
    {
      ghost var was := weight[..];
      weight[part[v]] := weight[part[v]] + g.strength[v];
      assert forall c: nat :: c < |part| ==> weight[c] == was[c] + Class(part, c, Strength(g))(v);
    }
  }

  // Weight from every node to the rest of its community.
  method InitialExternal(g: Level, part: seq<nat>) returns (external: array<real>)
    requires |part| == |g.adj|
    ensures fresh(external) && external.Length == |part|
    ensures forall v: nat :: v < |part| ==> external[v] == Sum(|part|, Restrict(SameCommunity(part, v), Row(Weights(g), v)))
  {
    external := new real[|part|](_ => 0.0);
    for v := 0 to |part|
      invariant forall x: nat :: x < v ==> external[x] == Sum(|part|, Restrict(SameCommunity(part, x), Row(Weights(g), x)))
    {
      var sum := 0.0;
      for u := 0 to |part|
        invariant sum == Sum(u, Restrict(SameCommunity(part, v), Row(Weights(g), v)))
      {
        if u in g.adj[v] && part[u] == part[v] {
          sum := sum + g.adj[v][u];
        }
      }
      external[v] := sum;
    }
  }

  lemma ExternalStart(g: Level, part: seq<nat>, v: nat)
    requires Valid(g) && |part| == |g.adj| && v < |part|
    ensures Sum(|part|, Restrict(SameCommunity(part, v), Row(Weights(g), v))) == Sum(|part|, Restrict(Peers(part, v), Row(Weights(g), v)))
  {
    assert v !in g.adj[v];
    SumExt(|part|, Restrict(SameCommunity(part, v), Row(Weights(g), v)), Restrict(Peers(part, v), Row(Weights(g), v)));
  }

  lemma LinkWeights(g: Level, part: seq<nat>, refined: seq<nat>, v: nat, to: map<nat, real>)
    requires v < |part| == |refined|
    requires forall c: nat :: c in to <==>
               exists u: nat :: u < |refined| && refined[u] == c && SameCommunity(part, v)(u) && Adjacent(g, v, u)
    requires forall c: nat ::
               RowWeights(to)(c) == Sum(|refined|, Restrict(Kept(refined, SameCommunity(part, v), c), Row(Weights(g), v)))
    ensures forall c: nat :: c in to <==> TouchesInside(g, part, refined, v, c)
    ensures forall c: nat :: RowWeights(to)(c) == LinkWeight(g, part, refined, v, c)
    ensures forall c: nat :: c in to ==> to[c] == LinkWeight(g, part, refined, v, c)
  {
    forall c: nat | c in to ensures to[c] == LinkWeight(g, part, refined, v, c) {
      assert RowWeights(to)(c) == to[c];
    }
  }

  lemma VisitTest(g: Level, gamma: real, total: real, part: seq<nat>, refined: seq<nat>, singleton: seq<bool>, weight: seq<real>,
                  external: seq<real>, v: nat)
    requires total > 0.0 && v < |part| && CutTables(g, part, refined, singleton, weight, external)
    ensures |singleton| == |weight| == |external| == |refined| == |part| && (singleton[v] <==> Singleton(refined, v))
    ensures singleton[v] ==> (Connected(external[v], weight[v], ClassSum(part, part[v], Strength(g)), gamma, total)
                          <==> WellConnected(g, gamma, total, part, refined, v, v))
  {
  }

  // Moves v into cluster c and updates the tables in place.
  method JoinCluster(refined: array<nat>, singleton: array<bool>, weight: array<real>, external: array<real>, v: nat, c: nat, k: real, link: real)
    requires v < refined.Length && c < refined.Length == singleton.Length == weight.Length == external.Length && weight != external
    modifies refined, singleton, weight, external
    ensures refined[..] == old(refined[..])[v := c] && singleton[..] == old(singleton[..])[v := false][c := false]
    ensures weight[..] == old(weight[..])[c := old(weight[c]) + k]
    ensures external[..] == old(external[..])[c := old(external[c]) + (old(external[v]) - 2.0 * link)]
  {
    external[c] := external[c] + (external[v] - 2.0 * link);
    weight[c] := weight[c] + k;
    refined[v] := c;
    singleton[v] := false;
    singleton[c] := false;
  }

  // Visits one node of the refinement pass.
  method RefineVisit(g: Level, part: seq<nat>, refined: array<nat>, singleton: array<bool>, weight: array<real>, external: array<real>,
                     v: nat, community: real, gamma: real, total: real)
    requires Valid(g) && total > 0.0 && RefineOk(g, part, refined[..]) && v < |part| == |g.adj|
    requires singleton.Length == weight.Length == external.Length == refined.Length == |part| && weight != external
    requires CutTables(g, part, refined[..], singleton[..], weight[..], external[..])
    requires community == ClassSum(part, part[v], Strength(g))
    modifies refined, singleton, weight, external
    ensures refined[..] == RefineStep(g, gamma, total, part, old(refined[..]), v)
    ensures CutTables(g, part, refined[..], singleton[..], weight[..], external[..])
  {
    hide Valid, External, ClusterStrength, LinkWeight, AllConnected, LinkGain, Excess, Sum, ClassSum, Expected, RefineOk, BestCluster,
      Alone, CutTables, Connected, WellConnected, Singleton, TouchesInside, Kept, Restrict, Weights, RowWeights, SameCommunity, Strength;
    ValidShape(g);
    StrengthAt(g, v);
    ghost var r, s, w, e := refined[..], singleton[..], weight[..], external[..];
    VisitTest(g, gamma, total, part, r, s, w, e, v);
    var k := g.strength[v];
    if singleton[v] && Connected(external[v], weight[v], community, gamma, total) {
      var to := WeightsTo(g, v, refined, SameCommunity(part, v));
      LinkWeights(g, part, r, v, to);
      var best := ChooseCluster(g, part, r, v, to, weight[..], external[..], community, gamma, total, s);
      BestClusterEligible(g, gamma, total, part, r, v, |part|);
      if best.Some? {
        var c := best.value;
        SingletonName(r, v);
        TouchedCluster(g, part, r, v, c);
        CutTablesJoin(g, part, r, s, w, e, v, c);
        JoinCluster(refined, singleton, weight, external, v, c, k, to[c]);
      }
    }
  }

  lemma StrengthAt(g: Level, v: nat)
    requires v < |g.strength|
    ensures Strength(g)(v) == g.strength[v]
  {
  }

  lemma SingletonName(refined: seq<nat>, v: nat)
    requires v < |refined| && Singleton(refined, v)
    ensures refined[v] == v
  {
  }

  /** Leiden refinement of a partition: the clusters of a whole specified pass. */
  method Refine(g: Level, part: seq<nat>, gamma: real, total: real) returns (refined: array<nat>)
    requires Valid(g) && total > 0.0 && Labelling(part, |g.adj|)
    ensures fresh(refined) && refined[..] == RefineTo(g, gamma, total, part, |part|)
    ensures RefineOk(g, part, refined[..])
  {
    hide Valid, External, ClusterStrength, Sum, ClassSum, RefineOk, CutTables, RefineStep, Peers;
    ValidShape(g);
    var n := |part|;
    var community := CommunityStrengths(g, part);
    refined := new nat[n](v => v);
    var singleton := new bool[n](_ => true);
    var weight := new real[n](v requires 0 <= v < n => g.strength[v]);
    var external := InitialExternal(g, part);
    forall v: nat | v < n
      ensures external[v] == Sum(n, Restrict(Peers(part, v), Row(Weights(g), v)))
    {
      ExternalStart(g, part, v);
    }
    CutTablesStart(g, part, external[..]);
    assert refined[..] == Identity(n) && weight[..] == g.strength && singleton[..] == seq(n, v => true);
    RefinementConnected(g, gamma, total, part, 0);
    for v := 0 to n
      invariant refined[..] == RefineTo(g, gamma, total, part, v) && RefineOk(g, part, refined[..])
      invariant CutTables(g, part, refined[..], singleton[..], weight[..], external[..])
      invariant forall c: nat :: c < n ==> community[c] == ClassSum(part, c, Strength(g))
    {
      RefinementConnected(g, gamma, total, part, v + 1);
      RefineVisit(g, part, refined, singleton, weight, external, v, community[part[v]], gamma, total);
    }
  }
}
