// The quality the partitioner reports: per-community sums that amount to definitional
// modularity on the base graph.
module LeidenQuality {
  import opened RealSums
  import opened LeidenLevel
  import opened LeidenMove

  ghost function WithinClasses(p: seq<nat>, m: Matrix): Vector {
    (c: nat) => PairSum(|p|, Between(p, c, c), m)
  }

  // The pairs of a common class, class by class.
  lemma SameByClass(p: seq<nat>, classes: nat, m: Matrix)
    requires forall v :: 0 <= v < |p| ==> p[v] < classes
    ensures Sum(classes, WithinClasses(p, m)) == Objective(m, p)
  {
    var n := |p|;
    var e := OwnRows(p, m);
    Regroup(p, classes, e);
    forall c: nat | c < classes ensures WithinClasses(p, m)(c) == RowTotals(n, ByClass(p, e))(c) {
      BlockByRows(p, c, c, m);
      SumExt(n, Class(p, c, RowsOnClass(p, c, m)), Row(ByClass(p, e), c));
    }
    SumExt(classes, WithinClasses(p, m), RowTotals(n, ByClass(p, e)));
    var f := Masked(SameLabel(p), m);
    forall v: nat | v < n ensures AtOwnClass(p, e)(v) == RowTotals(n, f)(v) {
      SumExt(n, Class(p, p[v], Row(m, v)), Row(f, v));
    }
    SumExt(n, AtOwnClass(p, e), RowTotals(n, f));
  }

  ghost function OwnRows(p: seq<nat>, m: Matrix): Matrix { (c: nat, v: nat) => ClassSum(p, c, Row(m, v)) }

  // Weight inside each community, both ends counted, over rows below v and entries below k of row v.
  ghost predicate InsideUpTo(g: Level, p: seq<nat>, v: nat, k: nat, inside: seq<real>) {
    forall c: nat :: c < |inside| ==> inside[c] == Sum(v, RowTotals(|p|, Masked(Between(p, c, c), Weights(g)))) + Sum(k, Row(Masked(Between(p, c, c), Weights(g)), v))
  }

  ghost predicate StrengthUpTo(g: Level, p: seq<nat>, v: nat, strength: seq<real>) {
    forall c: nat :: c < |strength| ==> strength[c] == Sum(v, Class(p, c, Strength(g)))
  }

  ghost function InsideAfter(g: Level, p: seq<nat>, v: nat, u: nat, inside: seq<real>): seq<real>
    requires v < |p| == |g.adj| && u < |p| && p[v] < |inside|
  {
    if u in g.adj[v] && p[u] == p[v] then inside[p[v] := inside[p[v]] + g.adj[v][u]] else inside
  }

  lemma InsideStep(g: Level, p: seq<nat>, v: nat, u: nat, inside: seq<real>)
    requires v < |p| == |g.adj| && u < |p| && p[v] < |inside| && InsideUpTo(g, p, v, u, inside)
    ensures InsideUpTo(g, p, v, u + 1, InsideAfter(g, p, v, u, inside))
  {
  }

  lemma InsideNext(g: Level, p: seq<nat>, v: nat, inside: seq<real>)
    requires InsideUpTo(g, p, v, |p|, inside)
    ensures InsideUpTo(g, p, v + 1, 0, inside)
  {
    forall c: nat | c < |inside|
      ensures inside[c] == Sum(v + 1, RowTotals(|p|, Masked(Between(p, c, c), Weights(g)))) + Sum(0, Row(Masked(Between(p, c, c), Weights(g)), v + 1))
    {
      assert RowTotals(|p|, Masked(Between(p, c, c), Weights(g)))(v) == Sum(|p|, Row(Masked(Between(p, c, c), Weights(g)), v));
    }
  }

  lemma StrengthStep(g: Level, p: seq<nat>, v: nat, strength: seq<real>)
    requires v < |p| == |g.strength| && p[v] < |strength| && StrengthUpTo(g, p, v, strength)
    ensures StrengthUpTo(g, p, v + 1, strength[p[v] := strength[p[v]] + g.strength[v]])
  {
  }

  // One community's contribution.
  function Contribution(inside: real, strength: real, gamma: real, total: real): real
    requires total > 0.0
  {
    inside / total - gamma * ((strength / total) * (strength / total))
  }

  lemma ContributionScale(inside: real, s: real, gamma: real, total: real)
    requires total > 0.0
    ensures total * Contribution(inside, s, gamma, total) == inside - Expected(gamma, total, s, s)
  {
    var x := s / total;
    assert s == x * total;
    assert gamma * s * s == (gamma * s * x) * total;
    assert (gamma * s * x) * total / total == gamma * s * x;
    assert gamma * s * x == total * (gamma * (x * x)) by {
      assert gamma * s * x == gamma * (x * total) * x;
      assert gamma * (x * total) * x == total * (gamma * (x * x));
    }
    assert total * (inside / total) == inside;
  }

  ghost function Contributions(inside: seq<real>, strength: seq<real>, gamma: real, total: real): Vector
    requires total > 0.0
  {
    (c: nat) => if c < |inside| && c < |strength| then Contribution(inside[c], strength[c], gamma, total) else 0.0
  }

  // Excess inside a community of the base level, from its two sums.
  lemma WithinExcess(g: Level, p: seq<nat>, c: nat, gamma: real, total: real)
    requires Valid(g) && |p| == |g.adj| && total > 0.0 && forall v :: 0 <= v < |g.inner| ==> g.inner[v] == 0.0
    ensures WithinClasses(p, Excess(g, gamma, total))(c)
         == PairSum(|p|, Between(p, c, c), Weights(g)) - Expected(gamma, total, ClassSum(p, c, Strength(g)), ClassSum(p, c, Strength(g)))
  {
    hide Valid, Expected, Excess, Weights, Sum;
    var n, on, K := |p|, Between(p, c, c), Strength(g);
    var one := Expected(gamma, total, 1.0, 1.0);
    var expected := Products(Scaled(one, K), K);
    forall v: nat, u: nat | v < n && u < n && on(v, u)
      ensures Weights(g)(v, u) == Excess(g, gamma, total)(v, u) + expected(v, u)
    {
      PairExcess(g, gamma, total, v, u);
      ExpectedFactor(gamma, total, K(v), K(u));
    }
    PairSumAdd(n, on, Excess(g, gamma, total), expected, Weights(g));
    BlockOfProducts(p, c, c, Scaled(one, K), K);
    ClassSumScale(p, c, one, K);
    ExpectedFactor(gamma, total, ClassSum(p, c, K), ClassSum(p, c, K));
  }

  lemma PairExcess(g: Level, gamma: real, total: real, v: nat, u: nat)
    requires Valid(g) && total > 0.0 && v < |g.adj| && u < |g.adj| && forall x :: 0 <= x < |g.inner| ==> g.inner[x] == 0.0
    ensures Excess(g, gamma, total)(v, u) == Weights(g)(v, u) - Expected(gamma, total, Strength(g)(v), Strength(g)(u))
  {
    hide Valid, Expected;
    ValidShape(g);
    AdjacentMutual(g, v, u);
    assert Inner(g)(v) == 0.0;
    assert v == u ==> Weight(g, v, u) == 0.0;
    assert Affinity(g)(v, u) == Weights(g)(v, u);
  }

  lemma OneContribution(g: Level, p: seq<nat>, inside: seq<real>, strength: seq<real>, gamma: real, total: real, c: nat)
    requires Valid(g) && |p| == |g.adj| && total > 0.0 && forall v :: 0 <= v < |g.inner| ==> g.inner[v] == 0.0
    requires |inside| == |strength| && c < |inside|
    requires InsideUpTo(g, p, |p|, 0, inside) && StrengthUpTo(g, p, |p|, strength)
    ensures WithinClasses(p, Excess(g, gamma, total))(c) == total * Contributions(inside, strength, gamma, total)(c)
  {
    hide Valid, Contribution, Expected, Excess, WithinClasses, Contributions;
    WithinExcess(g, p, c, gamma, total);
    ContributionScale(inside[c], strength[c], gamma, total);
    assert inside[c] == PairSum(|p|, Between(p, c, c), Weights(g)) && strength[c] == ClassSum(p, c, Strength(g));
    ContributionsAt(inside, strength, gamma, total, c);
  }

  lemma ContributionsAt(inside: seq<real>, strength: seq<real>, gamma: real, total: real, c: nat)
    requires total > 0.0 && c < |inside| == |strength|
    ensures Contributions(inside, strength, gamma, total)(c) == Contribution(inside[c], strength[c], gamma, total)
  {
  }

  lemma ContributionsAddUp(g: Level, p: seq<nat>, inside: seq<real>, strength: seq<real>, gamma: real, total: real)
    requires Valid(g) && |p| == |g.adj| && total > 0.0 && forall v :: 0 <= v < |g.inner| ==> g.inner[v] == 0.0
    requires |inside| == |strength| && forall v :: 0 <= v < |p| ==> p[v] < |inside|
    requires InsideUpTo(g, p, |p|, 0, inside) && StrengthUpTo(g, p, |p|, strength)
    ensures Sum(|inside|, Contributions(inside, strength, gamma, total)) == Modularity(g, p, gamma, total)
  {
    hide Valid, Expected, Excess, Objective, Modularity, InsideUpTo, StrengthUpTo, WithinClasses, Contributions, Sum;
    ModularityIs(g, p, gamma, total);
    var m, q := Excess(g, gamma, total), Sum(|inside|, Contributions(inside, strength, gamma, total));
    forall c: nat | c < |inside|
      ensures WithinClasses(p, m)(c) == total * Contributions(inside, strength, gamma, total)(c)
    {
      OneContribution(g, p, inside, strength, gamma, total, c);
    }
    SumScale(|inside|, total, Contributions(inside, strength, gamma, total), WithinClasses(p, m));
    SameByClass(p, |inside|, m);
    Quotient(total, q, Objective(m, p));
  }

  lemma ModularityIs(g: Level, p: seq<nat>, gamma: real, total: real)
    requires total > 0.0
    ensures Modularity(g, p, gamma, total) == Objective(Excess(g, gamma, total), p) / total
  {
  }

  lemma Quotient(total: real, q: real, x: real)
    requires total > 0.0 && x == total * q
    ensures x / total == q
  {
  }

  /** Modularity of a labelling of the base level. */
  method ModularityOf(g: Level, membership: seq<nat>, gamma: real, total: real) returns (quality: real)
    requires Valid(g) && |membership| == |g.adj| && total > 0.0 && forall v :: 0 <= v < |g.inner| ==> g.inner[v] == 0.0
    ensures quality == Modularity(g, membership, gamma, total)
  {
    hide Valid, InsideUpTo, StrengthUpTo, Contribution, Modularity, Sum, Class, Masked, Between, Weights;
    ValidShape(g);
    var groups: nat := 0;
    for v := 0 to |membership|
      invariant forall u :: 0 <= u < v ==> membership[u] < groups
    {
      if membership[v] >= groups { groups := membership[v] + 1; }
    }
    var inside := new real[groups](_ => 0.0);
    var strength := new real[groups](_ => 0.0);
    NothingInside(g, membership, inside[..], strength[..]);
    for v := 0 to |membership|
      invariant InsideUpTo(g, membership, v, 0, inside[..]) && StrengthUpTo(g, membership, v, strength[..])
    {
      var c := membership[v];
      StrengthStep(g, membership, v, strength[..]);
      ghost var s := strength[..];
      strength[c] := strength[c] + g.strength[v];
      assert strength[..] == s[c := s[c] + g.strength[v]];
      for u := 0 to |membership|
        invariant InsideUpTo(g, membership, v, u, inside[..]) && StrengthUpTo(g, membership, v + 1, strength[..])
      {
        InsideStep(g, membership, v, u, inside[..]);
        ghost var i := inside[..];
        if u in g.adj[v] && membership[u] == c {
          inside[c] := inside[c] + g.adj[v][u];
        }
        assert inside[..] == InsideAfter(g, membership, v, u, i);
      }
      InsideNext(g, membership, v, inside[..]);
    }
    quality := SumContributions(inside[..], strength[..], gamma, total);
    ContributionsAddUp(g, membership, inside[..], strength[..], gamma, total);
  }

  lemma NothingInside(g: Level, p: seq<nat>, inside: seq<real>, strength: seq<real>)
    requires forall c :: 0 <= c < |inside| ==> inside[c] == 0.0
    requires forall c :: 0 <= c < |strength| ==> strength[c] == 0.0
    ensures InsideUpTo(g, p, 0, 0, inside) && StrengthUpTo(g, p, 0, strength)
  {
  }

  method SumContributions(inside: seq<real>, strength: seq<real>, gamma: real, total: real) returns (sum: real)
    requires |inside| == |strength| && total > 0.0
    ensures sum == Sum(|inside|, Contributions(inside, strength, gamma, total))
  {
    hide Contribution;
    sum := 0.0;
    for c := 0 to |inside|
      invariant sum == Sum(c, Contributions(inside, strength, gamma, total))
    {
      sum := sum + Contribution(inside[c], strength[c], gamma, total);
    }
  }
}
