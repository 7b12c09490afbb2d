// Aggregation of a level by a clustering: the quotient graph, what it preserves, and the
// edge-by-edge construction.
module LeidenAggregate {
  import opened RealSums
  import opened LeidenLevel
  import opened LeidenMove

  ghost function BlockWeight(g: Level, r: seq<nat>, a: nat, b: nat): real {
    PairSum(|r|, Between(r, a, b), Weights(g))
  }

  ghost function Upper(on: Relation): Relation { (v: nat, u: nat) => v < u && on(v, u) }

  ghost function Lower(on: Relation): Relation { (v: nat, u: nat) => u < v && on(v, u) }

  // Internal weight of cluster a, every internal edge once.
  ghost function InnerWeight(g: Level, r: seq<nat>, a: nat): real {
    ClassSum(r, a, Inner(g)) + PairSum(|r|, Upper(Between(r, a, a)), Weights(g))
  }

  ghost function AggregateRow(g: Level, r: seq<nat>, clusters: nat, a: nat): map<nat, real> {
    map b: nat | b < clusters && b != a && BlockWeight(g, r, a, b) > 0.0 :: BlockWeight(g, r, a, b)
  }

  // The aggregated level.
  ghost function AggregateOf(g: Level, r: seq<nat>, clusters: nat): Level {
    WithStrengths(seq(clusters, a requires 0 <= a < clusters => AggregateRow(g, r, clusters, a)),
                  seq(clusters, a requires 0 <= a < clusters => InnerWeight(g, r, a)))
  }

  ghost predicate Clustering(g: Level, r: seq<nat>, clusters: nat) {
    |r| == |g.adj| && forall v :: 0 <= v < |r| ==> r[v] < clusters
  }

  // ----- symmetric sums -----

  lemma PairSumTranspose(n: nat, on: Relation, m: Matrix, on': Relation)
    requires forall v: nat, u: nat :: v < n && u < n ==> on'(v, u) == on(u, v)
    requires Symmetric(n, m)
    ensures PairSum(n, on', m) == PairSum(n, on, m)
  {
    var f, f' := Masked(on, m), Masked(on', m);
    TotalSwap(n, n, f);
    forall v: nat | v < n ensures ColumnTotals(n, f)(v) == RowTotals(n, f')(v) {
      forall u: nat | u < n ensures Column(f, v)(u) == Row(f', v)(u) { assert m(u, v) == m(v, u); }
      SumExt(n, Column(f, v), Row(f', v));
    }
    SumExt(n, ColumnTotals(n, f), RowTotals(n, f'));
  }

  lemma WeightsSymmetric(g: Level)
    requires Valid(g)
    ensures Symmetric(|g.adj|, Weights(g))
  {
    forall v: nat, u: nat | v < |g.adj| && u < |g.adj| ensures Weights(g)(v, u) == Weights(g)(u, v) {
      AdjacentMutual(g, v, u);
      if Adjacent(g, v, u) { assert g.adj[u][v] == g.adj[v][u]; }
    }
  }

  lemma WeightNonNegative(g: Level, v: nat, u: nat)
    requires Valid(g)
    ensures Weight(g, v, u) >= 0.0 && Weight(g, v, v) == 0.0
    ensures Weight(g, v, u) > 0.0 <==> Adjacent(g, v, u)
  {
    AdjacentMutual(g, v, u);
    AdjacentMutual(g, v, v);
  }

  lemma BlockNonNegative(g: Level, on: Relation)
    requires Valid(g)
    ensures PairSum(|g.adj|, on, Weights(g)) >= 0.0
  {
    var n, f := |g.adj|, Masked(on, Weights(g));
    forall v: nat | v < n ensures RowTotals(n, f)(v) >= 0.0 {
      forall u: nat | u < n ensures Row(f, v)(u) >= 0.0 { WeightNonNegative(g, v, u); }
      SumNonNegative(n, Row(f, v));
    }
    SumNonNegative(n, RowTotals(n, f));
  }

  ghost function Diagonal(f: Vector): Matrix { (v: nat, u: nat) => if v == u then f(v) else 0.0 }

  ghost function Doubled(f: Vector): Vector { Scaled(2.0, f) }

  lemma DiagonalSum(r: seq<nat>, a: nat, f: Vector)
    ensures PairSum(|r|, Between(r, a, a), Diagonal(f)) == ClassSum(r, a, f)
  {
    var n, m := |r|, Masked(Between(r, a, a), Diagonal(f));
    forall v: nat | v < n ensures RowTotals(n, m)(v) == Class(r, a, f)(v) { SumSpike(n, v, Row(m, v)); }
    SumExt(n, RowTotals(n, m), Class(r, a, f));
  }

  // Full internal affinity of a cluster counts every internal edge twice.
  lemma InnerAffinity(g: Level, r: seq<nat>, a: nat)
    requires Valid(g) && |r| == |g.adj|
    ensures PairSum(|r|, Between(r, a, a), Affinity(g)) == 2.0 * InnerWeight(g, r, a)
  {
    hide Valid;
    var n, on, W := |r|, Between(r, a, a), Weights(g);
    var up, low, diag := Masked(Upper(on), W), Masked(Lower(on), W), Diagonal(Doubled(Inner(g)));
    var triangles: Matrix := (v: nat, u: nat) => up(v, u) + low(v, u);
    PairSumAdd(n, on, up, low, triangles);
    PairSumAdd(n, on, diag, triangles, Affinity(g));
    TotalExt(n, n, Masked(on, up), up);
    TotalExt(n, n, Masked(on, low), low);
    WeightsSymmetric(g);
    PairSumTranspose(n, Upper(on), W, Lower(on));
    DiagonalSum(r, a, Doubled(Inner(g)));
    ClassSumScale(r, a, 2.0, Inner(g));
  }

  // ----- what aggregation preserves -----

  /** The affinity of the aggregated level is the block sum of the affinity below. */
  lemma AggregateAffinity(g: Level, r: seq<nat>, clusters: nat)
    requires Valid(g) && Clustering(g, r, clusters)
    ensures IsQuotient(r, clusters, Affinity(g), Affinity(AggregateOf(g, r, clusters)))
  {
    hide Valid, Sum;
    var g', n := AggregateOf(g, r, clusters), |r|;
    forall a: nat, b: nat | a < clusters && b < clusters
      ensures Affinity(g')(a, b) == PairSum(n, Between(r, a, b), Affinity(g))
    {
      if a == b {
        InnerAffinity(g, r, a);
        assert g'.inner[a] == InnerWeight(g, r, a);
        assert Inner(g')(a) == g'.inner[a];
      } else {
        PairSumExt(n, Between(r, a, b), Affinity(g), Between(r, a, b), Weights(g));
        BlockNonNegative(g, Between(r, a, b));
        assert g'.adj[a] == AggregateRow(g, r, clusters, a);
        assert Weight(g', a, b) == BlockWeight(g, r, a, b);
      }
    }
  }

  lemma StrengthIsAffinity(g: Level, v: nat)
    requires Valid(g) && v < |g.adj|
    ensures Strength(g)(v) == Sum(|g.adj|, Row(Affinity(g), v))
  {
    assert v !in g.adj[v];
    assert g.strength[v] == Sum(|g.adj|, Row(Weights(g), v)) + 2.0 * g.inner[v];
    SumChange(|g.adj|, v, Row(Weights(g), v), Row(Affinity(g), v));
    assert Inner(g)(v) == g.inner[v];
  }

  ghost function Always(): Relation { (a: nat, b: nat) => true }

  /** Aggregated strengths are sums of the strengths below. */
  lemma AggregateStrength(g: Level, r: seq<nat>, clusters: nat, a: nat)
    requires Valid(g) && Clustering(g, r, clusters) && a < clusters
    ensures Strength(AggregateOf(g, r, clusters))(a) == ClassSum(r, a, Strength(g))
  {
    hide Valid;
    var g', n := AggregateOf(g, r, clusters), |r|;
    AggregateAffinity(g, r, clusters);
    // Strength is the row sum of the affinity, above and below.
    var row := g'.adj[a];
    assert row == AggregateRow(g, r, clusters, a);
    forall b: nat | b < clusters && b != a ensures RowWeights(row)(b) == Row(Affinity(g'), a)(b) {
      assert Weight(g', a, b) == RowWeights(row)(b);
    }
    SumChange(clusters, a, RowWeights(row), Row(Affinity(g'), a));
    assert g'.strength[a] == Sum(clusters, RowWeights(row)) + 2.0 * g'.inner[a];
    assert Inner(g')(a) == g'.inner[a] && RowWeights(row)(a) == 0.0;
    assert Strength(g')(a) == Sum(clusters, Row(Affinity(g'), a));
    QuotientRow(r, clusters, Affinity(g), Affinity(g'), Always(), a);
    SumExt(clusters, Row(Masked(Always(), Affinity(g')), a), Row(Affinity(g'), a));
    var e := Related(r, Always(), Affinity(g));
    forall v: nat | v < n ensures Row(ByClass(r, e), a)(v) == Class(r, a, Strength(g))(v) {
      StrengthIsAffinity(g, v);
      SumExt(n, RelatedRow(r, Always(), Affinity(g), a, v), Row(Affinity(g), v));
    }
    SumExt(n, Row(ByClass(r, e), a), Class(r, a, Strength(g)));
  }

  /** An aggregated level is again symmetric, positive and free of self-loops, and its
      total strength is that of the level below. */
  lemma AggregateValid(g: Level, r: seq<nat>, clusters: nat)
    requires Valid(g) && Clustering(g, r, clusters)
    ensures Valid(AggregateOf(g, r, clusters)) && AggregateOf(g, r, clusters).Len() == clusters
    ensures TotalStrength(AggregateOf(g, r, clusters)) == TotalStrength(g)
  {
    var g' := AggregateOf(g, r, clusters);
    AggregateRowsSymmetric(g, r, clusters);
    forall a: nat | a < clusters
      ensures g'.inner[a] >= 0.0 && g'.strength[a] == Sum(clusters, Row(Weights(g'), a)) + 2.0 * g'.inner[a]
    {
      StrengthsOfRows(g', a);
      InnerNonNegative(g, r, a);
    }
    ClassSumsAddUp(r, clusters, Strength(g));
    forall a: nat | a < clusters ensures Strength(g')(a) == ClassSums(r, Strength(g))(a) {
      AggregateStrength(g, r, clusters, a);
    }
    SumExt(clusters, Strength(g'), ClassSums(r, Strength(g)));
  }

  lemma InnerNonNegative(g: Level, r: seq<nat>, a: nat)
    requires Valid(g) && |r| == |g.adj|
    ensures InnerWeight(g, r, a) >= 0.0
  {
    BlockNonNegative(g, Upper(Between(r, a, a)));
    forall v: nat | v < |r| ensures Class(r, a, Inner(g))(v) >= 0.0 { }
    SumNonNegative(|r|, Class(r, a, Inner(g)));
  }

  lemma AggregateRowsSymmetric(g: Level, r: seq<nat>, clusters: nat)
    requires Valid(g) && Clustering(g, r, clusters)
    ensures var adj := AggregateOf(g, r, clusters).adj;
            forall a: nat, b: nat {:trigger b in adj[a]} :: a < clusters && b in adj[a] ==>
              b < clusters && b != a && adj[a][b] > 0.0 && a in adj[b] && adj[b][a] == adj[a][b]
  {
    hide Valid, PairSum;
    var adj := AggregateOf(g, r, clusters).adj;
    WeightsSymmetric(g);
    forall a: nat, b: nat | a < clusters && b in adj[a]
      ensures b < clusters && b != a && adj[a][b] > 0.0 && a in adj[b] && adj[b][a] == adj[a][b]
    {
      assert adj[a] == AggregateRow(g, r, clusters, a);
      assert b < clusters;
      assert adj[b] == AggregateRow(g, r, clusters, b);
      PairSumTranspose(|r|, Between(r, a, b), Weights(g), Between(r, b, a));
    }
  }

  /** Excess weight, hence modularity, is preserved block by block. */
  lemma AggregateExcess(g: Level, r: seq<nat>, clusters: nat, gamma: real, total: real)
    requires Valid(g) && Clustering(g, r, clusters) && total > 0.0
    ensures IsQuotient(r, clusters, Excess(g, gamma, total), Excess(AggregateOf(g, r, clusters), gamma, total))
  {
    hide Valid, Expected, Affinity, Strength;
    var g', n, K := AggregateOf(g, r, clusters), |r|, Strength(g);
    var c := Expected(gamma, total, 1.0, 1.0);
    AggregateAffinity(g, r, clusters);
    forall a: nat, b: nat | a < clusters && b < clusters
      ensures Excess(g', gamma, total)(a, b) == PairSum(n, Between(r, a, b), Excess(g, gamma, total))
    {
      var expected := Products(Scaled(c, K), K);
      forall v: nat, u: nat | v < n && u < n
        ensures Affinity(g)(v, u) == Excess(g, gamma, total)(v, u) + expected(v, u)
      {
        ExpectedFactor(gamma, total, K(v), K(u));
      }
      PairSumAdd(n, Between(r, a, b), Excess(g, gamma, total), expected, Affinity(g));
      BlockOfProducts(r, a, b, Scaled(c, K), K);
      ClassSumScale(r, a, c, K);
      AggregateStrength(g, r, clusters, a);
      AggregateStrength(g, r, clusters, b);
      ExpectedFactor(gamma, total, ClassSum(r, a, K), ClassSum(r, b, K));
    }
  }

  // ----- the array code -----

  // Pair sum over the rows below v and the first k entries of row v.
  ghost function Seen(r: seq<nat>, on: Relation, m: Matrix, v: nat, k: nat): real {
    Sum(v, RowTotals(|r|, Masked(on, m))) + Sum(k, Row(Masked(on, m), v))
  }

  lemma SeenStep(r: seq<nat>, on: Relation, m: Matrix, v: nat, k: nat)
    ensures Seen(r, on, m, v, k + 1) == Seen(r, on, m, v, k) + (if on(v, k) then m(v, k) else 0.0)
  {
  }

  lemma SeenRow(r: seq<nat>, on: Relation, m: Matrix, v: nat)
    ensures Seen(r, on, m, v, |r|) == Seen(r, on, m, v + 1, 0)
  {
    assert Sum(v + 1, RowTotals(|r|, Masked(on, m))) == Sum(v, RowTotals(|r|, Masked(on, m))) + RowTotals(|r|, Masked(on, m))(v);
  }

  // The rows hold the blocks seen so far, with an entry exactly where weight was seen.
  ghost predicate RowsUpTo(g: Level, r: seq<nat>, clusters: nat, v: nat, k: nat, rows: seq<map<nat, real>>) {
    && |rows| == clusters
    && (forall a: nat, b: nat :: a < clusters ==>
          RowWeights(rows[a])(b) == if a != b && b < clusters then Seen(r, Between(r, a, b), Weights(g), v, k) else 0.0)
    && (forall a: nat, b: nat :: a < clusters && b in rows[a] ==> rows[a][b] > 0.0)
  }

  // Internal weights seen so far; node v itself may already be counted.
  ghost predicate InnerUpTo(g: Level, r: seq<nat>, clusters: nat, nodes: nat, v: nat, k: nat, inner: seq<real>) {
    && |inner| == clusters
    && forall a: nat :: a < clusters ==>
         inner[a] == Sum(nodes, Class(r, a, Inner(g))) + Seen(r, Upper(Between(r, a, a)), Weights(g), v, k)
  }

  ghost function RowsAfter(g: Level, r: seq<nat>, v: nat, u: nat, rows: seq<map<nat, real>>): seq<map<nat, real>>
    requires v < |r| == |g.adj| && u < |r| && r[v] < |rows|
  {
    if u in g.adj[v] && r[v] != r[u] then rows[r[v] := AddTo(rows[r[v]], r[u], g.adj[v][u])] else rows
  }

  ghost function InnerAfter(g: Level, r: seq<nat>, v: nat, u: nat, inner: seq<real>): seq<real>
    requires v < |r| == |g.adj| && u < |r| && r[v] < |inner|
  {
    if u in g.adj[v] && r[v] == r[u] && v < u then inner[r[v] := inner[r[v]] + g.adj[v][u]] else inner
  }

  lemma RowsStep(g: Level, r: seq<nat>, clusters: nat, v: nat, u: nat, rows: seq<map<nat, real>>)
    requires Valid(g) && Clustering(g, r, clusters) && v < |r| && u < |r| && RowsUpTo(g, r, clusters, v, u, rows)
    ensures RowsUpTo(g, r, clusters, v, u + 1, RowsAfter(g, r, v, u, rows))
  {
    hide Valid, Seen;
    var rows' := RowsAfter(g, r, v, u, rows);
    WeightNonNegative(g, v, u);
    forall a: nat, b: nat | a < clusters
      ensures RowWeights(rows'[a])(b) == if a != b && b < clusters then Seen(r, Between(r, a, b), Weights(g), v, u + 1) else 0.0
    {
      SeenStep(r, Between(r, a, b), Weights(g), v, u);
      assert RowWeights(rows[a])(b) == if a != b && b < clusters then Seen(r, Between(r, a, b), Weights(g), v, u) else 0.0;
    }
    forall a: nat, b: nat | a < clusters && b in rows'[a] ensures rows'[a][b] > 0.0 { }
  }

  lemma InnerStep(g: Level, r: seq<nat>, clusters: nat, v: nat, u: nat, inner: seq<real>)
    requires Valid(g) && Clustering(g, r, clusters) && v < |r| && u < |r| && InnerUpTo(g, r, clusters, v + 1, v, u, inner)
    ensures InnerUpTo(g, r, clusters, v + 1, v, u + 1, InnerAfter(g, r, v, u, inner))
  {
    hide Valid, Seen, Sum;
    forall a: nat | a < clusters
      ensures InnerAfter(g, r, v, u, inner)[a]
           == Sum(v + 1, Class(r, a, Inner(g))) + Seen(r, Upper(Between(r, a, a)), Weights(g), v, u + 1)
    {
      SeenStep(r, Upper(Between(r, a, a)), Weights(g), v, u);
    }
  }

  lemma RowsNext(g: Level, r: seq<nat>, clusters: nat, v: nat, rows: seq<map<nat, real>>)
    requires RowsUpTo(g, r, clusters, v, |r|, rows)
    ensures RowsUpTo(g, r, clusters, v + 1, 0, rows)
  {
    hide Seen;
    forall a: nat, b: nat | a < clusters
      ensures RowWeights(rows[a])(b) == if a != b && b < clusters then Seen(r, Between(r, a, b), Weights(g), v + 1, 0) else 0.0
    {
      SeenRow(r, Between(r, a, b), Weights(g), v);
    }
  }

  lemma InnerNext(g: Level, r: seq<nat>, clusters: nat, v: nat, inner: seq<real>)
    requires InnerUpTo(g, r, clusters, v + 1, v, |r|, inner)
    ensures InnerUpTo(g, r, clusters, v + 1, v + 1, 0, inner)
  {
    hide Seen;
    forall a: nat | a < clusters
      ensures inner[a] == Sum(v + 1, Class(r, a, Inner(g))) + Seen(r, Upper(Between(r, a, a)), Weights(g), v + 1, 0)
    {
      SeenRow(r, Upper(Between(r, a, a)), Weights(g), v);
    }
  }

  lemma TablesStart(g: Level, r: seq<nat>, clusters: nat, rows: seq<map<nat, real>>, inner: seq<real>)
    requires |rows| == |inner| == clusters
    requires forall a: nat :: a < clusters ==> rows[a] == map[] && inner[a] == 0.0
    ensures RowsUpTo(g, r, clusters, 0, 0, rows) && InnerUpTo(g, r, clusters, 0, 0, 0, inner)
  {
  }

  lemma InnerOwn(g: Level, r: seq<nat>, clusters: nat, v: nat, inner: seq<real>)
    requires Clustering(g, r, clusters) && v < |r| == |g.inner| && InnerUpTo(g, r, clusters, v, v, 0, inner)
    ensures InnerUpTo(g, r, clusters, v + 1, v, 0, inner[r[v] := inner[r[v]] + g.inner[v]])
  {
    hide Seen;
    var inner' := inner[r[v] := inner[r[v]] + g.inner[v]];
    forall a: nat | a < clusters
      ensures inner'[a] == Sum(v + 1, Class(r, a, Inner(g))) + Seen(r, Upper(Between(r, a, a)), Weights(g), v, 0)
    {
      assert Sum(v + 1, Class(r, a, Inner(g))) == Sum(v, Class(r, a, Inner(g))) + Class(r, a, Inner(g))(v);
    }
  }

  lemma TablesDone(g: Level, r: seq<nat>, clusters: nat, rows: seq<map<nat, real>>, inner: seq<real>)
    requires Clustering(g, r, clusters) && RowsUpTo(g, r, clusters, |r|, 0, rows) && InnerUpTo(g, r, clusters, |r|, |r|, 0, inner)
    ensures WithStrengths(rows, inner) == AggregateOf(g, r, clusters)
  {
    hide Sum;
    forall a: nat | a < clusters ensures rows[a] == AggregateRow(g, r, clusters, a) {
      forall b: nat
        ensures b in rows[a] <==> b < clusters && b != a && BlockWeight(g, r, a, b) > 0.0
        ensures b in rows[a] ==> rows[a][b] == BlockWeight(g, r, a, b)
      {
        assert RowWeights(rows[a])(b) == if a != b && b < clusters then Seen(r, Between(r, a, b), Weights(g), |r|, 0) else 0.0;
        NothingSeen(r, Between(r, a, b), Weights(g));
      }
    }
    forall a: nat | a < clusters ensures inner[a] == InnerWeight(g, r, a) {
      NothingSeen(r, Upper(Between(r, a, a)), Weights(g));
    }
    assert rows == seq(clusters, a requires 0 <= a < clusters => AggregateRow(g, r, clusters, a));
    assert inner == seq(clusters, a requires 0 <= a < clusters => InnerWeight(g, r, a));
  }

  lemma NothingSeen(r: seq<nat>, on: Relation, m: Matrix)
    ensures Seen(r, on, m, |r|, 0) == PairSum(|r|, on, m)
  {
  }

  /** Builds the aggregated level edge by edge. */
  method Aggregate(g: Level, r: seq<nat>, clusters: nat) returns (g': Level)
    requires Valid(g) && Clustering(g, r, clusters)
    ensures g' == AggregateOf(g, r, clusters)
    ensures Valid(g') && g'.Len() == clusters
  {
    hide Valid, RowsUpTo, InnerUpTo, AggregateOf, WithStrengths;
    ValidShape(g);
    var adj := new map<nat, real>[clusters](_ => map[]);
    var inner := new real[clusters](_ => 0.0);
    TablesStart(g, r, clusters, adj[..], inner[..]);
    for v := 0 to |r|
      invariant RowsUpTo(g, r, clusters, v, 0, adj[..]) && InnerUpTo(g, r, clusters, v, v, 0, inner[..])
    {
      var a := r[v];
      InnerOwn(g, r, clusters, v, inner[..]);
      inner[a] := inner[a] + g.inner[v];
      for u := 0 to |r|
        invariant RowsUpTo(g, r, clusters, v, u, adj[..]) && InnerUpTo(g, r, clusters, v + 1, v, u, inner[..])
      {
        RowsStep(g, r, clusters, v, u, adj[..]);
        InnerStep(g, r, clusters, v, u, inner[..]);
        ghost var rows, weights := adj[..], inner[..];
        if u in g.adj[v] {
          var b := r[u];
          if a != b {
            adj[a] := AddTo(adj[a], b, g.adj[v][u]);
          } else if v < u {
            inner[a] := inner[a] + g.adj[v][u];
          }
        }
        assert adj[..] == RowsAfter(g, r, v, u, rows) && inner[..] == InnerAfter(g, r, v, u, weights);
      }
      RowsNext(g, r, clusters, v, adj[..]);
      InnerNext(g, r, clusters, v, inner[..]);
    }
    TablesDone(g, r, clusters, adj[..], inner[..]);
    g' := FromMaps(adj[..], inner[..]);
    AggregateValid(g, r, clusters);
  }
}
