// Finite sums of reals over 0..n, and sums of a matrix over a relation on index
// pairs. Every quantity of the community detection (strengths, cuts, blocks of an
// aggregated graph, modularity) is one of these sums.
module RealSums {

  type Vector = nat -> real
  type Matrix = (nat, nat) -> real
  type Relation = (nat, nat) -> bool

  ghost function Sum(n: nat, f: Vector): real {
    if n == 0 then 0.0 else Sum(n - 1, f) + f(n - 1)
  }

  ghost function Row(m: Matrix, i: nat): Vector { (j: nat) => m(i, j) }

  ghost function Column(m: Matrix, j: nat): Vector { (i: nat) => m(i, j) }

  ghost function RowTotals(cols: nat, m: Matrix): Vector { (i: nat) => Sum(cols, Row(m, i)) }

  ghost function ColumnTotals(rows: nat, m: Matrix): Vector { (j: nat) => Sum(rows, Column(m, j)) }

  // The sum of a rows x cols matrix, row by row.
  ghost function Total(rows: nat, cols: nat, m: Matrix): real { Sum(rows, RowTotals(cols, m)) }

  ghost function Masked(on: Relation, m: Matrix): Matrix {
    (i: nat, j: nat) => if on(i, j) then m(i, j) else 0.0
  }

  // The sum of m over the pairs in a relation.
  ghost function PairSum(n: nat, on: Relation, m: Matrix): real { Total(n, n, Masked(on, m)) }

  // The part of f on one class of a labelling.
  ghost function Class(lab: seq<nat>, c: nat, f: Vector): Vector {
    (v: nat) => if v < |lab| && lab[v] == c then f(v) else 0.0
  }

  ghost function ClassSum(lab: seq<nat>, c: nat, f: Vector): real {
    Sum(|lab|, Class(lab, c, f))
  }

  lemma {:induction false} SumExt(n: nat, f: Vector, g: Vector)
    requires forall i: nat :: i < n ==> f(i) == g(i)
    ensures Sum(n, f) == Sum(n, g)
  {
    if n == 0 {
    } else {
      SumExt(n - 1, f, g);
    }
  }

  lemma {:induction false} SumAdd(n: nat, f: Vector, g: Vector, h: Vector)
    requires forall i: nat :: i < n ==> h(i) == f(i) + g(i)
    ensures Sum(n, h) == Sum(n, f) + Sum(n, g)
  {
    if n == 0 {
    } else {
      SumAdd(n - 1, f, g, h);
    }
  }

  lemma {:induction false} SumScale(n: nat, a: real, f: Vector, h: Vector)
    requires forall i: nat :: i < n ==> h(i) == a * f(i)
    ensures Sum(n, h) == a * Sum(n, f)
  {
    if n == 0 {
    } else {
      SumScale(n - 1, a, f, h);
    }
  }

  lemma {:induction false} SumZero(n: nat, f: Vector)
    requires forall i: nat :: i < n ==> f(i) == 0.0
    ensures Sum(n, f) == 0.0
  {
    if n == 0 {
    } else {
      SumZero(n - 1, f);
    }
  }

  // Two vectors that differ at one index only.
  lemma {:induction false} SumChange(n: nat, k: nat, f: Vector, g: Vector)
    requires k < n
    requires forall i: nat :: i < n && i != k ==> f(i) == g(i)
    ensures Sum(n, g) == Sum(n, f) - f(k) + g(k)
  {
    if k == n - 1 { SumExt(n - 1, f, g); } else { SumChange(n - 1, k, f, g); }
  }

  lemma SumSpike(n: nat, k: nat, f: Vector)
    requires k < n
    requires forall i: nat :: i < n && i != k ==> f(i) == 0.0
    ensures Sum(n, f) == f(k)
  {
    var z: Vector := _ => 0.0;
    SumZero(n, z);
    SumChange(n, k, z, f);
  }

  lemma {:induction false} SumNonNegative(n: nat, f: Vector)
    requires forall i: nat :: i < n ==> f(i) >= 0.0
    ensures Sum(n, f) >= 0.0
    ensures forall i: nat :: i < n ==> f(i) <= Sum(n, f)
  {
    if n == 0 {
    } else {
      SumNonNegative(n - 1, f);
    }
  }

  // A positive sum has a positive term.
  lemma {:induction false} SumPositive(n: nat, f: Vector) returns (k: nat)
    requires Sum(n, f) > 0.0
    ensures k < n && f(k) > 0.0
  {
    if f(n - 1) > 0.0 { k := n - 1; } else { k := SumPositive(n - 1, f); }
  }

  // A non-negative sum over a range that has an index with property p, and that is
  // zero off p, has a non-negative term on p.
  lemma {:induction false} SumSomeNonNegative(n: nat, f: Vector, on: nat -> bool) returns (k: nat)
    requires Sum(n, f) >= 0.0
    requires forall i: nat :: i < n && !on(i) ==> f(i) == 0.0
    requires exists i: nat :: i < n && on(i)
    ensures k < n && on(k) && f(k) >= 0.0
  {
    if on(n - 1) && f(n - 1) >= 0.0 {
      k := n - 1;
    } else if exists i: nat :: i < n - 1 && on(i) {
      k := SumSomeNonNegative(n - 1, f, on);
    } else {
      SumZero(n - 1, f);
      assert false;
    }
  }

  lemma {:induction false} TotalSwap(rows: nat, cols: nat, m: Matrix)
    ensures Total(rows, cols, m) == Sum(cols, ColumnTotals(rows, m))
  {
    if rows == 0 {
      SumZero(cols, ColumnTotals(0, m));
    } else {
      TotalSwap(rows - 1, cols, m);
      SumAdd(cols, ColumnTotals(rows - 1, m), Row(m, rows - 1), ColumnTotals(rows, m));
    }
  }

  lemma TotalExt(rows: nat, cols: nat, m: Matrix, m': Matrix)
    requires forall i: nat, j: nat :: i < rows && j < cols ==> m(i, j) == m'(i, j)
    ensures Total(rows, cols, m) == Total(rows, cols, m')
  {
    forall i: nat | i < rows ensures RowTotals(cols, m)(i) == RowTotals(cols, m')(i) {
      SumExt(cols, Row(m, i), Row(m', i));
    }
    SumExt(rows, RowTotals(cols, m), RowTotals(cols, m'));
  }

  lemma PairSumExt(n: nat, on: Relation, m: Matrix, on': Relation, m': Matrix)
    requires forall i: nat, j: nat :: i < n && j < n ==> on(i, j) == on'(i, j)
    requires forall i: nat, j: nat :: i < n && j < n && on(i, j) ==> m(i, j) == m'(i, j)
    ensures PairSum(n, on, m) == PairSum(n, on', m')
  {
    TotalExt(n, n, Masked(on, m), Masked(on', m'));
  }

  lemma PairSumAdd(n: nat, on: Relation, m: Matrix, m': Matrix, sum: Matrix)
    requires forall i: nat, j: nat :: i < n && j < n && on(i, j) ==> sum(i, j) == m(i, j) + m'(i, j)
    ensures PairSum(n, on, sum) == PairSum(n, on, m) + PairSum(n, on, m')
  {
    var a, b, c := Masked(on, m), Masked(on, m'), Masked(on, sum);
    forall i: nat | i < n ensures RowTotals(n, c)(i) == RowTotals(n, a)(i) + RowTotals(n, b)(i) {
      SumAdd(n, Row(a, i), Row(b, i), Row(c, i));
    }
    SumAdd(n, RowTotals(n, a), RowTotals(n, b), RowTotals(n, c));
  }

  // A positive pair sum has a positive entry on its relation.
  lemma PairSumPositive(n: nat, on: Relation, m: Matrix) returns (i: nat, j: nat)
    requires PairSum(n, on, m) > 0.0
    ensures i < n && j < n && on(i, j) && m(i, j) > 0.0
  {
    i := SumPositive(n, RowTotals(n, Masked(on, m)));
    j := SumPositive(n, Row(Masked(on, m), i));
  }

  // Summing, class by class, a matrix entry picked by each member's class is the same
  // as summing over the members.
  ghost function ByClass(lab: seq<nat>, m: Matrix): Matrix {
    (c: nat, v: nat) => if v < |lab| && lab[v] == c then m(c, v) else 0.0
  }

  ghost function AtOwnClass(lab: seq<nat>, m: Matrix): Vector {
    (v: nat) => if v < |lab| then m(lab[v], v) else 0.0
  }

  lemma Regroup(lab: seq<nat>, classes: nat, m: Matrix)
    requires forall v :: 0 <= v < |lab| ==> lab[v] < classes
    ensures Total(classes, |lab|, ByClass(lab, m)) == Sum(|lab|, AtOwnClass(lab, m))
  {
    var b := ByClass(lab, m);
    TotalSwap(classes, |lab|, b);
    forall v: nat | v < |lab|
      ensures ColumnTotals(classes, b)(v) == AtOwnClass(lab, m)(v)
    {
      SumSpike(classes, lab[v], Column(b, v));
    }
    SumExt(|lab|, ColumnTotals(classes, b), AtOwnClass(lab, m));
  }

  // Class sums over all classes add up to the whole.
  ghost function ClassSums(lab: seq<nat>, f: Vector): Vector { (c: nat) => ClassSum(lab, c, f) }

  lemma ClassSumsAddUp(lab: seq<nat>, classes: nat, f: Vector)
    requires forall v :: 0 <= v < |lab| ==> lab[v] < classes
    ensures Sum(classes, ClassSums(lab, f)) == Sum(|lab|, f)
  {
    var m: Matrix := (c: nat, v: nat) => f(v);
    Regroup(lab, classes, m);
    forall c: nat | c < classes
      ensures RowTotals(|lab|, ByClass(lab, m))(c) == ClassSums(lab, f)(c)
    {
      SumExt(|lab|, Row(ByClass(lab, m), c), Class(lab, c, f));
    }
    SumExt(classes, RowTotals(|lab|, ByClass(lab, m)), ClassSums(lab, f));
    SumExt(|lab|, AtOwnClass(lab, m), f);
  }

  lemma ClassSumExt(lab: seq<nat>, c: nat, f: Vector, g: Vector)
    requires forall v :: 0 <= v < |lab| && lab[v] == c ==> f(v) == g(v)
    ensures ClassSum(lab, c, f) == ClassSum(lab, c, g)
  {
    SumExt(|lab|, Class(lab, c, f), Class(lab, c, g));
  }

  // Relabelling one index moves its share from one class to another.
  lemma ClassSumUpdate(lab: seq<nat>, v: nat, to: nat, c: nat, f: Vector)
    requires v < |lab| && to != lab[v]
    ensures ClassSum(lab[v := to], c, f)
         == ClassSum(lab, c, f) + (if c == to then f(v) else 0.0) - (if c == lab[v] then f(v) else 0.0)
  {
    SumChange(|lab|, v, Class(lab, c, f), Class(lab[v := to], c, f));
  }

  // ----- blocks -----

  ghost function Between(lab: seq<nat>, a: nat, b: nat): Relation {
    (i: nat, j: nat) => i < |lab| && j < |lab| && lab[i] == a && lab[j] == b
  }

  ghost function Lift(on: Relation, lab: seq<nat>): Relation {
    (i: nat, j: nat) => i < |lab| && j < |lab| && on(lab[i], lab[j])
  }

  // A matrix over classes whose entries are the block sums of m.
  ghost predicate IsQuotient(lab: seq<nat>, classes: nat, m: Matrix, q: Matrix) {
    && (forall v :: 0 <= v < |lab| ==> lab[v] < classes)
    && (forall a: nat, b: nat :: a < classes && b < classes ==> q(a, b) == PairSum(|lab|, Between(lab, a, b), m))
  }

  // Row v of m summed over the members of class b.
  ghost function RowsOnClass(lab: seq<nat>, b: nat, m: Matrix): Vector {
    (v: nat) => ClassSum(lab, b, Row(m, v))
  }

  lemma BlockByRows(lab: seq<nat>, a: nat, b: nat, m: Matrix)
    ensures PairSum(|lab|, Between(lab, a, b), m) == ClassSum(lab, a, RowsOnClass(lab, b, m))
  {
    var n := |lab|;
    var f := RowsOnClass(lab, b, m);
    var k := Masked(Between(lab, a, b), m);
    forall v: nat | v < n ensures RowTotals(n, k)(v) == Class(lab, a, f)(v) {
      if lab[v] == a {
        SumExt(n, Row(k, v), Class(lab, b, Row(m, v)));
      } else {
        SumZero(n, Row(k, v));
      }
    }
    SumExt(n, RowTotals(n, k), Class(lab, a, f));
  }

  // Row v of m on the indices whose class is related to class a, and its sum.
  ghost function RelatedRow(lab: seq<nat>, on: Relation, m: Matrix, a: nat, v: nat): Vector {
    (u: nat) => if u < |lab| && on(a, lab[u]) then m(v, u) else 0.0
  }

  ghost function Related(lab: seq<nat>, on: Relation, m: Matrix): Matrix {
    (a: nat, v: nat) => Sum(|lab|, RelatedRow(lab, on, m, a, v))
  }

  // The same sum, taken class by class.
  ghost function RelatedClasses(lab: seq<nat>, on: Relation, m: Matrix, a: nat, v: nat): Vector {
    (b: nat) => if on(a, b) then ClassSum(lab, b, Row(m, v)) else 0.0
  }

  ghost function RelatedEntry(on: Relation, m: Matrix, a: nat, v: nat): Matrix {
    (b: nat, u: nat) => if on(a, b) then m(v, u) else 0.0
  }

  lemma RelatedByClass(lab: seq<nat>, classes: nat, on: Relation, m: Matrix, a: nat, v: nat)
    requires forall u :: 0 <= u < |lab| ==> lab[u] < classes
    ensures Sum(classes, RelatedClasses(lab, on, m, a, v)) == Related(lab, on, m)(a, v)
  {
    var n, f, e := |lab|, RelatedClasses(lab, on, m, a, v), RelatedEntry(on, m, a, v);
    Regroup(lab, classes, e);
    forall b: nat | b < classes ensures RowTotals(n, ByClass(lab, e))(b) == f(b) {
      if on(a, b) {
        SumExt(n, Row(ByClass(lab, e), b), Class(lab, b, Row(m, v)));
      } else {
        SumZero(n, Row(ByClass(lab, e), b));
      }
    }
    SumExt(classes, RowTotals(n, ByClass(lab, e)), f);
    SumExt(n, AtOwnClass(lab, e), RelatedRow(lab, on, m, a, v));
  }

  // Row a of the quotient on a relation, as a sum over the members of a.
  lemma QuotientRow(lab: seq<nat>, classes: nat, m: Matrix, q: Matrix, on: Relation, a: nat)
    requires IsQuotient(lab, classes, m, q) && a < classes
    ensures RowTotals(classes, Masked(on, q))(a)
         == RowTotals(|lab|, ByClass(lab, Related(lab, on, m)))(a)
  {
    var n := |lab|;
    // Swap the sum over classes b with the sum over members v of a.
    var e := OnRelated(lab, on, m, a);
    forall b: nat | b < classes ensures RowTotals(n, e)(b) == Row(Masked(on, q), a)(b) {
      if on(a, b) {
        BlockByRows(lab, a, b, m);
        SumExt(n, Row(e, b), Class(lab, a, RowsOnClass(lab, b, m)));
      } else {
        SumZero(n, Row(e, b));
      }
    }
    SumExt(classes, RowTotals(n, e), Row(Masked(on, q), a));
    TotalSwap(classes, n, e);
    var r := Row(ByClass(lab, Related(lab, on, m)), a);
    forall v: nat | v < n ensures ColumnTotals(classes, e)(v) == r(v) {
      if lab[v] == a {
        RelatedByClass(lab, classes, on, m, a, v);
        SumExt(classes, Column(e, v), RelatedClasses(lab, on, m, a, v));
      } else {
        SumZero(classes, Column(e, v));
      }
    }
    SumExt(n, ColumnTotals(classes, e), r);
  }

  ghost function OnRelated(lab: seq<nat>, on: Relation, m: Matrix, a: nat): Matrix {
    (b: nat, v: nat) => if v < |lab| && lab[v] == a && on(a, b) then ClassSum(lab, b, Row(m, v)) else 0.0
  }

  /** Pair sums of a quotient are pair sums of the original over the lifted relation. */
  lemma QuotientPairSum(lab: seq<nat>, classes: nat, m: Matrix, q: Matrix, on: Relation)
    requires IsQuotient(lab, classes, m, q)
    ensures PairSum(classes, on, q) == PairSum(|lab|, Lift(on, lab), m)
  {
    var n := |lab|;
    var e := ByClass(lab, Related(lab, on, m));
    forall a: nat | a < classes
      ensures RowTotals(classes, Masked(on, q))(a) == RowTotals(n, e)(a)
    {
      QuotientRow(lab, classes, m, q, on, a);
    }
    SumExt(classes, RowTotals(classes, Masked(on, q)), RowTotals(n, e));
    Regroup(lab, classes, Related(lab, on, m));
    var k := Masked(Lift(on, lab), m);
    forall v: nat | v < n
      ensures AtOwnClass(lab, Related(lab, on, m))(v) == RowTotals(n, k)(v)
    {
      SumExt(n, Row(k, v), RelatedRow(lab, on, m, lab[v], v));
    }
    SumExt(n, AtOwnClass(lab, Related(lab, on, m)), RowTotals(n, k));
  }

  // Reading class labels through a first labelling: the label of an index is the label of its class.
  function Compose(lab: seq<nat>, next: seq<nat>): (r: seq<nat>)
    requires forall v :: 0 <= v < |lab| ==> lab[v] < |next|
    ensures |r| == |lab| && forall v :: 0 <= v < |lab| ==> r[v] == next[lab[v]]
  {
    seq(|lab|, v requires 0 <= v < |lab| => next[lab[v]])
  }

  /** A quotient of a quotient is the quotient by the composed labelling. */
  lemma QuotientCompose(lab: seq<nat>, classes: nat, m: Matrix, q: Matrix, next: seq<nat>, classes': nat, q': Matrix)
    requires IsQuotient(lab, classes, m, q) && |next| == classes
    requires IsQuotient(next, classes', q, q')
    ensures IsQuotient(Compose(lab, next), classes', m, q')
  {
    var both := Compose(lab, next);
    forall a: nat, b: nat | a < classes' && b < classes'
      ensures q'(a, b) == PairSum(|both|, Between(both, a, b), m)
    {
      QuotientPairSum(lab, classes, m, q, Between(next, a, b));
      PairSumExt(|lab|, Lift(Between(next, a, b), lab), m, Between(both, a, b), m);
    }
  }

  // The products of two vectors, as a matrix.
  ghost function Products(f: Vector, g: Vector): Matrix { (i: nat, j: nat) => f(i) * g(j) }

  ghost function Scaled(a: real, f: Vector): Vector { (i: nat) => a * f(i) }

  lemma ClassSumScale(lab: seq<nat>, c: nat, a: real, f: Vector)
    ensures ClassSum(lab, c, Scaled(a, f)) == a * ClassSum(lab, c, f)
  {
    forall v: nat | v < |lab|
      ensures Class(lab, c, Scaled(a, f))(v) == a * Class(lab, c, f)(v)
    {
      if lab[v] != c { assert a * 0.0 == 0.0; }
    }
    SumScale(|lab|, a, Class(lab, c, f), Class(lab, c, Scaled(a, f)));
  }

  // The block sum of products is the product of the class sums.
  lemma BlockOfProducts(lab: seq<nat>, a: nat, b: nat, f: Vector, g: Vector)
    ensures PairSum(|lab|, Between(lab, a, b), Products(f, g)) == ClassSum(lab, b, g) * ClassSum(lab, a, f)
  {
    var m, total := Products(f, g), ClassSum(lab, b, g);
    BlockByRows(lab, a, b, m);
    forall v: nat | v < |lab| ensures RowsOnClass(lab, b, m)(v) == Scaled(total, f)(v) {
      ClassSumScale(lab, b, f(v), g);
      ClassSumExt(lab, b, Row(m, v), Scaled(f(v), g));
    }
    ClassSumExt(lab, a, RowsOnClass(lab, b, m), Scaled(total, f));
    ClassSumScale(lab, a, total, f);
  }
}
