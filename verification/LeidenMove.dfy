// Queue-driven local moving: its specification on plain values with every gain taken
// from its definition, what a whole run achieves, and the array code that keeps sizes
// and weights incrementally.
module LeidenMove {
  import opened RealSums
  import opened Sets
  import opened LeidenLevel

  // ----- gains -----

  ghost function Others(p: seq<nat>, v: nat, c: nat): nat -> bool {
    (u: nat) => u < |p| && u != v && p[u] == c
  }

  // Excess weight between v and the other members of community c.
  ghost function LinkGain(m: Matrix, p: seq<nat>, v: nat, c: nat): real {
    Sum(|p|, Restrict(Others(p, v, c), Row(m, v)))
  }

  ghost predicate Alone(p: seq<nat>, v: nat)
    requires v < |p|
  {
    forall u :: 0 <= u < |p| && u != v ==> p[u] != p[v]
  }

  ghost predicate Touches(g: Level, p: seq<nat>, v: nat, c: nat) {
    exists u: nat :: u < |p| && p[u] == c && Adjacent(g, v, u)
  }

  /** Moving one node changes the objective by twice the difference of its gains. */
  lemma MoveChangesObjective(m: Matrix, p: seq<nat>, v: nat, c: nat)
    requires v < |p| && c != p[v] && Symmetric(|p|, m)
    ensures Objective(m, p[v := c]) == Objective(m, p) + 2.0 * (LinkGain(m, p, v, c) - LinkGain(m, p, v, p[v]))
  {
    var n, q, d := |p|, p[v := c], p[v];
    var before, after := Masked(SameLabel(p), m), Masked(SameLabel(q), m);
    var into, outof := Restrict(Others(p, v, c), Row(m, v)), Restrict(Others(p, v, d), Row(m, v));
    var rise := LinkGain(m, p, v, c) - LinkGain(m, p, v, d);
    // Row v loses the old community and gains the new one.
    SumChange(n, v, into, Row(after, v));
    SumChange(n, v, outof, Row(before, v));
    assert RowTotals(n, after)(v) == RowTotals(n, before)(v) + rise;
    // Every other row changes in column v only.
    forall x: nat | x < n && x != v
      ensures RowTotals(n, after)(x) == RowTotals(n, before)(x) + into(x) - outof(x)
    {
      SumChange(n, v, Row(before, x), Row(after, x));
      assert m(x, v) == m(v, x);
    }
    var column: Vector := (x: nat) => if x == v then rise else into(x) + Scaled(-1.0, outof)(x);
    SumAdd(n, RowTotals(n, before), column, RowTotals(n, after));
    var offDiagonal: Vector := (x: nat) => into(x) + Scaled(-1.0, outof)(x);
    SumAdd(n, into, Scaled(-1.0, outof), offDiagonal);
    SumScale(n, -1.0, outof, Scaled(-1.0, outof));
    SumChange(n, v, offDiagonal, column);
  }

  // ----- the specification of one visit -----

  // The community with the strictly best gain among the current one and the touched
  // communities below c, taken in ascending order.
  ghost function BestBelow(g: Level, m: Matrix, p: seq<nat>, v: nat, c: nat): nat
    requires v < |p|
  {
    if c == 0 then p[v] else
      var best := BestBelow(g, m, p, v, c - 1);
      if Touches(g, p, v, c - 1) && LinkGain(m, p, v, c - 1) > LinkGain(m, p, v, best) then c - 1 else best
  }

  datatype MoveState = MoveState(part: seq<nat>, empty: seq<nat>, queue: seq<nat>, moved: bool)

  ghost predicate Distinct(s: seq<nat>) { forall i, j :: 0 <= i < j < |s| ==> s[i] != s[j] }

  // Nodes without strength never share a community.
  ghost predicate InertAlone(g: Level, p: seq<nat>)
    requires |p| == |g.adj|
  {
    forall v: nat :: v < |p| && Strength(g)(v) == 0.0 ==> Alone(p, v)
  }

  ghost predicate MoveOk(g: Level, s: MoveState) {
    && Labelling(s.part, |g.adj|) && InertAlone(g, s.part)
    && Distinct(s.queue) && (forall i :: 0 <= i < |s.queue| ==> s.queue[i] < |g.adj|)
    && Distinct(s.empty) && (forall c: nat :: c in s.empty <==> c < |g.adj| && c !in s.part)
  }

  // Where a visited node goes: the best touched community, or an empty one when even
  // that is worse than standing alone.
  ghost function Target(g: Level, m: Matrix, s: MoveState, v: nat): nat
    requires v < |s.part|
  {
    var best := BestBelow(g, m, s.part, v, |s.part|);
    if LinkGain(m, s.part, v, best) < 0.0 && !Alone(s.part, v) && s.empty != []
    then s.empty[|s.empty| - 1] else best
  }

  ghost predicate OpensEmpty(g: Level, m: Matrix, s: MoveState, v: nat)
    requires v < |s.part|
  {
    LinkGain(m, s.part, v, BestBelow(g, m, s.part, v, |s.part|)) < 0.0 && !Alone(s.part, v) && s.empty != []
  }

  // Neighbours below k left outside the target join the queue in ascending order.
  ghost function Requeued(g: Level, p: seq<nat>, v: nat, queue: seq<nat>, k: nat): seq<nat>
    requires v < |p| && k <= |p|
  {
    if k == 0 then queue else
      var q := Requeued(g, p, v, queue, k - 1);
      if Adjacent(g, v, k - 1) && p[k - 1] != p[v] && k - 1 !in q then q + [k - 1] else q
  }

  ghost function MoveStep(g: Level, m: Matrix, s: MoveState): MoveState
    requires s.queue != [] && s.queue[0] < |s.part|
  {
    var v, rest := s.queue[0], s.queue[1..];
    var target := Target(g, m, s, v);
    var popped := if OpensEmpty(g, m, s, v) then s.empty[..|s.empty| - 1] else s.empty;
    if target == s.part[v] then s.(queue := rest, empty := popped) else
      var part := s.part[v := target];
      var empty := if Alone(s.part, v) then popped + [s.part[v]] else popped;
      MoveState(part, empty, Requeued(g, part, v, rest, |part|), true)
  }

  // ----- one visit keeps the invariant and raises the objective -----

  lemma {:induction false} BestBelowGain(g: Level, m: Matrix, p: seq<nat>, v: nat, c: nat)
    requires v < |p|
    ensures var best := BestBelow(g, m, p, v, c);
            && (best == p[v] || (best < c && Touches(g, p, v, best) && LinkGain(m, p, v, best) > LinkGain(m, p, v, p[v])))
            && LinkGain(m, p, v, best) >= LinkGain(m, p, v, p[v])
            && forall d: nat :: d < c && Touches(g, p, v, d) ==> LinkGain(m, p, v, d) <= LinkGain(m, p, v, best)
  {
    if c == 0 {
    } else {
      BestBelowGain(g, m, p, v, c - 1);
    }
  }

  /** The choice is the first community of maximal gain, the current one winning ties. */
  lemma {:induction false} BestBelowFirst(g: Level, m: Matrix, p: seq<nat>, v: nat, c: nat, d: nat)
    requires v < |p| && d < c && Touches(g, p, v, d)
    ensures var best := BestBelow(g, m, p, v, c);
            best != p[v] && d < best ==> LinkGain(m, p, v, d) < LinkGain(m, p, v, best)
  {
    if c > 0 && d < c - 1 { BestBelowFirst(g, m, p, v, c - 1, d); }
    BestBelowGain(g, m, p, v, c - 1);
  }

  lemma EmptyGain(m: Matrix, p: seq<nat>, v: nat, c: nat)
    requires c !in p
    ensures LinkGain(m, p, v, c) == 0.0
  {
    SumZero(|p|, Restrict(Others(p, v, c), Row(m, v)));
  }

  lemma AdjacentMutual(g: Level, v: nat, u: nat)
    requires Valid(g)
    ensures Adjacent(g, v, u) <==> Adjacent(g, u, v)
    ensures Adjacent(g, v, u) ==> u < |g.adj| && v < |g.adj| && u != v && Weight(g, v, u) > 0.0
  {
  }

  lemma ValidStrength(g: Level, v: nat)
    requires Valid(g) && v < |g.adj|
    ensures Strength(g)(v) == Sum(|g.adj|, Row(Weights(g), v)) + 2.0 * g.inner[v] && g.inner[v] >= 0.0
  {
  }

  lemma NeighboursHaveStrength(g: Level, v: nat, u: nat)
    requires Valid(g) && Adjacent(g, v, u)
    ensures Strength(g)(v) > 0.0
  {
    hide Valid;
    var f := Row(Weights(g), v);
    ValidStrength(g, v);
    forall x: nat | x < |g.adj| ensures f(x) >= 0.0 { AdjacentMutual(g, v, x); }
    SumNonNegative(|g.adj|, f);
    AdjacentMutual(g, v, u);
    assert f(u) > 0.0;
  }

  lemma InertHasNoNeighbours(g: Level, v: nat)
    requires Valid(g) && v < |g.adj| && Strength(g)(v) == 0.0
    ensures forall u: nat :: !Adjacent(g, v, u) && !Adjacent(g, u, v)
  {
    forall u: nat ensures !Adjacent(g, v, u) && !Adjacent(g, u, v) {
      AdjacentMutual(g, v, u);
      if Adjacent(g, v, u) { NeighboursHaveStrength(g, v, u); }
    }
  }

  lemma {:induction false} RequeuedFacts(g: Level, p: seq<nat>, v: nat, queue: seq<nat>, k: nat)
    requires v < |p| && k <= |p| && Distinct(queue) && (forall i :: 0 <= i < |queue| ==> queue[i] < |p|)
    ensures var q := Requeued(g, p, v, queue, k);
            && Distinct(q) && (forall i :: 0 <= i < |q| ==> q[i] < |p|)
            && (forall u: nat :: u in q <==> u in queue || (u < k && Adjacent(g, v, u) && p[u] != p[v]))
  {
    if k == 0 {
    } else {
      RequeuedFacts(g, p, v, queue, k - 1);
    }
  }

  lemma TargetRises(g: Level, m: Matrix, s: MoveState, v: nat)
    requires MoveOk(g, s) && v < |s.part|
    ensures var t := Target(g, m, s, v);
            && t < |s.part|
            && (OpensEmpty(g, m, s, v) ==> t !in s.part)
            && (t != s.part[v] ==> LinkGain(m, s.part, v, t) > LinkGain(m, s.part, v, s.part[v]))
            && (t != s.part[v] && !OpensEmpty(g, m, s, v) ==> Touches(g, s.part, v, t))
  {
    BestBelowGain(g, m, s.part, v, |s.part|);
    if OpensEmpty(g, m, s, v) {
      var t := s.empty[|s.empty| - 1];
      assert t in s.empty;
      EmptyGain(m, s.part, v, t);
    }
  }

  lemma InertStaysAlone(g: Level, m: Matrix, s: MoveState)
    requires Valid(g) && MoveOk(g, s) && s.queue != []
    ensures InertAlone(g, MoveStep(g, m, s).part)
  {
    hide LinkGain, BestBelow, Target, Requeued, Valid, Strength, Adjacent, Distinct;
    var p, v, q := s.part, s.queue[0], MoveStep(g, m, s).part;
    TargetRises(g, m, s, v);
    var t := Target(g, m, s, v);
    if t != p[v] {
      forall z: nat | z < |p| && Strength(g)(z) == 0.0 ensures Alone(q, z) {
        InertHasNoNeighbours(g, z);
        assert z != v;
        assert Alone(p, z) && p[v] != p[z];
        assert t != p[z];
      }
    }
  }

  lemma LabelsAfterMove(p: seq<nat>, v: nat, t: nat)
    requires v < |p| && t != p[v]
    ensures forall c: nat :: c in p[v := t] <==> c == t || (c in p && !(c == p[v] && Alone(p, v)))
  {
    var q := p[v := t];
    assert q[v] == t;
    forall c: nat ensures c in q <==> c == t || (c in p && !(c == p[v] && Alone(p, v))) {
      if c in p && c != p[v] {
        var i :| 0 <= i < |p| && p[i] == c;
        assert q[i] == c;
      } else if c == p[v] && !Alone(p, v) {
        var u :| 0 <= u < |p| && u != v && p[u] == p[v];
        assert q[u] == c;
      }
    }
  }

  // The stack of unused labels after a move from label d to label t.
  lemma EmptyAfterMove(empty: seq<nat>, p: seq<nat>, v: nat, t: nat, popped: seq<nat>)
    requires v < |p| && t != p[v] && t < |p| && Labelling(p, |p|)
    requires Distinct(empty) && forall c: nat :: c in empty <==> c < |p| && c !in p
    requires if t in p then popped == empty else empty == popped + [t]
    ensures var empty' := if Alone(p, v) then popped + [p[v]] else popped;
            Distinct(empty') && forall c: nat :: c in empty' <==> c < |p| && c !in p[v := t]
  {
    LabelsAfterMove(p, v, t);
    assert p[v] in p && p[v] !in empty;
    if t !in p {
      forall i | 0 <= i < |popped| ensures popped[i] != t { assert empty[i] != empty[|popped|]; }
    }
    forall i | 0 <= i < |popped| ensures popped[i] != p[v] { assert empty[i] in empty; }
    forall i, j | 0 <= i < j < |popped| ensures popped[i] != popped[j] { assert empty[i] != empty[j]; }
    assert forall c: nat :: c in popped <==> c in empty && c != t;
  }

  lemma TargetLabel(g: Level, m: Matrix, s: MoveState, v: nat)
    requires MoveOk(g, s) && v < |s.part|
    ensures var t := Target(g, m, s, v);
            if OpensEmpty(g, m, s, v) then s.empty != [] && t == s.empty[|s.empty| - 1] else t in s.part
  {
    TargetRises(g, m, s, v);
  }

  lemma StepKeepsLabels(g: Level, m: Matrix, s: MoveState)
    requires MoveOk(g, s) && s.queue != []
    ensures var s' := MoveStep(g, m, s);
            && Labelling(s'.part, |g.adj|)
            && Distinct(s'.queue) && (forall i :: 0 <= i < |s'.queue| ==> s'.queue[i] < |g.adj|)
            && Distinct(s'.empty) && (forall c: nat :: c in s'.empty <==> c < |g.adj| && c !in s'.part)
  {
    hide LinkGain, BestBelow, Target, OpensEmpty, Requeued, InertAlone, Alone, Touches;
    var p, v, rest := s.part, s.queue[0], s.queue[1..];
    TargetRises(g, m, s, v);
    TargetLabel(g, m, s, v);
    var t := Target(g, m, s, v);
    assert p[v] in p;
    if t != p[v] {
      RequeuedFacts(g, p[v := t], v, rest, |p|);
      var popped := if OpensEmpty(g, m, s, v) then s.empty[..|s.empty| - 1] else s.empty;
      EmptyAfterMove(s.empty, p, v, t, popped);
    }
  }

  /** Every visit keeps the invariant; a visit that moves its node strictly raises the objective. */
  lemma StepOk(g: Level, m: Matrix, s: MoveState)
    requires Valid(g) && Symmetric(|g.adj|, m) && MoveOk(g, s) && s.queue != []
    ensures MoveOk(g, MoveStep(g, m, s))
    ensures var s' := MoveStep(g, m, s); var v := s.queue[0];
            if s'.part == s.part then s'.queue == s.queue[1..] && s'.moved == s.moved && Target(g, m, s, v) == s.part[v]
            else && s'.moved && s'.part[v] != s.part[v]
                 && Objective(m, s'.part) == Objective(m, s.part)
                      + 2.0 * (LinkGain(m, s.part, v, s'.part[v]) - LinkGain(m, s.part, v, s.part[v]))
                 && Objective(m, s'.part) > Objective(m, s.part)
  {
    hide LinkGain, BestBelow, Target, OpensEmpty, Requeued, Valid, InertAlone, Distinct, Objective, Touches, Alone;
    StepKeepsLabels(g, m, s);
    InertStaysAlone(g, m, s);
    var v := s.queue[0];
    TargetRises(g, m, s, v);
    var t := Target(g, m, s, v);
    if t != s.part[v] {
      MoveChangesObjective(m, s.part, v, t);
      assert s.part[v := t][v] == t;
    }
  }

  // ----- termination: there are finitely many labellings to climb through -----

  ghost function Labellings(n: nat, k: nat): set<seq<nat>> {
    if n == 0 then {[]} else set s, c | s in Labellings(n - 1, k) && 0 <= c < k :: s + [c]
  }

  lemma {:induction false} LabellingsComplete(n: nat, k: nat, p: seq<nat>)
    requires |p| == n && forall v :: 0 <= v < n ==> p[v] < k
    ensures p in Labellings(n, k)
  {
    if n == 0 {
    } else {
      LabellingsComplete(n - 1, k, p[..n - 1]);
      assert p == p[..n - 1] + [p[n - 1]];
    }
  }

  // The labellings that beat p: what is left to climb.
  ghost function Better(m: Matrix, p: seq<nat>): set<seq<nat>> {
    set q | q in Labellings(|p|, |p|) && Objective(m, q) > Objective(m, p)
  }

  lemma BetterShrinks(m: Matrix, p: seq<nat>, q: seq<nat>)
    requires Labelling(p, |p|) && Labelling(q, |p|) && Objective(m, q) >= Objective(m, p)
    ensures |Better(m, q)| <= |Better(m, p)| <= |Labellings(|p|, |p|)|
    ensures Objective(m, q) > Objective(m, p) ==> |Better(m, q)| < |Better(m, p)|
  {
    LabellingsComplete(|q|, |q|, q);
    SubsetCard(Better(m, q), Better(m, p));
    SubsetCard(Better(m, p), Labellings(|p|, |p|));
    if Objective(m, q) > Objective(m, p) {
      assert q in Better(m, p) && q !in Better(m, q);
    }
  }

  // ----- whole runs -----

  /** Visits until the queue is empty. Terminates because a move leaves fewer labellings
      to climb and any other visit shortens the queue. */
  ghost function MoveRun(g: Level, m: Matrix, s: MoveState): MoveState
    requires Valid(g) && Symmetric(|g.adj|, m) && MoveOk(g, s)
    decreases |Better(m, s.part)|, |s.queue|
  {
    if s.queue == [] then s else
      StepOk(g, m, s);
      BetterShrinks(m, s.part, MoveStep(g, m, s).part);
      MoveRun(g, m, MoveStep(g, m, s))
  }

  // No touched community and not even standing alone is better for v.
  ghost predicate Settled(g: Level, m: Matrix, p: seq<nat>, v: nat)
    requires v < |p|
  {
    && (Alone(p, v) || LinkGain(m, p, v, p[v]) >= 0.0)
    && forall c: nat :: c < |p| && Touches(g, p, v, c) ==> LinkGain(m, p, v, c) <= LinkGain(m, p, v, p[v])
  }

  // With a shared community some label is unused, so an empty community is always at hand.
  ghost function Elements(p: seq<nat>): set<nat> { set x | x in p }

  lemma {:induction false} DistinctEntries(p: seq<nat>)
    ensures |Elements(p)| <= |p|
  {
    if p == [] {
    } else {
      var l, rest := p[|p| - 1], p[..|p| - 1];
      DistinctEntries(rest);
      assert p == rest + [l];
      assert Elements(p) == Elements(rest) + {l};
    }
  }

  lemma {:induction false} IdentityCard(n: nat)
    ensures |Elements(Identity(n))| == n
  {
    if n == 0 {
    } else {
      IdentityCard(n - 1);
      assert Identity(n) == Identity(n - 1) + [n - 1];
      assert Elements(Identity(n)) == Elements(Identity(n - 1)) + {n - 1};
    }
  }

  lemma EmptyAtHand(g: Level, s: MoveState, v: nat)
    requires MoveOk(g, s) && v < |s.part| && !Alone(s.part, v)
    ensures s.empty != []
  {
    var p, n := s.part, |s.part|;
    if s.empty == [] {
      var u :| 0 <= u < n && u != v && p[u] == p[v];
      var rest := p[..v] + p[v + 1..];
      DistinctEntries(rest);
      IdentityCard(n);
      forall x: nat | x < n ensures x in rest {
        assert x in p;
        var i :| 0 <= i < n && p[i] == x;
        var j := if i == v then u else i;
        assert p[j] == x && j != v;
        assert rest[if j < v then j else j - 1] == x;
      }
      assert Elements(Identity(n)) <= Elements(rest);
      SubsetCard(Elements(Identity(n)), Elements(rest));
      assert false;
    }
  }

  lemma QuietStepSettled(g: Level, m: Matrix, s: MoveState)
    requires MoveOk(g, s) && s.queue != [] && s.queue[0] < |s.part| && Target(g, m, s, s.queue[0]) == s.part[s.queue[0]]
    ensures Settled(g, m, s.part, s.queue[0])
  {
    var v := s.queue[0];
    TargetRises(g, m, s, v);
    BestBelowGain(g, m, s.part, v, |s.part|);
    if !Alone(s.part, v) { EmptyAtHand(g, s, v); }
  }

  /** A whole run keeps the labelling well formed and never lowers the objective; it raises
      it if anything moved, and otherwise every queued node was settled where it stood. */
  lemma {:induction false} RunOutcome(g: Level, m: Matrix, s: MoveState)
    requires Valid(g) && Symmetric(|g.adj|, m) && MoveOk(g, s)
    ensures var r := MoveRun(g, m, s);
            && MoveOk(g, r) && r.queue == []
            && Objective(m, r.part) >= Objective(m, s.part)
            && (r.moved && !s.moved ==> Objective(m, r.part) > Objective(m, s.part))
            && (!r.moved ==> !s.moved && r.part == s.part && forall v: nat :: v in s.queue ==> v < |s.part| && Settled(g, m, s.part, v))
    decreases |Better(m, s.part)|, |s.queue|
  {
    if s.queue == [] {
    } else {
      var s' := MoveStep(g, m, s);
      StepOk(g, m, s);
      BetterShrinks(m, s.part, s'.part);
      RunOutcome(g, m, s');
      if !MoveRun(g, m, s).moved {
        QuietStepSettled(g, m, s);
        assert forall v :: v in s.queue ==> v == s.queue[0] || v in s.queue[1..];
      }
    }
  }

  // ----- visits and runs, exactly -----

  // Every community on offer, the current one included, costs a node that is in company.
  ghost predicate BetterAlone(g: Level, m: Matrix, p: seq<nat>, v: nat)
    requires v < |p|
  {
    (exists u :: 0 <= u < |p| && u != v && p[u] == p[v])
    && LinkGain(m, p, v, p[v]) < 0.0
    && forall c: nat :: c < |p| && (exists u: nat :: u < |p| && p[u] == c && Adjacent(g, v, u)) ==> LinkGain(m, p, v, c) < 0.0
  }

  /** A visited node that is better alone takes the unused label on top; any other goes to a
      touched community of greatest gain, staying where nothing is strictly better and else
      taking the smallest among equals. */
  lemma TargetExact(g: Level, m: Matrix, s: MoveState, v: nat)
    requires MoveOk(g, s) && v < |s.part|
    ensures var t, p := Target(g, m, s, v), s.part;
            if BetterAlone(g, m, p, v) then s.empty != [] && t == s.empty[|s.empty| - 1] && t != p[v]
            else
              && (t == p[v] || (Touches(g, p, v, t) && LinkGain(m, p, v, t) > LinkGain(m, p, v, p[v])))
              && (forall d: nat :: d < |p| && Touches(g, p, v, d) ==>
                    (LinkGain(m, p, v, d) <= LinkGain(m, p, v, t)
                     && (t != p[v] && d < t ==> LinkGain(m, p, v, d) < LinkGain(m, p, v, t))))
    ensures OpensEmpty(g, m, s, v) <==> BetterAlone(g, m, s.part, v)
  {
    hide LinkGain, InertAlone;
    var p := s.part;
    BestBelowGain(g, m, p, v, |p|);
    forall d: nat | d < |p| && Touches(g, p, v, d)
      ensures var best := BestBelow(g, m, p, v, |p|); best != p[v] && d < best ==> LinkGain(m, p, v, d) < LinkGain(m, p, v, best)
    {
      BestBelowFirst(g, m, p, v, |p|, d);
    }
    TouchesAre(g, p, v);
    if !Alone(p, v) {
      EmptyAtHand(g, s, v);
      assert s.empty[|s.empty| - 1] in s.empty;
    }
  }

  lemma TouchesAre(g: Level, p: seq<nat>, v: nat)
    ensures forall c: nat :: Touches(g, p, v, c) <==> exists u: nat :: u < |p| && p[u] == c && Adjacent(g, v, u)
    ensures v < |p| ==> (Alone(p, v) <==> !exists u :: 0 <= u < |p| && u != v && p[u] == p[v])
  {
  }

  lemma {:induction false} RequeuedOrder(g: Level, p: seq<nat>, v: nat, queue: seq<nat>, k: nat)
    requires v < |p| && k <= |p|
    ensures var q := Requeued(g, p, v, queue, k);
            && queue <= q && (forall i :: |queue| <= i < |q| ==> q[i] < k)
            && (forall i, j :: |queue| <= i < j < |q| ==> q[i] < q[j])
  {
    if k == 0 {
    } else {
      RequeuedOrder(g, p, v, queue, k - 1);
    }
  }

  /** What one visit changes: the label of the visited node, the stack of unused labels, and the
      queue, where exactly the neighbours left outside and not waiting are appended, ascending. */
  lemma MoveStepExact(g: Level, m: Matrix, s: MoveState)
    requires MoveOk(g, s) && s.queue != []
    ensures var v, rest, p, s' := s.queue[0], s.queue[1..], s.part, MoveStep(g, m, s);
            v < |p| && |s'.part| == |p| &&
            var t, n := s'.part[v], |s.empty|;
            && t == Target(g, m, s, v) && (forall u :: 0 <= u < |p| && u != v ==> s'.part[u] == p[u])
            && (s'.moved <==> s.moved || t != p[v])
            && rest <= s'.queue && (forall i, j :: |rest| <= i < j < |s'.queue| ==> s'.queue[i] < s'.queue[j])
            && (forall u: nat :: u in s'.queue <==>
                  u in rest || (t != p[v] && u < |p| && Adjacent(g, v, u) && s'.part[u] != t))
            && s'.empty == (if BetterAlone(g, m, p, v) then s.empty[..if n > 0 then n - 1 else 0] else s.empty)
                           + (if t != p[v] && Alone(p, v) then [p[v]] else [])
  {
    hide LinkGain, InertAlone, Target, OpensEmpty, BetterAlone;
    var v, rest, p := s.queue[0], s.queue[1..], s.part;
    TargetExact(g, m, s, v);
    var t := Target(g, m, s, v);
    if OpensEmpty(g, m, s, v) { OpensNotEmpty(g, m, s, v); }
    TargetLabel(g, m, s, v);
    RequeuedOrder(g, p[v := t], v, rest, |p|);
    RequeuedFacts(g, p[v := t], v, rest, |p|);
  }

  lemma OpensNotEmpty(g: Level, m: Matrix, s: MoveState, v: nat)
    requires v < |s.part|
    ensures OpensEmpty(g, m, s, v) ==> s.empty != []
  {
  }

  /** A run is visit after visit until the queue is empty, none left out. */
  lemma {:induction false} RunSteps(g: Level, m: Matrix, s: MoveState) returns (states: seq<MoveState>)
    requires Valid(g) && Symmetric(|g.adj|, m) && MoveOk(g, s)
    ensures |states| > 0 && states[0] == s && states[|states| - 1] == MoveRun(g, m, s) && states[|states| - 1].queue == []
    ensures forall i :: 0 <= i < |states| - 1 ==>
              MoveOk(g, states[i]) && states[i].queue != [] && states[i + 1] == MoveStep(g, m, states[i])
    decreases |Better(m, s.part)|, |s.queue|
  {
    hide MoveStep, Valid, Better, MoveOk;
    if s.queue == [] {
      states := [s];
    } else {
      StepHead(g, m, s);
      StepOk(g, m, s);
      StepClimbs(g, m, s);
      var rest := RunSteps(g, m, MoveStep(g, m, s));
      states := [s] + rest;
    }
  }

  lemma StepHead(g: Level, m: Matrix, s: MoveState)
    requires MoveOk(g, s) && s.queue != []
    ensures s.queue[0] < |s.part| && Labelling(s.part, |s.part|)
  {
  }

  lemma StepClimbs(g: Level, m: Matrix, s: MoveState)
    requires Valid(g) && Symmetric(|g.adj|, m) && MoveOk(g, s) && s.queue != []
    ensures var s' := MoveStep(g, m, s);
            |Better(m, s'.part)| < |Better(m, s.part)| || (|Better(m, s'.part)| == |Better(m, s.part)| && |s'.queue| < |s.queue|)
  {
    hide MoveStep, Valid, Better;
    StepOk(g, m, s);
    BetterShrinks(m, s.part, MoveStep(g, m, s).part);
  }

  // The gain of a node from the others of a community, in numbers.
  lemma GainInNumbers(g: Level, gamma: real, total: real, p: seq<nat>, v: nat, c: nat, link: Vector, strength: Vector)
    requires Valid(g) && total > 0.0 && v < |p| == |g.adj|
    requires forall u: nat :: u < |p| ==> link(u) == if u != v && p[u] == c then Weight(g, v, u) else 0.0
    requires forall u: nat :: u < |p| ==> strength(u) == if u != v && p[u] == c then Strength(g)(u) else 0.0
    ensures LinkGain(Excess(g, gamma, total), p, v, c)
         == Sum(|p|, link) - gamma * Strength(g)(v) * Sum(|p|, strength) / total
  {
    hide Valid, Sum;
    var on := Others(p, v, c);
    ExcessSum(g, gamma, total, v, on);
    SumExt(|p|, Restrict(on, Row(Affinity(g), v)), link);
    SumExt(|p|, Restrict(on, Strength(g)), strength);
  }

  // Unused labels from c up, largest first, so that the smallest is popped first.
  ghost function UnusedFrom(p: seq<nat>, c: nat): seq<nat>
    requires c <= |p|
    decreases |p| - c
  {
    if c == |p| then [] else UnusedFrom(p, c + 1) + (if c in p then [] else [c])
  }

  ghost function MoveStart(p: seq<nat>): MoveState {
    MoveState(p, UnusedFrom(p, 0), Identity(|p|), false)
  }

  lemma {:induction false} UnusedFacts(p: seq<nat>, c: nat)
    requires c <= |p|
    ensures var e := UnusedFrom(p, c);
            Distinct(e) && (forall x: nat :: x in e <==> c <= x < |p| && x !in p)
    decreases |p| - c
  {
    if c < |p| { UnusedFacts(p, c + 1); }
  }

  lemma {:induction false} UnusedDescend(p: seq<nat>, c: nat)
    requires c <= |p|
    ensures forall i, j :: 0 <= i < j < |UnusedFrom(p, c)| ==> UnusedFrom(p, c)[i] > UnusedFrom(p, c)[j]
    decreases |p| - c
  {
    UnusedFacts(p, c);
    if c < |p| {
      UnusedFacts(p, c + 1);
      UnusedDescend(p, c + 1);
      var rest := UnusedFrom(p, c + 1);
      forall i | 0 <= i < |rest| ensures rest[i] > c { assert rest[i] in rest; }
    }
  }

  /** Local moving starts with every node queued in order and the unused labels stacked with the
      smallest on top. */
  lemma StartExact(p: seq<nat>)
    ensures var s := MoveStart(p);
            && s.part == p && !s.moved && |s.queue| == |p| && (forall v :: 0 <= v < |p| ==> s.queue[v] == v)
            && (forall c: nat :: c in s.empty <==> c < |p| && c !in p)
            && (forall i, j :: 0 <= i < j < |s.empty| ==> s.empty[i] > s.empty[j])
  {
    UnusedFacts(p, 0);
    UnusedDescend(p, 0);
  }

  lemma StartOk(g: Level, p: seq<nat>)
    requires Labelling(p, |g.adj|) && InertAlone(g, p)
    ensures MoveOk(g, MoveStart(p))
  {
    UnusedFacts(p, 0);
  }

  // ----- the array code -----

  // Kept neighbours carrying label c.
  ghost function Kept(lab: seq<nat>, keep: nat -> bool, c: nat): nat -> bool {
    (u: nat) => u < |lab| && keep(u) && lab[u] == c
  }

  lemma WeightsStep(g: Level, v: nat, p: seq<nat>, keep: nat -> bool, u: nat, was: map<nat, real>, out: map<nat, real>)
    requires v < |g.adj| && u < |p| == |g.adj|
    requires out == if u in g.adj[v] && keep(u) then AddTo(was, p[u], g.adj[v][u]) else was
    ensures forall c: nat :: c in out <==> c in was || (p[u] == c && keep(u) && Adjacent(g, v, u))
    ensures forall c: nat :: RowWeights(out)(c) == RowWeights(was)(c) + Restrict(Kept(p, keep, c), Row(Weights(g), v))(u)
  {
  }

  lemma EmptyRow()
    ensures forall c: nat :: RowWeights(map[])(c) == 0.0
  {
  }

  /** Weight from v to each label among the kept neighbours. */
  method WeightsTo(g: Level, v: nat, lab: array<nat>, keep: nat -> bool) returns (out: map<nat, real>)
    requires v < |g.adj| && lab.Length == |g.adj|
    ensures forall c: nat :: c in out <==> exists u: nat :: u < lab.Length && lab[u] == c && keep(u) && Adjacent(g, v, u)
    ensures forall c: nat :: RowWeights(out)(c) == Sum(lab.Length, Restrict(Kept(lab[..], keep, c), Row(Weights(g), v)))
  {
    hide AddTo, RowWeights, Kept, Adjacent, Restrict, Weights, Row;
    out := map[];
    ghost var p, n := lab[..], lab.Length;
    EmptyRow();
    for u := 0 to lab.Length
      invariant forall c: nat :: c in out <==> exists x: nat :: x < u && p[x] == c && keep(x) && Adjacent(g, v, x)
      invariant forall c: nat :: RowWeights(out)(c) == Sum(u, Restrict(Kept(p, keep, c), Row(Weights(g), v)))
    {
      ghost var was := out;
      if u in g.adj[v] && keep(u) {
        out := AddTo(out, lab[u], g.adj[v][u]);
      }
      WeightsStep(g, v, p, keep, u, was, out);
    }
  }

  // The incremental tables of local moving agree with the labelling.
  ghost predicate Tables(g: Level, p: seq<nat>, size: seq<nat>, weight: seq<real>) {
    && |size| == |weight| == |p|
    && (forall c: nat :: c < |p| ==> size[c] == multiset(p)[c])
    && (forall c: nat :: c < |p| ==> weight[c] == ClassSum(p, c, Strength(g)))
  }

  // Community strengths with node v taken out of its community.
  ghost predicate WeightsWithout(g: Level, p: seq<nat>, v: nat, weight: seq<real>)
    requires v < |p|
  {
    |weight| == |p| && forall c: nat :: c < |p| ==>
      weight[c] == ClassSum(p, c, Strength(g)) - (if p[v] == c then Strength(g)(v) else 0.0)
  }

  lemma CountOthers(p: seq<nat>, v: nat)
    requires v < |p|
    ensures multiset(p)[p[v]] >= 1
    ensures multiset(p)[p[v]] == 1 <==> Alone(p, v)
  {
    var rest := p[..v] + p[v + 1..];
    assert p == p[..v] + [p[v]] + p[v + 1..];
    assert multiset(p) == multiset(rest) + multiset{p[v]};
    forall u | 0 <= u < |p| && u != v ensures p[u] in rest {
      assert rest[if u < v then u else u - 1] == p[u];
    }
    forall i | 0 <= i < |rest| ensures rest[i] == p[if i < v then i else i + 1] { }
    assert Alone(p, v) <==> p[v] !in rest;
  }

  // The gain of v for community c, from its link weight and the community's strength without v.
  lemma GainFromTables(g: Level, gamma: real, total: real, p: seq<nat>, v: nat, c: nat, w: real, s: real)
    requires total > 0.0 && v < |p| && |p| == |g.adj|
    requires w == Sum(|p|, Restrict(Kept(p, EVERYONE, c), Row(Weights(g), v)))
    requires s == ClassSum(p, c, Strength(g)) - (if p[v] == c then Strength(g)(v) else 0.0)
    requires v !in g.adj[v]
    ensures LinkGain(Excess(g, gamma, total), p, v, c) == w - Expected(gamma, total, Strength(g)(v), s)
  {
    var on := Others(p, v, c);
    ExcessSum(g, gamma, total, v, on);
    SumExt(|p|, Restrict(Kept(p, EVERYONE, c), Row(Weights(g), v)), Restrict(on, Row(Affinity(g), v)));
    SumChange(|p|, v, Class(p, c, Strength(g)), Restrict(on, Strength(g)));
  }

  const EVERYONE: nat -> bool := (u: nat) => true

  // The gain closure of local moving: link weight minus the weight expected by chance.
  method Gain(g: Level, ghost p: seq<nat>, v: nat, ghost c: nat, w: real, s: real, gamma: real, total: real) returns (gain: real)
    requires total > 0.0 && v < |p| && |p| == |g.adj| == |g.strength|
    requires w == Sum(|p|, Restrict(Kept(p, EVERYONE, c), Row(Weights(g), v)))
    requires s == ClassSum(p, c, Strength(g)) - (if p[v] == c then Strength(g)(v) else 0.0)
    requires v !in g.adj[v]
    ensures gain == LinkGain(Excess(g, gamma, total), p, v, c)
  {
    GainFromTables(g, gamma, total, p, v, c, w, s);
    gain := w - Expected(gamma, total, g.strength[v], s);
  }

  // The community with the strictly best gain, the current one first, then ascending.
  method BestCommunity(g: Level, p: seq<nat>, v: nat, to: map<nat, real>, weight: seq<real>, gamma: real, total: real)
    returns (best: nat, bestGain: real)
    requires total > 0.0 && v < |g.adj| && |p| == |g.adj| == |g.strength| && WeightsWithout(g, p, v, weight)
    requires p[v] < |p| && v !in g.adj[v]
    requires forall c: nat :: c in to <==> Touches(g, p, v, c)
    requires forall c: nat :: RowWeights(to)(c) == Sum(|p|, Restrict(Kept(p, EVERYONE, c), Row(Weights(g), v)))
    ensures best < |p| && best == BestBelow(g, Excess(g, gamma, total), p, v, |p|)
    ensures bestGain == LinkGain(Excess(g, gamma, total), p, v, best)
  {
    hide LinkGain, Sum;
    ghost var m := Excess(g, gamma, total);
    best := p[v];
    bestGain := Gain(g, p, v, best, if best in to then to[best] else 0.0, weight[best], gamma, total);
    for c := 0 to |p|
      invariant best < |p| && best == BestBelow(g, m, p, v, c) && bestGain == LinkGain(m, p, v, best)
    {
      if c in to {
        var gain := Gain(g, p, v, c, to[c], weight[c], gamma, total);
        if gain > bestGain {
          best := c;
          bestGain := gain;
        }
      }
    }
  }

  // Taking v out of its community leaves a count of zero exactly when v was alone.
  lemma TablesWithout(g: Level, p: seq<nat>, v: nat, size: seq<nat>, weight: seq<real>)
    requires Tables(g, p, size, weight) && v < |p| && p[v] < |p|
    ensures |size| == |weight| == |p| && size[p[v]] >= 1 && (size[p[v]] - 1 == 0 <==> Alone(p, v))
    ensures WeightsWithout(g, p, v, weight[p[v] := weight[p[v]] - Strength(g)(v)])
  {
    CountOthers(p, v);
  }

  lemma TablesAfterMove(g: Level, p: seq<nat>, v: nat, t: nat, size: seq<nat>, weight: seq<real>)
    requires Tables(g, p, size, weight) && v < |p| && t < |p| && p[v] < |p| && t != p[v]
    ensures size[p[v]] >= 1
    ensures Tables(g, p[v := t], size[p[v] := size[p[v]] - 1][t := size[t] + 1],
                   weight[p[v] := weight[p[v]] - Strength(g)(v)][t := weight[t] + Strength(g)(v)])
  {
    hide ClassSum, Strength;
    WeightsAfterMove(g, p, v, t, size, weight);
    CountsAfterMove(p, v, t);
  }

  lemma WithoutOne(p: seq<nat>, v: nat)
    requires v < |p|
    ensures multiset(p) == multiset(p[..v] + p[v + 1..]) + multiset{p[v]}
  {
    assert p == p[..v] + [p[v]] + p[v + 1..];
  }

  lemma CountsAfterMove(p: seq<nat>, v: nat, t: nat)
    requires v < |p| && t != p[v]
    ensures multiset(p)[p[v]] >= 1
    ensures forall c: nat :: multiset(p[v := t])[c] == if c == p[v] then multiset(p)[c] - 1 else if c == t then multiset(p)[c] + 1 else multiset(p)[c]
  {
    var rest, q := p[..v] + p[v + 1..], p[v := t];
    WithoutOne(p, v);
    WithoutOne(q, v);
    assert q[..v] + q[v + 1..] == rest;
  }

  lemma WeightsAfterMove(g: Level, p: seq<nat>, v: nat, t: nat, size: seq<nat>, weight: seq<real>)
    requires Tables(g, p, size, weight) && v < |p| && t < |p| && p[v] < |p| && t != p[v]
    ensures var weight' := weight[p[v] := weight[p[v]] - Strength(g)(v)][t := weight[t] + Strength(g)(v)];
            forall c: nat :: c < |p| ==> weight'[c] == ClassSum(p[v := t], c, Strength(g))
  {
    var weight' := weight[p[v] := weight[p[v]] - Strength(g)(v)][t := weight[t] + Strength(g)(v)];
    forall c: nat | c < |p| ensures weight'[c] == ClassSum(p[v := t], c, Strength(g)) {
      ClassSumUpdate(p, v, t, c, Strength(g));
    }
  }

  // Where the front node of the queue goes, and the stack of unused labels left.
  method PickTarget(g: Level, part: array<nat>, v: nat, current: nat, alone: bool, weight: array<real>, empty: seq<nat>,
                    gamma: real, total: real, ghost s: MoveState)
    returns (target: nat, popped: seq<nat>)
    requires Valid(g) && total > 0.0 && MoveOk(g, s) && s.queue != [] && s.queue[0] == v && v < |s.part|
    requires part.Length == weight.Length == |g.adj| && part[..] == s.part && empty == s.empty
    requires current == part[v] && alone == Alone(s.part, v)
    requires WeightsWithout(g, s.part, v, weight[..])
    ensures target == Target(g, Excess(g, gamma, total), s, v) && target < part.Length
    ensures popped == if OpensEmpty(g, Excess(g, gamma, total), s, v) then s.empty[..|s.empty| - 1] else s.empty
  {
    var to := WeightsTo(g, v, part, EVERYONE);
    assert forall c: nat :: c in to <==> Touches(g, s.part, v, c);
    assert v !in g.adj[v];
    var bestGain;
    target, bestGain := BestCommunity(g, part[..], v, to, weight[..], gamma, total);
    popped := empty;
    if bestGain < 0.0 && !alone {
      // Every community on offer costs something: take an unused label instead.
      if |popped| > 0 {
        target := popped[|popped| - 1];
        assert target in s.empty;
        popped := popped[..|popped| - 1];
      }
    }
  }

  // Visits the front node of the queue: chooses its community and updates the tables.
  method Visit(g: Level, part: array<nat>, size: array<nat>, weight: array<real>, empty: seq<nat>, v: nat,
               gamma: real, total: real, ghost s: MoveState)
    returns (empty': seq<nat>)
    requires Valid(g) && total > 0.0 && MoveOk(g, s) && s.queue != [] && s.queue[0] == v
    requires part.Length == size.Length == weight.Length == |g.adj| && part != size
    requires part[..] == s.part && empty == s.empty && Tables(g, part[..], size[..], weight[..])
    modifies part, size, weight
    ensures var s' := MoveStep(g, Excess(g, gamma, total), s); part[..] == s'.part && empty' == s'.empty
    ensures Tables(g, part[..], size[..], weight[..])
  {
    hide LinkGain, Sum, ClassSum, BestBelow, Valid, Target, OpensEmpty, Requeued, Excess, InertAlone, Distinct,
      Tables, WeightsWithout, Alone;
    ValidShape(g);
    ghost var p, size0, weight0 := part[..], size[..], weight[..];
    TablesWithout(g, p, v, size0, weight0);
    var current := part[v];
    var k := g.strength[v];
    size[current] := size[current] - 1;
    weight[current] := weight[current] - k;
    assert size[..] == size0[current := size0[current] - 1];
    assert weight[..] == weight0[current := weight0[current] - k];
    var best;
    best, empty' := PickTarget(g, part, v, current, size[current] == 0, weight, empty, gamma, total, s);
    size[best] := size[best] + 1;
    weight[best] := weight[best] + k;
    if size[current] == 0 && best != current {
      empty' := empty' + [current];
    }
    if best != current {
      part[v] := best;
      TablesAfterMove(g, p, v, best, size0, weight0);
      assert size[..] == size0[current := size0[current] - 1][best := size0[best] + 1];
      assert weight[..] == weight0[current := weight0[current] - k][best := weight0[best] + k];
    } else {
      assert size[..] == size0;
      assert weight[..] == weight0;
    }
  }

  method Requeue(g: Level, part: array<nat>, v: nat, queue: seq<nat>, queued: array<bool>) returns (queue': seq<nat>)
    requires v < part.Length == queued.Length == |g.adj|
    requires forall u: nat :: u < queued.Length ==> (queued[u] <==> u in queue)
    modifies queued
    ensures queue' == Requeued(g, part[..], v, queue, part.Length)
    ensures forall u: nat :: u < queued.Length ==> (queued[u] <==> u in queue')
  {
    queue' := queue;
    for u := 0 to part.Length
      invariant queue' == Requeued(g, part[..], v, queue, u)
      invariant forall x: nat :: x < queued.Length ==> (queued[x] <==> x in queue')
    {
      if u in g.adj[v] && part[u] != part[v] && !queued[u] {
        queued[u] := true;
        queue' := queue' + [u];
      }
    }
  }

  // What a visit does to the queue.
  lemma StepQueue(g: Level, m: Matrix, s: MoveState)
    requires MoveOk(g, s) && s.queue != []
    ensures var v := s.queue[0];
            && v < |g.adj| == |s.part| && v !in s.queue[1..]
            && var s' := MoveStep(g, m, s);
               && |s'.part| == |s.part|
               && if s'.part[v] == s.part[v]
                  then s'.queue == s.queue[1..] && s'.moved == s.moved
                  else s'.queue == Requeued(g, s'.part, v, s.queue[1..], |s'.part|) && s'.moved
  {
  }

  lemma StepProgress(g: Level, m: Matrix, s: MoveState)
    requires Valid(g) && Symmetric(|g.adj|, m) && MoveOk(g, s) && s.queue != []
    ensures MoveOk(g, MoveStep(g, m, s)) && MoveRun(g, m, s) == MoveRun(g, m, MoveStep(g, m, s))
    ensures |Better(m, MoveStep(g, m, s).part)| < |Better(m, s.part)|
         || (MoveStep(g, m, s).part == s.part && |MoveStep(g, m, s).queue| < |s.queue|)
  {
    StepOk(g, m, s);
    BetterShrinks(m, s.part, MoveStep(g, m, s).part);
  }

  /** Fast local moving, in place: the outcome of a whole specified run. */
  method MoveNodes(g: Level, part: array<nat>, gamma: real, total: real) returns (moved: bool)
    requires Valid(g) && total > 0.0 && Labelling(part[..], |g.adj|) && InertAlone(g, part[..])
    modifies part
    ensures Symmetric(|g.adj|, Excess(g, gamma, total)) && MoveOk(g, MoveStart(old(part[..])))
    ensures var r := MoveRun(g, Excess(g, gamma, total), MoveStart(old(part[..]))); part[..] == r.part && moved == r.moved
  {
    hide LinkGain, Sum, ClassSum, BestBelow, Valid, Target, OpensEmpty, Requeued, Excess, InertAlone, Distinct, Tables,
      Symmetric, MoveStep, MoveOk, Better;
    ValidShape(g);
    var n := part.Length;
    ghost var m, start := Excess(g, gamma, total), MoveStart(part[..]);
    ExcessSymmetric(g, gamma, total);
    StartOk(g, part[..]);
    var size := new nat[n](_ => 0);
    var weight := new real[n](_ => 0.0);
    FillTables(g, part, size, weight);
    TableSizes(g, part[..], size[..], weight[..]);
    var empty := UnusedLabels(part, size);
    var queue: seq<nat> := Identity(n);
    var queued := new bool[n](_ => true);
    moved := false;
    ghost var s := MoveState(part[..], empty, queue, moved);
    forall u: nat | u < n ensures u in queue { assert queue[u] == u; }
    while |queue| > 0
      invariant s == MoveState(part[..], empty, queue, moved) && MoveOk(g, s)
      invariant MoveRun(g, m, s) == MoveRun(g, m, start)
      invariant Tables(g, part[..], size[..], weight[..])
      invariant forall u: nat :: u < n ==> (queued[u] <==> u in queue)
      decreases |Better(m, s.part)|, |queue|
    {
      StepQueue(g, m, s);
      StepProgress(g, m, s);
      var v := queue[0];
      queue := queue[1..];
      queued[v] := false;
      assert s.queue == [v] + queue;
      var current := part[v];
      empty := Visit(g, part, size, weight, empty, v, gamma, total, s);
      if part[v] != current {
        moved := true;
        queue := Requeue(g, part, v, queue, queued);
      }
      s := MoveStep(g, m, s);
    }
  }

  // Community sizes and strengths of the first k nodes.
  ghost predicate TablesUpTo(g: Level, p: seq<nat>, k: nat, size: seq<nat>, weight: seq<real>) {
    && |size| == |weight| == |p| && k <= |p|
    && (forall c: nat :: c < |p| ==> size[c] == multiset(p[..k])[c])
    && (forall c: nat :: c < |p| ==> weight[c] == Sum(k, Class(p, c, Strength(g))))
  }

  lemma TablesStep(g: Level, p: seq<nat>, k: nat, size: seq<nat>, weight: seq<real>)
    requires TablesUpTo(g, p, k, size, weight) && k < |p| && p[k] < |p|
    ensures TablesUpTo(g, p, k + 1, size[p[k] := size[p[k]] + 1], weight[p[k] := weight[p[k]] + Strength(g)(k)])
  {
    assert p[..k + 1] == p[..k] + [p[k]];
  }

  lemma TablesEnds(g: Level, p: seq<nat>, size: seq<nat>, weight: seq<real>)
    ensures |size| == |weight| == |p| && (forall c: nat :: c < |p| ==> size[c] == 0 && weight[c] == 0.0) ==> TablesUpTo(g, p, 0, size, weight)
    ensures TablesUpTo(g, p, |p|, size, weight) ==> Tables(g, p, size, weight)
  {
    assert p[..|p|] == p;
  }

  method FillTables(g: Level, part: array<nat>, size: array<nat>, weight: array<real>)
    requires |g.strength| == part.Length == size.Length == weight.Length && Labelling(part[..], part.Length)
    requires part != size
    requires forall c: nat :: c < part.Length ==> size[c] == 0 && weight[c] == 0.0
    modifies size, weight
    ensures Tables(g, part[..], size[..], weight[..])
  {
    hide TablesUpTo, Tables;
    ghost var p := part[..];
    TablesEnds(g, p, size[..], weight[..]);
    for v := 0 to part.Length
      invariant TablesUpTo(g, p, v, size[..], weight[..])
    {
      ghost var size0, weight0 := size[..], weight[..];
      TablesStep(g, p, v, size0, weight0);
      size[part[v]] := size[part[v]] + 1;
      weight[part[v]] := weight[part[v]] + g.strength[v];
      assert size[..] == size0[p[v] := size0[p[v]] + 1];
      assert weight[..] == weight0[p[v] := weight0[p[v]] + Strength(g)(v)];
    }
    TablesEnds(g, p, size[..], weight[..]);
  }

  lemma TableSizes(g: Level, p: seq<nat>, size: seq<nat>, weight: seq<real>)
    requires Tables(g, p, size, weight)
    ensures |size| == |p| && forall c: nat :: c < |p| ==> size[c] == multiset(p)[c]
  {
  }

  method UnusedLabels(part: array<nat>, size: array<nat>) returns (empty: seq<nat>)
    requires part.Length == size.Length
    requires forall c: nat :: c < part.Length ==> size[c] == multiset(part[..])[c]
    ensures empty == UnusedFrom(part[..], 0)
  {
    empty := [];
    var c: nat := part.Length;
    while c > 0
      invariant c <= part.Length && empty == UnusedFrom(part[..], c)
    {
      c := c - 1;
      assert c in part[..] <==> c in multiset(part[..]);
      if size[c] == 0 {
        empty := empty + [c];
      }
    }
  }
}
