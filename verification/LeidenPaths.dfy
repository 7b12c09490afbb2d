// Connectivity of the classes of a labelling along positive-weight edges.
module LeidenPaths {
  import opened RealSums
  import opened LeidenLevel
  import opened LeidenMove

  // A walk along edges that never leaves one class.
  ghost predicate Path(g: Level, lab: seq<nat>, s: seq<nat>)
    requires |lab| == |g.adj|
  {
    && s != []
    && (forall i :: 0 <= i < |s| ==> s[i] < |lab|)
    && (forall i :: 0 <= i < |s| ==> lab[s[i]] == lab[s[0]])
    && (forall i :: 0 <= i < |s| - 1 ==> Adjacent(g, s[i], s[i + 1]))
  }

  ghost predicate Linked(g: Level, lab: seq<nat>, x: nat, y: nat)
    requires |lab| == |g.adj|
  {
    exists s :: Path(g, lab, s) && s[0] == x && s[|s| - 1] == y
  }

  // Every class induces a connected subgraph.
  ghost predicate AllConnected(g: Level, lab: seq<nat>)
    requires |lab| == |g.adj|
  {
    forall x: nat, y: nat :: x < |lab| && y < |lab| && lab[x] == lab[y] ==> Linked(g, lab, x, y)
  }

  lemma IdentityConnected(g: Level)
    ensures AllConnected(g, Identity(|g.adj|))
  {
    var lab := Identity(|g.adj|);
    forall x: nat, y: nat | x < |lab| && y < |lab| && lab[x] == lab[y] ensures Linked(g, lab, x, y) {
      assert Path(g, lab, [x]);
    }
  }

  lemma LinkedThrough(g: Level, lab: seq<nat>, x: nat, y: nat, z: nat)
    requires |lab| == |g.adj| && Linked(g, lab, x, y) && Linked(g, lab, y, z)
    ensures Linked(g, lab, x, z)
  {
    var s :| Path(g, lab, s) && s[0] == x && s[|s| - 1] == y;
    var t :| Path(g, lab, t) && t[0] == y && t[|t| - 1] == z;
    var r := s + t[1..];
    forall i | 0 <= i < |r| - 1 ensures Adjacent(g, r[i], r[i + 1]) {
      if i >= |s| - 1 {
        assert r[i] == t[i - (|s| - 1)] && r[i + 1] == t[i + 1 - (|s| - 1)];
      }
    }
    forall i | 0 <= i < |r| ensures r[i] < |lab| && lab[r[i]] == lab[r[0]] {
      if i >= |s| { assert r[i] == t[i - (|s| - 1)] && lab[t[0]] == lab[s[|s| - 1]]; }
    }
    assert Path(g, lab, r) && r[|r| - 1] == z;
  }

  lemma LinkedByEdge(g: Level, lab: seq<nat>, x: nat, y: nat)
    requires |lab| == |g.adj| && x < |lab| && y < |lab| && lab[x] == lab[y] && Adjacent(g, x, y)
    ensures Linked(g, lab, x, y)
  {
    assert Path(g, lab, [x, y]);
  }

  // A path that misses v is still a path when only v changes class.
  lemma PathElsewhere(g: Level, lab: seq<nat>, v: nat, c: nat, x: nat, y: nat)
    requires |lab| == |g.adj| && v < |lab| && x < |lab| && Linked(g, lab, x, y) && lab[x] != lab[v]
    ensures Linked(g, lab[v := c], x, y)
  {
    var s :| Path(g, lab, s) && s[0] == x && s[|s| - 1] == y;
    forall i | 0 <= i < |s| ensures s[i] != v { assert lab[s[i]] == lab[x]; }
    assert Path(g, lab[v := c], s);
  }

  // A lone node moving into the class of a neighbour leaves every class connected.
  lemma AbsorbKeepsConnected(g: Level, lab: seq<nat>, v: nat, u: nat)
    requires Valid(g) && |lab| == |g.adj| && v < |lab| && u < |lab| && lab[u] != lab[v]
    requires AllConnected(g, lab) && Alone(lab, v) && Adjacent(g, v, u)
    ensures AllConnected(g, lab[v := lab[u]])
  {
    hide Valid, Linked, Adjacent;
    var q := lab[v := lab[u]];
    AdjacentMutual(g, v, u);
    forall x: nat, y: nat | x < |q| && y < |q| && q[x] == q[y] ensures Linked(g, q, x, y) {
      var x', y' := if x == v then u else x, if y == v then u else y;
      assert lab[x'] != lab[v];
      PathElsewhere(g, lab, v, lab[u], x', y');
      if x == v {
        LinkedByEdge(g, q, v, u);
        LinkedThrough(g, q, v, u, y');
      }
      if y == v {
        LinkedByEdge(g, q, u, v);
        LinkedThrough(g, q, x, u, v);
      }
    }
  }
}
