// What a sealed closure contains and when sealing fails.
module EvidenceSealing {

  import opened EvidenceModel
  import opened Sets

  // Records are filed under their own ids.
  ghost predicate Keyed(s: Store) {
    && (forall x :: x in s.evidence ==> s.evidence[x].id == x)
    && (forall x :: x in s.claims ==> s.claims[x].id == x)
  }

  // Stored evidence cites a registered file, and stored claims cite stored evidence.
  ghost predicate Referenced(s: Store) {
    && (forall x :: x in s.evidence ==> (s.evidence[x].snapshot, s.evidence[x].file) in s.files)
    && (forall x :: x in s.claims ==> SoundClaim(s, s.claims[x]))
  }

  // The checks of the published reader on one relationship's rows.
  predicate ReaderAccepts(json: Json, rows: seq<Row>) {
    && |Join(json.rows(rows))| <= BYTES_MAX
    && (forall i :: 0 <= i < |rows| - 1 ==> rows[i].id < rows[i + 1].id)
  }

  ghost function Ids(rows: seq<Row>): set<Id> { set i | 0 <= i < |rows| :: rows[i].id }

  lemma RowsValue(s: Store, json: Json, edge: Edge)
    ensures RowsFor(s, json, edge).Ok? ==>
              (|Named(s, edge)| <= ROWS_MAX && RowsFor(s, json, edge).value == Wanted(s, edge)
               && |Join(json.rows(Wanted(s, edge)))| <= BYTES_MAX && (forall x :: x in Named(s, edge) ==> Available(s, x)))
  {
    hide Available, Named, Join, RowList, RowAt, Ascending, SoundClaim;
    AscendingFacts(Named(s, edge));
  }

  lemma WantedFacts(s: Store, edge: Edge)
    requires Keyed(s) && forall x :: x in Named(s, edge) ==> Available(s, x)
    ensures var rows, ids := Wanted(s, edge), Ascending(Named(s, edge));
            && |rows| == |ids| == |Named(s, edge)|
            && (forall i :: 0 <= i < |rows| ==> ids[i] in Named(s, edge) && rows[i] == RowAt(s, ids[i]) && rows[i].id == ids[i])
  {
    hide Named;
    AscendingFacts(Named(s, edge));
    forall i | 0 <= i < |Ascending(Named(s, edge))| ensures Ascending(Named(s, edge))[i] in Named(s, edge) {
      assert Ascending(Named(s, edge))[i] in Ascending(Named(s, edge));
    }
  }

  // Sealed rows are exactly the evidence named by the edge or by any claim on it, each once, in
  // the order and within the limits the reader insists on.
  lemma RowsComplete(s: Store, json: Json, edge: Edge)
    requires Keyed(s) && RowsFor(s, json, edge).Ok?
    ensures var rows := RowsFor(s, json, edge).value;
            && Ids(rows) == Named(s, edge) && |rows| == |Named(s, edge)| <= ROWS_MAX
            && (forall i, j :: 0 <= i < j < |rows| ==> rows[i].id < rows[j].id)
            && (forall i :: 0 <= i < |rows| ==> Available(s, rows[i].id) && rows[i] == RowAt(s, rows[i].id))
            && ReaderAccepts(json, rows)
  {
    hide RowsFor, Wanted, Named, Join;
    var ids, rows := Ascending(Named(s, edge)), RowsFor(s, json, edge).value;
    RowsValue(s, json, edge);
    WantedFacts(s, edge);
    AscendingFacts(Named(s, edge));
    forall x ensures x in Ids(rows) <==> x in Named(s, edge) {
      if x in Named(s, edge) {
        assert x in ids;
        var i :| 0 <= i < |ids| && ids[i] == x;
        assert rows[i].id == x;
      }
    }
  }

  lemma NamedKnown(s: Store, edge: Edge)
    requires Referenced(s)
    ensures (forall x :: x in Named(s, edge) ==> Available(s, x)) <==> (forall x :: x in edge.evidence ==> x in s.evidence)
    ensures forall k :: k in s.claims && s.claims[k].relation == edge.id ==> SoundClaim(s, s.claims[k])
  {
    if forall x :: x in edge.evidence ==> x in s.evidence {
      forall x | x in Named(s, edge) ensures Available(s, x) {
        if x !in edge.evidence {
          var k :| k in s.claims && s.claims[k].relation == edge.id && x in Cited(s.claims[k]);
          assert SoundClaim(s, s.claims[k]);
        }
      }
    } else {
      var x :| x in edge.evidence && x !in s.evidence;
      assert x in Named(s, edge) && !Available(s, x);
    }
  }

  // In a consistent store sealing one edge fails exactly on an edge naming unknown evidence, on
  // more than a thousand rows, or on rows too long to write.
  lemma RowsFailExactly(s: Store, json: Json, edge: Edge)
    requires Referenced(s)
    ensures RowsFor(s, json, edge).Err? <==>
              ((exists x :: x in edge.evidence && x !in s.evidence) || |Named(s, edge)| > ROWS_MAX
               || |Join(json.rows(Wanted(s, edge)))| > BYTES_MAX)
  {
    hide Available, Named, Join, Referenced, SoundClaim;
    NamedKnown(s, edge);
    AscendingFacts(Named(s, edge));
  }

  // The rows of the evidence named for an edge, when all of it is known.
  ghost function Wanted(s: Store, edge: Edge): seq<Row> {
    if Listed(s, Named(s, edge)).Ok? then Listed(s, Named(s, edge)).value else []
  }

  // ----- the closure -----

  // The last edge, in key order, that carries an id.
  ghost predicate LastOf(edges: map<Id, Edge>, k: Id) {
    k in edges && forall l :: l in edges && edges[l].id == edges[k].id ==> l <= k
  }

  ghost predicate LastIn(edges: map<Id, Edge>, keys: seq<Id>, i: nat)
    requires forall k :: k in keys ==> k in edges
  {
    i < |keys| && forall j :: 0 <= j < |keys| && edges[keys[j]].id == edges[keys[i]].id ==> j <= i
  }

  ghost predicate InEdges(b: GraphBuild, keys: seq<Id>) { forall k :: k in keys ==> k in b.edges }

  ghost predicate AllRowsOk(s: Store, json: Json, b: GraphBuild, keys: seq<Id>)
    requires InEdges(b, keys)
  {
    forall i :: 0 <= i < |keys| ==> RowsFor(s, json, b.edges[keys[i]]).Ok?
  }

  ghost predicate CoversIds(b: GraphBuild, keys: seq<Id>, m: map<Id, seq<Row>>)
    requires InEdges(b, keys)
  {
    && (forall i :: 0 <= i < |keys| ==> b.edges[keys[i]].id in m)
    && (forall x :: x in m ==> exists i :: 0 <= i < |keys| && b.edges[keys[i]].id == x)
  }

  ghost predicate LastWins(s: Store, json: Json, b: GraphBuild, keys: seq<Id>, m: map<Id, seq<Row>>)
    requires InEdges(b, keys)
  {
    forall i: nat :: i < |keys| && LastIn(b.edges, keys, i) ==>
      b.edges[keys[i]].id in m && RowsFor(s, json, b.edges[keys[i]]) == Ok(m[b.edges[keys[i]].id])
  }

  lemma {:induction false} ClosureOfOk(s: Store, json: Json, b: GraphBuild, keys: seq<Id>)
    requires InEdges(b, keys)
    ensures ClosureOf(s, json, b, keys).Ok? <==> AllRowsOk(s, json, b, keys)
    decreases |keys|
  {
    hide RowsFor;
    if keys == [] {
    } else {
      var n := |keys| - 1;
      ClosureOfOk(s, json, b, keys[..n]);
      assert AllRowsOk(s, json, b, keys) <==> (AllRowsOk(s, json, b, keys[..n]) && RowsFor(s, json, b.edges[keys[n]]).Ok?);
    }
  }

  lemma CoversOneMore(b: GraphBuild, keys: seq<Id>, m: map<Id, seq<Row>>, k: Id, rows: seq<Row>)
    requires InEdges(b, keys + [k]) && InEdges(b, keys) && CoversIds(b, keys, m)
    ensures CoversIds(b, keys + [k], m[b.edges[k].id := rows])
  {
    var t, all := m[b.edges[k].id := rows], keys + [k];
    forall x | x in t ensures exists i :: 0 <= i < |all| && b.edges[all[i]].id == x {
      if x == b.edges[k].id {
        assert all[|keys|] == k;
      } else {
        var i :| 0 <= i < |keys| && b.edges[keys[i]].id == x;
        assert all[i] == keys[i];
      }
    }
  }

  lemma LastOneMore(s: Store, json: Json, b: GraphBuild, keys: seq<Id>, m: map<Id, seq<Row>>, k: Id, rows: seq<Row>)
    requires InEdges(b, keys + [k]) && InEdges(b, keys)
    requires LastWins(s, json, b, keys, m) && RowsFor(s, json, b.edges[k]) == Ok(rows)
    ensures LastWins(s, json, b, keys + [k], m[b.edges[k].id := rows])
  {
    hide RowsFor;
    var all, t := keys + [k], m[b.edges[k].id := rows];
    forall i: nat | i < |all| && LastIn(b.edges, all, i)
      ensures b.edges[all[i]].id in t && RowsFor(s, json, b.edges[all[i]]) == Ok(t[b.edges[all[i]].id])
    {
      if i < |keys| { LastBefore(b.edges, keys, k, i); }
    }
  }

  lemma LastBefore(edges: map<Id, Edge>, keys: seq<Id>, k: Id, i: nat)
    requires (forall x :: x in keys + [k] ==> x in edges) && i < |keys| && LastIn(edges, keys + [k], i)
    ensures (forall x :: x in keys ==> x in edges) && LastIn(edges, keys, i) && edges[keys[i]].id != edges[k].id
  {
    var all := keys + [k];
    assert all[|keys|] == k;
    forall x | x in keys ensures x in edges { assert x in all; }
    forall j | 0 <= j < |keys| && edges[keys[j]].id == edges[keys[i]].id ensures j <= i { assert all[j] == keys[j]; }
  }

  lemma {:induction false} ClosureOfExact(s: Store, json: Json, b: GraphBuild, keys: seq<Id>)
    requires InEdges(b, keys) && AllRowsOk(s, json, b, keys)
    ensures var c := ClosureOf(s, json, b, keys);
            c.Ok? && CoversIds(b, keys, c.value) && LastWins(s, json, b, keys, c.value)
    decreases |keys|
  {
    hide RowsFor, CoversIds, LastWins;
    ClosureOfOk(s, json, b, keys);
    if keys == [] {
      NothingCovered(s, json, b);
    } else {
      var n := |keys| - 1;
      var init, k := keys[..n], keys[n];
      assert keys == init + [k];
      ClosureOfExact(s, json, b, init);
      var d := ClosureOf(s, json, b, init).value;
      CoversOneMore(b, init, d, k, RowsFor(s, json, b.edges[k]).value);
      LastOneMore(s, json, b, init, d, k, RowsFor(s, json, b.edges[k]).value);
    }
  }

  lemma NothingCovered(s: Store, json: Json, b: GraphBuild)
    ensures CoversIds(b, [], map[]) && LastWins(s, json, b, [], map[])
  {
  }

  // The closure of a build has one entry per edge id, the rows of the last edge with that id,
  // and it fails exactly when the rows of any edge, shadowed or not, fail.
  lemma ClosureFailsExactly(s: Store, json: Json, b: GraphBuild)
    ensures Closure(s, json, b).Ok? <==> forall k :: k in b.edges ==> RowsFor(s, json, b.edges[k]).Ok?
  {
    hide RowsFor;
    var keys := Ascending(b.edges.Keys);
    AscendingFacts(b.edges.Keys);
    ClosureOfOk(s, json, b, keys);
    if AllRowsOk(s, json, b, keys) {
      forall k | k in b.edges ensures RowsFor(s, json, b.edges[k]).Ok? {
        assert k in keys;
        var i :| 0 <= i < |keys| && keys[i] == k;
      }
    } else {
      var i :| 0 <= i < |keys| && !RowsFor(s, json, b.edges[keys[i]]).Ok?;
      assert keys[i] in keys;
    }
  }

  lemma ClosureExact(s: Store, json: Json, b: GraphBuild)
    requires Closure(s, json, b).Ok?
    ensures var c := Closure(s, json, b).value;
            && (forall x :: x in c <==> exists k :: k in b.edges && b.edges[k].id == x)
            && (forall k :: LastOf(b.edges, k) ==> b.edges[k].id in c && RowsFor(s, json, b.edges[k]) == Ok(c[b.edges[k].id]))
  {
    hide RowsFor, ClosureOf, Ascending, CoversIds, LastWins, LastIn;
    var keys, c := Ascending(b.edges.Keys), Closure(s, json, b).value;
    AscendingFacts(b.edges.Keys);
    ClosureOfOk(s, json, b, keys);
    ClosureOfExact(s, json, b, keys);
    CoversAscending(b, c);
    forall k | LastOf(b.edges, k)
      ensures b.edges[k].id in c && RowsFor(s, json, b.edges[k]) == Ok(c[b.edges[k].id])
    {
      LastAscending(s, json, b, k, c);
    }
  }

  lemma KeyAt(edges: map<Id, Edge>, k: Id) returns (i: nat)
    requires k in edges
    ensures i < |Ascending(edges.Keys)| && Ascending(edges.Keys)[i] == k
  {
    AscendingFacts(edges.Keys);
    assert k in Ascending(edges.Keys);
    i :| 0 <= i < |Ascending(edges.Keys)| && Ascending(edges.Keys)[i] == k;
  }

  lemma CoversAscending(b: GraphBuild, c: map<Id, seq<Row>>)
    requires InEdges(b, Ascending(b.edges.Keys)) && CoversIds(b, Ascending(b.edges.Keys), c)
    ensures forall x :: x in c <==> exists k :: k in b.edges && b.edges[k].id == x
  {
    hide Ascending;
    var keys := Ascending(b.edges.Keys);
    forall x ensures x in c <==> exists k :: k in b.edges && b.edges[k].id == x {
      if x in c {
        var i :| 0 <= i < |keys| && b.edges[keys[i]].id == x;
        assert keys[i] in keys;
      }
      if exists k :: k in b.edges && b.edges[k].id == x {
        var k :| k in b.edges && b.edges[k].id == x;
        var i := KeyAt(b.edges, k);
      }
    }
  }

  lemma LastAscending(s: Store, json: Json, b: GraphBuild, k: Id, c: map<Id, seq<Row>>)
    requires InEdges(b, Ascending(b.edges.Keys)) && LastWins(s, json, b, Ascending(b.edges.Keys), c) && LastOf(b.edges, k)
    ensures k in b.edges && b.edges[k].id in c && RowsFor(s, json, b.edges[k]) == Ok(c[b.edges[k].id])
  {
    hide RowsFor, Ascending;
    var i := KeyAt(b.edges, k);
    LastByIndex(b.edges, Ascending(b.edges.Keys), i);
  }

  lemma LastByIndex(edges: map<Id, Edge>, keys: seq<Id>, i: nat)
    requires keys == Ascending(edges.Keys) && (forall k :: k in keys ==> k in edges) && i < |keys| && LastOf(edges, keys[i])
    ensures LastIn(edges, keys, i)
  {
    AscendingFacts(edges.Keys);
    forall j | 0 <= j < |keys| && edges[keys[j]].id == edges[keys[i]].id ensures j <= i { assert keys[j] in keys; }
  }

  // ----- coverage -----

  // The coverage check never subtracts too much: no edge is both extracted and resolved.
  lemma DirectClassesDisjoint(evidence: map<Id, Evidence>, b: GraphBuild)
    ensures |Direct(evidence, b, Extracted, None)| + |Direct(evidence, b, Inferred, None)| <= |b.edges|
    ensures |Direct(evidence, b, Extracted, Some(CATALOG))| <= |Direct(evidence, b, Extracted, None)|
  {
    var e, i := Direct(evidence, b, Extracted, None), Direct(evidence, b, Inferred, None);
    forall k | k in e ensures k !in i {
      var x := b.edges[k].evidence[0];
      assert evidence[x].kind == Extracted;
    }
    SubsetCard(e + i, b.edges.Keys);
    SubsetCard(Direct(evidence, b, Extracted, Some(CATALOG)), e);
    assert |e + i| == |e| + |i|;
  }
}
