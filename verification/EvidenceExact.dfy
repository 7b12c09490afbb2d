// What the operations of the store do, written out: when a publication is accepted, with which
// error it is refused, which rows it seals, and what each record changes.
module EvidenceExact {

  import opened EvidenceModel
  import opened EvidenceSealing
  import opened EvidenceHistory

  // Everything the edge or a claim on it cites, for or against.
  ghost predicate IsBehind(s: Store, edge: Edge, named: set<Id>) {
    forall x :: x in named <==>
      (x in edge.evidence
       || exists k :: k in s.claims && s.claims[k].relation == edge.id
                      && (x in s.claims[k].supporting || x in s.claims[k].contradicting))
  }

  ghost predicate Known(s: Store, edge: Edge) { forall i :: 0 <= i < |edge.evidence| ==> edge.evidence[i] in s.evidence }

  // One row for each named piece of evidence, in ascending order, each telling what is stored.
  ghost predicate IsRows(s: Store, named: set<Id>, rows: seq<Row>) {
    && (forall i, j :: 0 <= i < j < |rows| ==> rows[i].id < rows[j].id)
    && (forall x :: x in named <==> exists i :: 0 <= i < |rows| && rows[i].id == x)
    && (forall i :: 0 <= i < |rows| ==> IsRow(s, rows[i]))
  }

  ghost predicate IsRow(s: Store, row: Row) {
    row.id in s.evidence &&
    var e := s.evidence[row.id];
    (e.snapshot, e.file) in s.files
    && row == Row(row.id, e.kind, e.supports, e.detail, e.producer, e.snapshot, e.file, s.files[(e.snapshot, e.file)])
  }

  // ----- the rows of one edge -----

  lemma SameEmpty(a: seq<nat>, b: seq<nat>)
    requires forall x :: x in a <==> x in b
    ensures a == [] <==> b == []
  {
    assert (a != [] ==> a[0] in a) && (b != [] ==> b[0] in b);
  }

  lemma {:induction false} AscendingUnique(a: seq<nat>, b: seq<nat>)
    requires forall i, j :: 0 <= i < j < |a| ==> a[i] < a[j]
    requires forall i, j :: 0 <= i < j < |b| ==> b[i] < b[j]
    requires forall x :: x in a <==> x in b
    ensures a == b
  {
    SameEmpty(a, b);
    if a == [] {
    } else {
      assert a[0] in a && a[0] in b;
      assert b[0] in b && b[0] in a;
      var c, d := a[1..], b[1..];
      forall x ensures x in c <==> x in d {
        if x in c { assert x in a && x in b && x != a[0]; }
        if x in d { assert x in b && x in a && x != b[0]; }
      }
      AscendingUnique(c, d);
      assert a == [a[0]] + c && b == [b[0]] + d;
    }
  }

  lemma BehindIsNamed(s: Store, edge: Edge, named: set<Id>)
    requires IsBehind(s, edge, named)
    ensures named == Named(s, edge)
  {
    forall k, x | k in s.claims
      ensures x in Cited(s.claims[k]) <==> x in s.claims[k].supporting || x in s.claims[k].contradicting
    {
      CitedIs(s, s.claims[k]);
    }
  }

  lemma KnownIs(s: Store, edge: Edge)
    ensures Known(s, edge) <==> forall x :: x in edge.evidence ==> x in s.evidence
  {
  }

  lemma RowsUnique(s: Store, edge: Edge, rows: seq<Row>)
    requires Keyed(s) && IsRows(s, Named(s, edge), rows) && forall x :: x in Named(s, edge) ==> Available(s, x)
    ensures rows == Wanted(s, edge)
  {
    hide Named, Wanted, Available;
    var ids, wanted := Ascending(Named(s, edge)), Wanted(s, edge);
    WantedFacts(s, edge);
    AscendingFacts(Named(s, edge));
    var listed := seq(|rows|, i requires 0 <= i < |rows| => rows[i].id);
    forall x ensures x in listed <==> x in ids {
      if x in ids {
        var i :| 0 <= i < |rows| && rows[i].id == x;
        assert listed[i] == x;
      }
    }
    AscendingUnique(listed, ids);
    forall i | 0 <= i < |rows| ensures rows[i] == wanted[i] {
      assert listed[i] == ids[i];
      RowAtIs(s, rows[i]);
    }
  }

  lemma RowAtIs(s: Store, row: Row)
    requires Keyed(s) && IsRow(s, row)
    ensures Available(s, row.id) && RowAt(s, row.id) == row
  {
  }

  // The outcome of sealing one edge, in the order of the checks.
  lemma RowsExact(s: Store, json: Json, edge: Edge, named: set<Id>, rows: seq<Row>)
    requires Keyed(s) && Referenced(s) && IsBehind(s, edge, named) && (Known(s, edge) ==> IsRows(s, named, rows))
    ensures RowsFor(s, json, edge) ==
              if |named| > 1000 then Err(QueryBudget)
              else if !Known(s, edge) then Err(Invariant)
              else if |Join(json.rows(rows))| > 1048576 then Err(QueryBudget)
              else Ok(rows)
  {
    hide Named, Join, Known, IsRows, Referenced, Keyed, IsBehind, Available, SoundClaim;
    BehindIsNamed(s, edge, named);
    KnownIs(s, edge);
    NamedKnown(s, edge);
    AscendingFacts(named);
    if Known(s, edge) { RowsUnique(s, edge, rows); }
  }

  // ----- the closure -----

  // A closure that fails fails with the error of its first failing edge.
  lemma {:induction false} FirstFailure(s: Store, json: Json, b: GraphBuild, keys: seq<Id>)
    requires InEdges(b, keys) && ClosureOf(s, json, b, keys).Err?
    ensures exists i :: 0 <= i < |keys| && RowsFor(s, json, b.edges[keys[i]]) == Err(ClosureOf(s, json, b, keys).error)
                        && forall j :: 0 <= j < i ==> RowsFor(s, json, b.edges[keys[j]]).Ok?
    decreases |keys|
  {
    hide RowsFor;
    var n := |keys| - 1;
    ClosureOfOk(s, json, b, keys[..n]);
    if ClosureOf(s, json, b, keys[..n]).Err? {
      FirstFailure(s, json, b, keys[..n]);
      var i :| 0 <= i < n && RowsFor(s, json, b.edges[keys[..n][i]]) == Err(ClosureOf(s, json, b, keys[..n]).error)
               && forall j :: 0 <= j < i ==> RowsFor(s, json, b.edges[keys[..n][j]]).Ok?;
      assert forall j :: 0 <= j < n ==> keys[..n][j] == keys[j];
      assert RowsFor(s, json, b.edges[keys[i]]) == Err(ClosureOf(s, json, b, keys).error);
    } else {
      assert forall j :: 0 <= j < n ==> keys[..n][j] == keys[j];
      assert RowsFor(s, json, b.edges[keys[n]]) == Err(ClosureOf(s, json, b, keys).error);
    }
  }

  lemma ClosureError(s: Store, json: Json, b: GraphBuild)
    requires Closure(s, json, b).Err?
    ensures exists k :: k in b.edges && RowsFor(s, json, b.edges[k]) == Err(Closure(s, json, b).error)
                        && forall l :: l in b.edges && l < k ==> RowsFor(s, json, b.edges[l]).Ok?
  {
    hide RowsFor, Ascending;
    var keys := Ascending(b.edges.Keys);
    AscendingFacts(b.edges.Keys);
    FirstFailure(s, json, b, keys);
    var i :| 0 <= i < |keys| && RowsFor(s, json, b.edges[keys[i]]) == Err(Closure(s, json, b).error)
             && forall j :: 0 <= j < i ==> RowsFor(s, json, b.edges[keys[j]]).Ok?;
    assert keys[i] in keys;
    forall l | l in b.edges && l < keys[i] ensures RowsFor(s, json, b.edges[l]).Ok? {
      var j := KeyAt(b.edges, l);
      assert j < i;
    }
  }

  // ----- publication -----

  // The edges all of whose evidence is produced, supporting and of one class.
  ghost predicate IsDirect(s: Store, b: GraphBuild, kind: Class, producer: Option<string>, ids: set<Id>) {
    forall k :: k in ids <==>
      (k in b.edges && |b.edges[k].evidence| > 0
       && forall x :: x in b.edges[k].evidence ==>
            (x in s.evidence && s.evidence[x].kind == kind && s.evidence[x].supports && s.evidence[x].producer.Some?
             && (producer.Some? ==> s.evidence[x].producer == producer)))
  }

  lemma DirectIs(s: Store, b: GraphBuild, kind: Class, producer: Option<string>, ids: set<Id>)
    requires IsDirect(s, b, kind, producer, ids)
    ensures Direct(s.evidence, b, kind, producer) == ids
  {
    var direct := Direct(s.evidence, b, kind, producer);
    forall k ensures k in direct <==> k in ids {
      if k in b.edges {
        var e := b.edges[k].evidence;
        assert (forall x :: x in e ==>
            (x in s.evidence && s.evidence[x].kind == kind && s.evidence[x].supports && s.evidence[x].producer.Some?
             && (producer.Some? ==> s.evidence[x].producer == producer)))
          <==> (forall i :: 0 <= i < |e| ==>
            (e[i] in s.evidence && s.evidence[e[i]].kind == kind && s.evidence[e[i]].supports && s.evidence[e[i]].producer.Some?
             && (producer.Some? ==> s.evidence[e[i]].producer == producer)));
      }
    }
  }

  // Running totals of a list.
  ghost predicate RunningTotals(facts: seq<nat>, sums: seq<nat>) {
    |sums| == |facts| + 1 && sums[0] == 0 && forall i :: 0 <= i < |facts| ==> sums[i + 1] == sums[i] + facts[i]
  }

  lemma {:induction false} TotalIs(facts: seq<nat>, sums: seq<nat>)
    requires RunningTotals(facts, sums)
    ensures Total(facts) == sums[|facts|]
  {
    if facts == [] {
    } else {
      TotalIs(facts[..|facts| - 1], sums[..|facts|]);
    }
  }

  // The counts a build claims for itself are those of its evidence.
  ghost predicate CountsAgree(b: GraphBuild, c: Coverage, structural: nat, resolved: nat, catalog: nat, facts: nat) {
    && (if c.catalog.None? then catalog == 0 else catalog == c.catalog.value)
    && structural == c.structural + catalog + (if c.compiler.None? then 0 else c.compiler.value)
    && resolved == c.resolved && structural + resolved + c.decision == |b.edges| && facts == c.structural
  }

  lemma CoverageIs(s: Store, b: GraphBuild, c: Coverage, structural: set<Id>, resolved: set<Id>, catalog: set<Id>, sums: seq<nat>)
    requires IsDirect(s, b, Extracted, None, structural) && IsDirect(s, b, Inferred, None, resolved)
    requires IsDirect(s, b, Extracted, Some("postgres-catalog-v1"), catalog) && RunningTotals(c.facts, sums)
    ensures CoverageAgrees(s.evidence, b, c) <==> CountsAgree(b, c, |structural|, |resolved|, |catalog|, sums[|c.facts|])
  {
    hide IsDirect, Direct, Total;
    DirectIs(s, b, Extracted, None, structural);
    DirectIs(s, b, Inferred, None, resolved);
    DirectIs(s, b, Extracted, Some("postgres-catalog-v1"), catalog);
    TotalIs(c.facts, sums);
  }

  // What publication looks at: the counts behind the coverage, and for every edge the evidence
  // behind it and, when all of it is known, its rows.
  datatype Facts = Facts(structural: set<Id>, resolved: set<Id>, catalog: set<Id>, sums: seq<nat>,
                         named: map<Id, set<Id>>, rows: map<Id, seq<Row>>)

  ghost predicate IsFacts(s: Store, b: GraphBuild, f: Facts) {
    && IsDirect(s, b, Extracted, None, f.structural) && IsDirect(s, b, Inferred, None, f.resolved)
    && IsDirect(s, b, Extracted, Some("postgres-catalog-v1"), f.catalog)
    && (b.coverage.Some? ==> RunningTotals(b.coverage.value.facts, f.sums))
    && f.named.Keys == f.rows.Keys == b.edges.Keys
    && (forall k :: k in b.edges ==> IsBehind(s, b.edges[k], f.named[k]))
    && (forall k :: k in b.edges && Known(s, b.edges[k]) ==> IsRows(s, f.named[k], f.rows[k]))
  }

  lemma {:induction false} Totals(facts: seq<nat>) returns (sums: seq<nat>)
    ensures RunningTotals(facts, sums)
  {
    if facts == [] {
      sums := [0];
    } else {
      var n := |facts| - 1;
      var init := Totals(facts[..n]);
      sums := init + [init[n] + facts[n]];
      assert forall i :: 0 <= i < n ==> facts[..n][i] == facts[i];
    }
  }

  lemma DirectSet(s: Store, b: GraphBuild, kind: Class, producer: Option<string>) returns (ids: set<Id>)
    ensures IsDirect(s, b, kind, producer, ids)
  {
    ids := set k | k in b.edges && |b.edges[k].evidence| > 0
             && forall x :: x in b.edges[k].evidence ==>
                  (x in s.evidence && s.evidence[x].kind == kind && s.evidence[x].supports && s.evidence[x].producer.Some?
                   && (producer.Some? ==> s.evidence[x].producer == producer));
  }

  lemma EdgeFacts(s: Store, edge: Edge)
    requires Keyed(s) && Referenced(s)
    ensures IsBehind(s, edge, Named(s, edge)) && (Known(s, edge) ==> IsRows(s, Named(s, edge), Wanted(s, edge)))
  {
    hide Named, Wanted, Referenced, Keyed, IsBehind, IsRow;
    NamedBehind(s, edge);
    KnownIs(s, edge);
    NamedKnown(s, edge);
    if Known(s, edge) {
      var rows, ids := Wanted(s, edge), Ascending(Named(s, edge));
      WantedFacts(s, edge);
      AscendingFacts(Named(s, edge));
      forall x ensures x in Named(s, edge) <==> exists i :: 0 <= i < |rows| && rows[i].id == x {
        if x in Named(s, edge) {
          assert x in ids;
          var i :| 0 <= i < |ids| && ids[i] == x;
          assert rows[i].id == x;
        }
      }
      forall i | 0 <= i < |rows| ensures IsRow(s, rows[i]) { RowAtKnown(s, ids[i]); }
    }
  }

  lemma RowAtKnown(s: Store, x: Id)
    requires Keyed(s) && Available(s, x)
    ensures IsRow(s, RowAt(s, x))
  {
  }

  lemma NamedBehind(s: Store, edge: Edge)
    ensures IsBehind(s, edge, Named(s, edge))
  {
    forall k, x | k in s.claims
      ensures x in Cited(s.claims[k]) <==> x in s.claims[k].supporting || x in s.claims[k].contradicting
    {
      CitedIs(s, s.claims[k]);
    }
  }

  // Every build has such facts.
  lemma FactsFor(s: Store, b: GraphBuild) returns (f: Facts)
    requires Keyed(s) && Referenced(s)
    ensures IsFacts(s, b, f)
  {
    hide Named, Wanted, Referenced, Keyed, IsBehind, IsRows, Known, IsDirect, RunningTotals;
    var structural := DirectSet(s, b, Extracted, None);
    var resolved := DirectSet(s, b, Inferred, None);
    var catalog := DirectSet(s, b, Extracted, Some("postgres-catalog-v1"));
    var sums := [];
    if b.coverage.Some? { sums := Totals(b.coverage.value.facts); }
    forall k | k in b.edges ensures IsBehind(s, b.edges[k], Named(s, b.edges[k]))
      ensures Known(s, b.edges[k]) ==> IsRows(s, Named(s, b.edges[k]), Wanted(s, b.edges[k]))
    {
      EdgeFacts(s, b.edges[k]);
    }
    f := Facts(structural, resolved, catalog, sums,
               map k | k in b.edges :: Named(s, b.edges[k]), map k | k in b.edges :: Wanted(s, b.edges[k]));
  }

  // Everything but the rows is in order.
  ghost predicate Publishable(s: Store, b: GraphBuild, expected: Option<Id>, f: Facts)
    requires IsFacts(s, b, f) && ActiveOk(s)
  {
    && (b.coverage.Some? ==>
          CountsAgree(b, b.coverage.value, |f.structural|, |f.resolved|, |f.catalog|, f.sums[|b.coverage.value.facts|]))
    && (forall k :: k in b.edges ==> b.edges[k].from in b.nodes && b.edges[k].to in b.nodes)
    && b.id !in s.builds
    && (if b.repo in s.active
        then expected == Some(s.active[b.repo]) && s.builds[s.active[b.repo]].generation < b.generation
        else expected.None?)
  }

  // The rows of an edge can be sealed.
  ghost predicate Sealable(s: Store, json: Json, b: GraphBuild, f: Facts, k: Id)
    requires IsFacts(s, b, f) && k in b.edges
  {
    |f.named[k]| <= 1000 && Known(s, b.edges[k]) && |Join(json.rows(f.rows[k]))| <= 1048576
  }

  lemma RowsFacts(s: Store, json: Json, b: GraphBuild, f: Facts, k: Id)
    requires Keyed(s) && Referenced(s) && IsFacts(s, b, f) && k in b.edges
    ensures RowsFor(s, json, b.edges[k]).Ok? <==> Sealable(s, json, b, f, k)
    ensures RowsFor(s, json, b.edges[k]).Ok? ==> RowsFor(s, json, b.edges[k]).value == f.rows[k]
    ensures RowsFor(s, json, b.edges[k]).Err? ==>
              RowsFor(s, json, b.edges[k]).error == if |f.named[k]| > 1000 || Known(s, b.edges[k]) then QueryBudget else Invariant
  {
    hide RowsFor, IsBehind, IsRows, Known, Join, Keyed, Referenced, IsDirect;
    RowsExact(s, json, b.edges[k], f.named[k], f.rows[k]);
  }

  lemma SealingIs(s: Store, json: Json, b: GraphBuild, expected: Option<Id>, f: Facts)
    requires ActiveOk(s) && IsFacts(s, b, f)
    ensures Sealing(s, json, b, expected) == if Publishable(s, b, expected, f) then Closure(s, json, b) else Err(Invariant)
  {
    hide Closure, CountsAgree, CoverageAgrees, IsDirect, RunningTotals, IsBehind, IsRows, Known;
    if b.coverage.Some? { CoverageIs(s, b, b.coverage.value, f.structural, f.resolved, f.catalog, f.sums); }
  }

  /** A publication is accepted exactly when its coverage is absent or agrees with its evidence,
      its edges stay inside, its id is new, it names the active build and is newer than it, or
      names none where there is none, and no edge cites more than a thousand or unknown pieces
      of evidence or has rows too long to write. A refusal says which. */
  lemma PublishAcceptedExactly(s: Store, json: Json, b: GraphBuild, expected: Option<Id>, f: Facts)
    requires StoreOk(s, json) && IsFacts(s, b, f)
    ensures var r := Outcome(s, json, Publish(b, expected));
            && (r.Ok? <==> Publishable(s, b, expected, f) && forall k :: k in b.edges ==> Sealable(s, json, b, f, k))
            && (!Publishable(s, b, expected, f) ==> r == Err(Invariant))
            && (Publishable(s, b, expected, f) && r.Err? ==>
                  exists k :: k in b.edges && !Sealable(s, json, b, f, k)
                    && (forall l :: l in b.edges && l < k ==> Sealable(s, json, b, f, l))
                    && r == Err(if |f.named[k]| > 1000 || Known(s, b.edges[k]) then QueryBudget else Invariant))
  {
    hide Closure, RowsFor, Publishable, Sealable, Sealing, IsFacts, Known, ActiveOk, Keyed, Referenced;
    SealingIs(s, json, b, expected, f);
    EdgesAre(s, b, f);
    ClosureFailsExactly(s, json, b);
    forall k | k in b.edges
      ensures RowsFor(s, json, b.edges[k]).Ok? <==> Sealable(s, json, b, f, k)
      ensures RowsFor(s, json, b.edges[k]).Err? ==>
                RowsFor(s, json, b.edges[k]).error == if |f.named[k]| > 1000 || Known(s, b.edges[k]) then QueryBudget else Invariant
    {
      RowsFacts(s, json, b, f, k);
    }
    if Publishable(s, b, expected, f) && Closure(s, json, b).Err? { ClosureError(s, json, b); }
  }

  lemma EdgesAre(s: Store, b: GraphBuild, f: Facts)
    requires IsFacts(s, b, f)
    ensures f.named.Keys == f.rows.Keys == b.edges.Keys
  {
  }

  /** An accepted publication becomes the active build of its repository, and for each of its
      relationships the rows of the last edge with that id are filed; nothing else changes. A
      refused one changes nothing. */
  lemma PublishExactly(s: Store, json: Json, b: GraphBuild, expected: Option<Id>, f: Facts)
    requires StoreOk(s, json) && IsFacts(s, b, f)
    ensures var r, t := Outcome(s, json, Publish(b, expected)), Apply(s, json, Publish(b, expected));
            if r.Err? then t == s
            else
              && t == s.(sealed := t.sealed, active := s.active[b.repo := b.id], builds := s.builds[b.id := b])
              && (forall x: (Id, Id) :: x in t.sealed <==> x in s.sealed || (x.0 == b.id && exists k :: k in b.edges && b.edges[k].id == x.1))
              && (forall x: (Id, Id) :: x in s.sealed ==> x in t.sealed && t.sealed[x] == s.sealed[x])
              && (forall k :: k in b.edges && (forall l :: l in b.edges && b.edges[l].id == b.edges[k].id ==> l <= k) ==>
                    (b.id, b.edges[k].id) in t.sealed && k in f.rows && t.sealed[(b.id, b.edges[k].id)] == f.rows[k])
  {
    hide Closure, RowsFor, Sealing, IsFacts, Known, ActiveOk, Keyed, Referenced, SealedOk, Filed, Published, Apply, BuildsKept, ReaderAccepts, SealedHere;
    var t := Apply(s, json, Publish(b, expected));
    PublishApplied(s, json, b, expected);
    if Sealing(s, json, b, expected).Ok? {
      var m := Sealing(s, json, b, expected).value;
      SealingIsClosure(s, json, b, expected);
      ClosureExact(s, json, b);
      PublishedFields(s, b, m);
      PublishedOnly(s, b, m);
      FiledFacts(b.id, m);
      PublishedSealed(s, json, b, expected);
      SealedWithin(s, Published(s, b, m));
      EdgesAre(s, b, f);
      forall k | k in b.edges && (forall l :: l in b.edges && b.edges[l].id == b.edges[k].id ==> l <= k)
        ensures (b.id, b.edges[k].id) in t.sealed && t.sealed[(b.id, b.edges[k].id)] == f.rows[k]
      {
        assert LastOf(b.edges, k);
        RowsFacts(s, json, b, f, k);
      }
    }
  }

  lemma PublishedOnly(s: Store, b: GraphBuild, m: map<Id, seq<Row>>)
    ensures var t := Published(s, b, m);
            t == s.(sealed := t.sealed, active := s.active[b.repo := b.id], builds := s.builds[b.id := b])
  {
    hide Filed;
  }

  lemma SealedWithin(s: Store, t: Store)
    requires BuildsKept(s, t)
    ensures forall x :: x in s.sealed ==> x in t.sealed && t.sealed[x] == s.sealed[x]
  {
  }

  // ----- records -----

  ghost predicate OnlyAdds<K(!new), V>(m: map<K, V>, n: map<K, V>, k: K, v: V) {
    forall x :: (x in n <==> x in m || x == k) && (x in m ==> n[x] == m[x]) && (x == k && x !in m ==> n[x] == v)
  }

  /** Evidence needs its file and a claim all the evidence it cites, and neither is ever
      overwritten; a claim whose id is taken by a different claim is refused. */
  lemma FactsExact(s: Store, json: Json, e: Evidence, c: Claim)
    ensures var r, t := Outcome(s, json, PutEvidence(e)), Apply(s, json, PutEvidence(e));
            && (r == if (e.snapshot, e.file) in s.files then Ok(()) else Err(Invariant))
            && (r.Err? ==> t == s) && (r.Ok? ==> t == s.(evidence := t.evidence) && OnlyAdds(s.evidence, t.evidence, e.id, e))
    ensures var r, t := Outcome(s, json, PutClaim(c)), Apply(s, json, PutClaim(c));
            && (r.Ok? <==> (forall x :: x in c.supporting || x in c.contradicting ==> x in s.evidence)
                           && (c.id in s.claims ==> s.claims[c.id] == c))
            && (r.Err? ==> r.error == Invariant && t == s)
            && (r.Ok? ==> t == s.(claims := t.claims) && OnlyAdds(s.claims, t.claims, c.id, c))
  {
    CitedIs(s, c);
  }

  lemma CitedIs(s: Store, c: Claim)
    ensures forall x :: x in Cited(c) <==> x in c.supporting || x in c.contradicting
    ensures SoundClaim(s, c) <==> forall x :: x in c.supporting || x in c.contradicting ==> x in s.evidence
  {
    forall x ensures x in Cited(c) <==> x in c.supporting || x in c.contradicting { }
  }

  /** A decision replaces what its slot holds exactly when that failed or answered other inputs. */
  lemma DecisionExact(s: Store, json: Json, d: Decision)
    ensures var t, key := Apply(s, json, PutDecision(d)), d.candidate + ":" + d.question;
            && Outcome(s, json, PutDecision(d)).Ok? && t == s.(decisions := t.decisions)
            && t.decisions.Keys == s.decisions.Keys + {key}
            && (forall x :: x in s.decisions && x != key ==> t.decisions[x] == s.decisions[x])
            && t.decisions[key] ==
                 if key in s.decisions && !s.decisions[key].failed && s.decisions[key].cacheKey == d.cacheKey then s.decisions[key] else d
  {
    hide Apply, Outcome;
    DecisionApplied(s, json, d);
    var key := d.candidate + ":" + d.question;
    assert key == DecisionKey(d.candidate, d.question);
  }

  lemma DecisionApplied(s: Store, json: Json, d: Decision)
    ensures var key := DecisionKey(d.candidate, d.question);
            Outcome(s, json, PutDecision(d)).Ok? && Apply(s, json, PutDecision(d)) ==
              if key in s.decisions && s.decisions[key].cacheKey == d.cacheKey && !s.decisions[key].failed then s
              else s.(decisions := s.decisions[key := d])
  {
    hide Sealing, First, WithFiles, SoundClaim, DecisionKey;
  }

  /** Inferences, runs, candidate sets and candidates are recorded once. A set needs its run,
      catalog and rubric to be those it was registered with, a candidate its set. */
  lemma AuditExact(s: Store, json: Json, op: Op)
    requires op.PutInference? || op.EnsureRun? || op.PutCandidate?
    ensures var r, t := Outcome(s, json, op), Apply(s, json, op);
            match op
            case PutInference(k, body) => r.Ok? && t == s.(inferences := t.inferences) && OnlyAdds(s.inferences, t.inferences, k, body)
            case EnsureRun(run, repo, snapshot, setId, catalog, rubric) =>
              && (r == if setId !in s.sets || s.sets[setId] == (run, catalog, rubric) then Ok(()) else Err(Invariant))
              && t == s.(runs := t.runs, sets := t.sets)
              && OnlyAdds(s.runs, t.runs, run, (repo, snapshot)) && OnlyAdds(s.sets, t.sets, setId, (run, catalog, rubric))
            case PutCandidate(setId, id, body) =>
              && (r == if setId in s.sets then Ok(()) else Err(Invariant))
              && (r.Err? ==> t == s)
              && (r.Ok? ==> t == s.(candidates := t.candidates) && OnlyAdds(s.candidates, t.candidates, id, (setId, body)))
            case _ => true
  {
    hide Sealing;
  }

  /** A registration is refused exactly if it lists a file of another snapshot; either way the
      files before the first such are registered, the last digest of a path standing, and nothing
      else changes. */
  lemma FilesExact(s: Store, json: Json, snapshot: Id, listed: seq<File>, n: nat)
    requires n <= |listed| && (forall i :: 0 <= i < n ==> listed[i].snapshot == snapshot) && (n < |listed| ==> listed[n].snapshot != snapshot)
    ensures var r, t := Outcome(s, json, EnsureFiles(snapshot, listed)), Apply(s, json, EnsureFiles(snapshot, listed));
            && (r == if n == |listed| then Ok(()) else Err(Invariant)) && t == s.(files := t.files)
            && (forall i :: 0 <= i < n && (forall j :: i < j < n ==> listed[j].path != listed[i].path) ==>
                  (snapshot, listed[i].path) in t.files && t.files[(snapshot, listed[i].path)] == listed[i].sha)
            && (forall x: (Id, Id) :: x.0 != snapshot || (forall i :: 0 <= i < n ==> listed[i].path != x.1) ==>
                  (x in t.files <==> x in s.files) && (x in s.files ==> t.files[x] == s.files[x]))
  {
    LeadingIs(snapshot, listed, n);
    WithFilesExact(s.files, snapshot, listed);
    var t := Apply(s, json, EnsureFiles(snapshot, listed));
    forall i: nat | i < n && (forall j :: i < j < n ==> listed[j].path != listed[i].path)
      ensures (snapshot, listed[i].path) in t.files && t.files[(snapshot, listed[i].path)] == listed[i].sha
    {
      assert LastListed(listed, n, i);
    }
    forall x: (Id, Id) | x.0 != snapshot || (forall i :: 0 <= i < n ==> listed[i].path != x.1)
      ensures (x in t.files <==> x in s.files) && (x in s.files ==> t.files[x] == s.files[x])
    {
      assert x.0 != snapshot || !PathIn(listed, n, x.1);
    }
  }

  lemma LeadingIs(snapshot: Id, listed: seq<File>, n: nat)
    requires n <= |listed| && (forall i :: 0 <= i < n ==> listed[i].snapshot == snapshot) && (n < |listed| ==> listed[n].snapshot != snapshot)
    ensures Leading(snapshot, listed) == n
  {
    var m := Leading(snapshot, listed);
    assert m < |listed| ==> listed[m].snapshot != snapshot;
  }

  // ----- the digest -----

  /** The hashed text: the build, then one member for each relationship in ascending order,
      separated by commas. */
  lemma CanonicalExact(json: Json, b: GraphBuild, m: map<Id, seq<Row>>, ids: seq<Id>, members: seq<string>)
    requires (forall i, j :: 0 <= i < j < |ids| ==> ids[i] < ids[j]) && (forall x :: x in ids <==> x in m)
    requires |members| == |ids| && forall i :: 0 <= i < |ids| ==>
               ids[i] in m && members[i] == (if i == 0 then "" else ",") + json.key(ids[i]) + ":" + Join(json.rows(m[ids[i]]))
    ensures Canonical(json, b, m) == "[" + json.build(b) + ",{" + Join(members) + "}]\0"
  {
    hide Entries, Join, Ascending;
    AscendingFacts(m.Keys);
    AscendingUnique(ids, Ascending(m.Keys));
    EntriesAre(json, m, ids, members);
    assert "[" + json.build(b) + "," + "{" + Join(members) + "}" + "]\0" == "[" + json.build(b) + ",{" + Join(members) + "}]\0";
  }

  lemma {:induction false} EntriesAre(json: Json, m: map<Id, seq<Row>>, ids: seq<Id>, members: seq<string>)
    requires forall x :: x in ids ==> x in m
    requires |members| == |ids| && forall i :: 0 <= i < |ids| ==>
               members[i] == (if i == 0 then "" else ",") + json.key(ids[i]) + ":" + Join(json.rows(m[ids[i]]))
    ensures Entries(json, m, ids) == Join(members)
    decreases |ids|
  {
    hide Entries, Join;
    EntriesNone(json, m);
    if ids == [] {
    } else {
      var n := |ids| - 1;
      EntriesAre(json, m, ids[..n], members[..n]);
      EntriesLast(json, m, ids);
      JoinAppend(members[..n], [members[n]]);
      assert members == members[..n] + [members[n]];
      JoinOne(members[n]);
      Regroup(Entries(json, m, ids[..n]), if n == 0 then "" else ",", json.key(ids[n]) + ":" + Join(json.rows(m[ids[n]])));
      Regroup(if n == 0 then "" else ",", json.key(ids[n]) + ":", Join(json.rows(m[ids[n]])));
      Regroup(if n == 0 then "" else ",", json.key(ids[n]), ":");
    }
  }

  lemma EntriesLast(json: Json, m: map<Id, seq<Row>>, ids: seq<Id>)
    requires ids != [] && forall x :: x in ids ==> x in m
    ensures var n := |ids| - 1;
            Entries(json, m, ids) == Entries(json, m, ids[..n]) + (if n == 0 then "" else ",")
                                     + (json.key(ids[n]) + ":" + Join(json.rows(m[ids[n]])))
  {
    hide Join;
  }

  lemma Regroup(a: string, b: string, c: string)
    ensures a + b + c == a + (b + c)
  {
  }

  lemma EntriesNone(json: Json, m: map<Id, seq<Row>>)
    ensures Entries(json, m, []) == Join([])
  {
  }

  lemma JoinOne(x: string)
    ensures Join([x]) == x
  {
    assert [x][1..] == [];
  }
}
