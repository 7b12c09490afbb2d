// The in-memory store with its maps updated in place, and the evidence it seals.
module EvidenceStore {

  import opened EvidenceModel
  import opened EvidenceSealing

  function SaturatingSub(a: nat, b: nat): nat { if a < b then 0 else a - b }

  // Accepts pieces until one does not fit in what is left of the byte limit.
  class Counter {
    var used: nat

    constructor ()
      ensures used == 0
    {
      used := 0;
    }

    method Write(piece: string) returns (ok: bool)
      modifies this
      ensures ok <==> |piece| == 0 || old(used) + |piece| <= 1024 * 1024
      ensures used == old(used) + if ok then |piece| else 0
    {
      if |piece| > SaturatingSub(BYTES_MAX, used) { return false; }
      used := used + |piece|;
      return true;
    }
  }

  // However the rows are cut into pieces, they are accepted exactly when all of them fit.
  method Fits(pieces: seq<string>) returns (ok: bool)
    ensures ok <==> |Join(pieces)| <= BYTES_MAX
  {
    var counter := new Counter();
    var i := 0;
    while i < |pieces|
      invariant i <= |pieces| && counter.used == |Join(pieces[..i])| <= BYTES_MAX
    {
      JoinAppend(pieces[..i], [pieces[i]]);
      assert pieces[..i + 1] == pieces[..i] + [pieces[i]];
      assert Join([pieces[i]]) == pieces[i] by { assert [pieces[i]][1..] == []; }
      var fitted := counter.Write(pieces[i]);
      if !fitted {
        JoinAppend(pieces[..i + 1], pieces[i + 1..]);
        assert pieces == pieces[..i + 1] + pieces[i + 1..];
        return false;
      }
      i := i + 1;
    }
    assert pieces[..i] == pieces;
    return true;
  }

  // Neighbouring ids in order are all in order.
  lemma AcceptedAscending(json: Json, rows: seq<Row>)
    ensures ReaderAccepts(json, rows) <==>
              |Join(json.rows(rows))| <= 1024 * 1024 && forall i, j :: 0 <= i < j < |rows| ==> rows[i].id < rows[j].id
  {
    hide Join;
    if forall i :: 0 <= i < |rows| - 1 ==> rows[i].id < rows[i + 1].id { RisesThroughout(rows, |rows|); }
  }

  lemma {:induction false} RisesThroughout(rows: seq<Row>, n: nat)
    requires n <= |rows| && forall i :: 0 <= i < n - 1 ==> rows[i].id < rows[i + 1].id
    ensures forall i, j :: 0 <= i < j < n ==> rows[i].id < rows[j].id
  {
    if n > 1 {
      RisesThroughout(rows, n - 1);
      assert rows[n - 2].id < rows[n - 2 + 1].id;
    }
  }

  // What the published reader returns for a stored row list, or for none: the first rows, up to
  // the limit, of a list that is short enough and strictly ascending, and an error otherwise.
  method ReadEvidence(json: Json, stored: Option<seq<Row>>, limit: int) returns (r: Result<seq<Row>>)
    ensures limit <= 0 || stored.None? ==> r == Ok([])
    ensures limit > 0 && stored.Some? ==>
              (r.Ok? <==> ReaderAccepts(json, stored.value))
              && (r.Ok? <==> |Join(json.rows(stored.value))| <= 1024 * 1024
                             && forall i, j :: 0 <= i < j < |stored.value| ==> stored.value[i].id < stored.value[j].id)
    ensures limit > 0 && stored.Some? && r.Ok? ==>
              r.value <= stored.value && |r.value| == if limit < |stored.value| then limit else |stored.value|
    ensures r.Err? ==> r.error == if |Join(json.rows(stored.value))| > 1024 * 1024 then QueryBudget else ClosureUnavailable
  {
    if limit <= 0 || stored.None? { return Ok([]); }
    var rows := stored.value;
    AcceptedAscending(json, rows);
    if |Join(json.rows(rows))| > BYTES_MAX { return Err(QueryBudget); }
    var i := 0;
    while i + 1 < |rows|
      invariant 0 <= i && forall j :: 0 <= j < i && j < |rows| - 1 ==> rows[j].id < rows[j + 1].id
    {
      if rows[i].id >= rows[i + 1].id { return Err(ClosureUnavailable); }
      i := i + 1;
    }
    return Ok(if limit < |rows| then rows[..limit] else rows);
  }

  // The next key of an ascending traversal.
  lemma AscendingStep(all: set<nat>, done: seq<nat>, rest: set<nat>)
    requires rest != {} && Ascending(all) == done + Ascending(rest)
    ensures Ascending(all) == done + [Least(rest)] + Ascending(rest - {Least(rest)})
  {
  }

  class MemoryStore {
    const json: Json
    var files: map<(Id, Id), Sha>
    var evidence: map<Id, Evidence>
    var claims: map<Id, Claim>
    var decisions: map<string, Decision>
    var inferences: map<Id, string>
    var runs: map<Id, (Id, Id)>
    var sets: map<Id, (Id, Id, Id)>
    var candidates: map<Id, (Id, string)>
    var builds: map<Id, GraphBuild>
    var active: map<Id, Id>
    var sealed: map<(Id, Id), seq<Row>>

    function View(): Store
      reads this
    {
      Store(files, evidence, claims, decisions, inferences, runs, sets, candidates, builds, active, sealed)
    }

    constructor (json: Json)
      ensures this.json == json
      ensures View() == Store(map[], map[], map[], map[], map[], map[], map[], map[], map[], map[], map[])
    {
      this.json := json;
      files, evidence, claims, decisions, inferences := map[], map[], map[], map[], map[];
      runs, sets, candidates, builds, active, sealed := map[], map[], map[], map[], map[], map[];
    }

    method ValidateClaim(claim: Claim) returns (ok: bool)
      ensures ok <==> SoundClaim(View(), claim)
    {
      var cited := Cited(claim);
      var i := 0;
      while i < |cited|
        invariant i <= |cited| && forall j :: 0 <= j < i ==> cited[j] in evidence
      {
        if cited[i] !in evidence { return false; }
        i := i + 1;
      }
      return true;
    }

    // Claims grouped by the relation they are about.
    method ClaimsByRelation() returns (groups: map<Id, seq<Claim>>)
      ensures Grouped(claims, claims.Keys, groups)
    {
      groups := map[];
      var rest := claims.Keys;
      while rest != {}
        invariant rest <= claims.Keys && Grouped(claims, claims.Keys - rest, groups)
        decreases |rest|
      {
        var k := Least(rest);
        var claim := claims[k];
        GroupedOneMore(claims, claims.Keys - rest, groups, k);
        groups := groups[claim.relation := (if claim.relation in groups then groups[claim.relation] else []) + [claim]];
        assert claims.Keys - (rest - {k}) == claims.Keys - rest + {k};
        rest := rest - {k};
      }
      assert claims.Keys - rest == claims.Keys;
    }

    // The ids an edge and the claims about it name, unless a claim names missing evidence.
    method CollectIds(edge: Edge, about: seq<Claim>) returns (r: Result<set<Id>>)
      requires About(claims, edge.id, about)
      ensures r == if exists k :: k in claims && claims[k].relation == edge.id && !SoundClaim(View(), claims[k]) then Err(Invariant)
                   else Ok(Named(View(), edge))
    {
      var ids := set x | x in edge.evidence;
      var i := 0;
      while i < |about|
        invariant i <= |about| && (forall j :: 0 <= j < i ==> SoundClaim(View(), about[j]))
        invariant ids == (set x | x in edge.evidence) + CitedBy(about[..i])
      {
        var valid := ValidateClaim(about[i]);
        if !valid {
          assert about[i] in about;
          return Err(Invariant);
        }
        ids := ids + set x | x in Cited(about[i]);
        CitedByOneMore(about, i);
        i := i + 1;
      }
      assert about[..i] == about;
      NamedByGroup(View(), edge, about);
      return Ok(ids);
    }

    method ListRows(ids: set<Id>) returns (r: Result<seq<Row>>)
      ensures r == Listed(View(), ids)
    {
      hide Ascending, Available, RowList, RowAt;
      StreamEnds(ids);
      RowListEmpty(View());
      var rows, rest := [], ids;
      ghost var s, done: seq<Id> := View(), [];
      while rest != {}
        invariant View() == s && rest <= ids && Ascending(ids) == done + Ascending(rest)
        invariant (forall x :: x in done ==> Available(s, x)) && rows == RowList(s, done)
        decreases |rest|
      {
        var x := Least(rest);
        RowIs(s, x);
        if x !in evidence { return Err(Invariant); }
        var e := evidence[x];
        if (e.snapshot, e.file) !in files { return Err(Invariant); }
        AscendingStep(ids, done, rest);
        RowListOneMore(s, done, x);
        rows := rows + [Row(e.id, e.kind, e.supports, e.detail, e.producer, e.snapshot, e.file, files[(e.snapshot, e.file)])];
        done := done + [x];
        rest := rest - {x};
      }
      assert done == done + Ascending({});
      return Ok(rows);
    }

    method EvidenceRows(edge: Edge, about: seq<Claim>) returns (r: Result<seq<Row>>)
      requires About(claims, edge.id, about)
      ensures r == RowsFor(View(), json, edge)
    {
      hide Named, SoundClaim, About, Listed, Join;
      var collected := CollectIds(edge, about);
      if collected.Err? { return Err(collected.error); }
      if |collected.value| > ROWS_MAX { return Err(QueryBudget); }
      r := ListRows(collected.value);
      if r.Ok? {
        var fits := Fits(json.rows(r.value));
        if !fits { r := Err(QueryBudget); }
      }
    }

    method RowsOf(edge: Edge, groups: map<Id, seq<Claim>>) returns (r: Result<seq<Row>>)
      requires Grouped(claims, claims.Keys, groups)
      ensures r == RowsFor(View(), json, edge)
    {
      GroupIsAbout(claims, groups, edge.id);
      r := EvidenceRows(edge, if edge.id in groups then groups[edge.id] else []);
    }

    // Edges in key order; a later edge with the same id replaces the rows of an earlier one.
    method EvidenceClosure(b: GraphBuild) returns (r: Result<map<(Id, Id), seq<Row>>>)
      ensures r == match Closure(View(), json, b) case Err(e) => Err(e) case Ok(m) => Ok(Filed(b.id, m))
    {
      hide RowsFor, Grouped, Filed, Closure, ClosureOf, Ascending;
      var groups := ClaimsByRelation();
      var closure, rest := map[], b.edges.Keys;
      ghost var s, done: seq<Id>, m: map<Id, seq<Row>> := View(), [], map[];
      ClosureStarts(s, json, b);
      while rest != {}
        invariant View() == s && Grouped(claims, claims.Keys, groups)
        invariant rest <= b.edges.Keys && Ascending(b.edges.Keys) == done + Ascending(rest) && InEdges(b, done)
        invariant ClosureOf(s, json, b, done) == Ok(m) && closure == Filed(b.id, m)
        decreases |rest|
      {
        var k := Least(rest);
        var edge := b.edges[k];
        var rows := RowsOf(edge, groups);
        AscendingStep(b.edges.Keys, done, rest);
        ClosureOfNext(s, json, b, done, k);
        if rows.Err? {
          ClosureOfStops(s, json, b, done + [k], Ascending(rest - {k}));
          return Err(rows.error);
        }
        FiledOneMore(b.id, m, edge.id, rows.value);
        closure := closure[(b.id, edge.id) := rows.value];
        m := m[edge.id := rows.value];
        done := done + [k];
        rest := rest - {k};
      }
      assert done == done + Ascending({});
      return Ok(closure);
    }

    method PublicationEvidence(b: GraphBuild) returns (r: Result<map<Id, seq<Row>>>)
      ensures r == Closure(View(), json, b)
    {
      hide Closure, Filed;
      var closure := EvidenceClosure(b);
      if closure.Err? { return Err(closure.error); }
      ghost var m := Closure(View(), json, b).value;
      FiledBack(b.id, m);
      return Ok(map rel | rel in (set x | x in closure.value :: x.1) && (b.id, rel) in closure.value :: closure.value[(b.id, rel)]);
    }

    // The last edge of each id; the edges it shadows must still have their rows.
    method LastEdges(b: GraphBuild, groups: map<Id, seq<Claim>>) returns (r: Result<map<Id, Edge>>, ghost at: map<Id, Id>)
      requires Grouped(claims, claims.Keys, groups)
      ensures r.Ok? ==> Lasts(b.edges, b.edges.Keys, at, r.value) && ShadowedOk(View(), json, b.edges, b.edges.Keys, at)
      ensures r.Err? ==> exists k :: k in b.edges && RowsFor(View(), json, b.edges[k]).Err?
    {
      hide RowsFor, Grouped, Lasts, ShadowedOk;
      var last: map<Id, Edge> := map[];
      var rest := b.edges.Keys;
      at := map[];
      ghost var s := View();
      NothingSeen(s, json, b.edges);
      while rest != {}
        invariant View() == s && Grouped(claims, claims.Keys, groups)
        invariant rest <= b.edges.Keys && (forall x, y :: x in b.edges.Keys - rest && y in rest ==> x < y)
        invariant Lasts(b.edges, b.edges.Keys - rest, at, last)
        invariant ShadowedOk(s, json, b.edges, b.edges.Keys - rest, at)
        decreases |rest|
      {
        var k := Least(rest);
        var edge := b.edges[k];
        LastsInside(b.edges, b.edges.Keys - rest, at, last);
        if edge.id in last {
          var rows := RowsOf(last[edge.id], groups);
          if rows.Err? { return Err(rows.error), at; }
        }
        LastsOneMore(s, json, b.edges, b.edges.Keys - rest, at, last, k);
        assert b.edges.Keys - (rest - {k}) == b.edges.Keys - rest + {k};
        last := last[edge.id := edge];
        at := at[edge.id := k];
        rest := rest - {k};
      }
      assert b.edges.Keys - rest == b.edges.Keys;
      return Ok(last), at;
    }

    // Writes the closure as an object with ascending keys, holding the rows of one edge at a time.
    method StreamClosure(edges: map<Id, Edge>, groups: map<Id, seq<Claim>>, head: string)
        returns (r: Result<string>, ghost m: map<Id, seq<Row>>)
      requires Grouped(claims, claims.Keys, groups)
      ensures r.Ok? ==> RowsSoFar(View(), json, edges, Ascending(edges.Keys), m) && m.Keys == edges.Keys
      ensures r.Ok? ==> r.value == head + Entries(json, m, Ascending(edges.Keys))
      ensures r.Err? ==> exists id :: id in edges && RowsFor(View(), json, edges[id]).Err?
    {
      hide RowsFor, Grouped, Ascending, Entries, Join, RowsSoFar, Entry;
      var text, rest := head, edges.Keys;
      ghost var s, done: seq<Id> := View(), [];
      m := map[];
      StreamStarts(s, json, edges);
      while rest != {}
        invariant View() == s && Grouped(claims, claims.Keys, groups)
        invariant rest <= edges.Keys && Ascending(edges.Keys) == done + Ascending(rest)
        invariant (forall x :: x in done <==> x in m) && RowsSoFar(s, json, edges, done, m) && text == head + Entries(json, m, done)
        invariant (done == []) == (rest == edges.Keys)
        decreases |rest|
      {
        var id := Least(rest);
        var rows := RowsOf(edges[id], groups);
        if rows.Err? { return Err(rows.error), m; }
        NotYetDone(edges.Keys, done, rest);
        AscendingStep(edges.Keys, done, rest);
        EntriesOneMore(s, json, edges, done, m, id, rows.value);
        text := text + (if rest == edges.Keys then "" else ",") + Entry(json, id, rows.value);
        m := m[id := rows.value];
        done := done + [id];
        rest := rest - {id};
      }
      StreamEnds(edges.Keys);
      assert done == done + Ascending({});
      return Ok(text), m;
    }

    // The text that is hashed is the canonical one, produced exactly when the closure exists.
    method PublicationDigest(b: GraphBuild) returns (r: Result<string>)
      ensures r.Ok? <==> Closure(View(), json, b).Ok?
      ensures r.Ok? ==> r.value == Canonical(json, b, Closure(View(), json, b).value)
    {
      hide RowsFor, Grouped, Closure, Lasts, ShadowedOk, Entries, Canonical, RowsSoFar, Ascending;
      ClosureFailsExactly(View(), json, b);
      var groups := ClaimsByRelation();
      var edges;
      ghost var at;
      edges, at := LastEdges(b, groups);
      if edges.Err? { return Err(edges.error); }
      LastsInside(b.edges, b.edges.Keys, at, edges.value);
      var text;
      ghost var m;
      text, m := StreamClosure(edges.value, groups, "[" + json.build(b) + "," + "{");
      if text.Err? { return Err(text.error); }
      StreamedIsClosure(View(), json, b, at, edges.value, m);
      CanonicalText(json, b, m);
      return Ok(text.value + "}" + "]\0");
    }

    // ----- recording -----

    method EnsureSnapshotFiles(snapshot: Id, listed: seq<File>) returns (r: Result<()>)
      modifies this`files
      ensures View() == Apply(old(View()), json, EnsureFiles(snapshot, listed))
      ensures r == Outcome(old(View()), json, EnsureFiles(snapshot, listed))
    {
      var i := 0;
      while i < |listed|
        invariant i <= |listed| && (forall j :: 0 <= j < i ==> listed[j].snapshot == snapshot)
        invariant WithFiles(old(files), snapshot, listed) == WithFiles(files, snapshot, listed[i..])
      {
        var f := listed[i];
        if f.snapshot != snapshot { return Err(Invariant); }
        files := files[(snapshot, f.path) := f.sha];
        i := i + 1;
      }
      return Ok(());
    }

    method PutEvidence(e: Evidence) returns (r: Result<()>)
      modifies this`evidence
      ensures View() == Apply(old(View()), json, Op.PutEvidence(e)) && r == Outcome(old(View()), json, Op.PutEvidence(e))
    {
      if (e.snapshot, e.file) !in files { return Err(Invariant); }
      evidence := First(evidence, e.id, e);
      return Ok(());
    }

    method PutClaim(c: Claim) returns (r: Result<()>)
      modifies this`claims
      ensures View() == Apply(old(View()), json, Op.PutClaim(c)) && r == Outcome(old(View()), json, Op.PutClaim(c))
    {
      var valid := ValidateClaim(c);
      if !valid || (c.id in claims && claims[c.id] != c) { return Err(Invariant); }
      claims := First(claims, c.id, c);
      return Ok(());
    }

    method PutDecision(d: Decision)
      modifies this`decisions
      ensures View() == Apply(old(View()), json, Op.PutDecision(d))
    {
      var key := DecisionKey(d.candidate, d.question);
      var replace := key !in decisions || decisions[key].cacheKey != d.cacheKey || decisions[key].failed;
      if replace { decisions := decisions[key := d]; }
    }

    method PutInference(reuseKey: Id, body: string)
      modifies this`inferences
      ensures View() == Apply(old(View()), json, Op.PutInference(reuseKey, body))
    {
      inferences := First(inferences, reuseKey, body);
    }

    method EnsureRun(run: Id, repo: Id, snapshot: Id, setId: Id, catalog: Id, rubric: Id) returns (r: Result<()>)
      modifies this`runs, this`sets
      ensures View() == Apply(old(View()), json, Op.EnsureRun(run, repo, snapshot, setId, catalog, rubric))
      ensures r == Outcome(old(View()), json, Op.EnsureRun(run, repo, snapshot, setId, catalog, rubric))
    {
      runs := First(runs, run, (repo, snapshot));
      if setId in sets {
        if sets[setId] != (run, catalog, rubric) { return Err(Invariant); }
        return Ok(());
      }
      sets := sets[setId := (run, catalog, rubric)];
      return Ok(());
    }

    method PutCandidate(setId: Id, candidate: Id, body: string) returns (r: Result<()>)
      modifies this`candidates
      ensures View() == Apply(old(View()), json, Op.PutCandidate(setId, candidate, body))
      ensures r == Outcome(old(View()), json, Op.PutCandidate(setId, candidate, body))
    {
      if setId !in sets { return Err(Invariant); }
      candidates := First(candidates, candidate, (setId, body));
      return Ok(());
    }

    // ----- publishing -----

    // How many edges rest entirely on produced, supporting evidence of one class.
    method CountDirect(b: GraphBuild, kind: Class, producer: Option<string>) returns (n: nat)
      ensures n == |Direct(evidence, b, kind, producer)|
    {
      hide DirectEdge, DirectIn, Direct;
      DirectWhole(evidence, b, kind, producer);
      n := 0;
      var rest := b.edges.Keys;
      assert b.edges.Keys - rest == {};
      while rest != {}
        invariant rest <= b.edges.Keys && n == |DirectIn(evidence, b, kind, producer, b.edges.Keys - rest)|
        decreases |rest|
      {
        var k := Least(rest);
        DirectOneMore(evidence, b, kind, producer, b.edges.Keys - rest, k);
        if DirectEdge(evidence, b.edges[k], kind, producer) { n := n + 1; }
        assert b.edges.Keys - (rest - {k}) == b.edges.Keys - rest + {k};
        rest := rest - {k};
      }
      assert b.edges.Keys - rest == b.edges.Keys;
    }

    method SumFacts(facts: seq<nat>) returns (n: nat)
      ensures n == Total(facts)
    {
      n := 0;
      var i := 0;
      while i < |facts|
        invariant i <= |facts| && n == Total(facts[..i])
      {
        assert facts[..i + 1][..i] == facts[..i];
        n := n + facts[i];
        i := i + 1;
      }
      assert facts[..i] == facts;
    }

    // The subtraction is safe: no edge is counted twice.
    method CheckCoverage(b: GraphBuild, c: Coverage) returns (ok: bool)
      ensures ok <==> CoverageAgrees(evidence, b, c)
    {
      hide Direct, Total, DirectEdge;
      var structural := CountDirect(b, Extracted, None);
      var resolved := CountDirect(b, Inferred, None);
      var catalog := CountDirect(b, Extracted, Some(CATALOG));
      DirectClassesDisjoint(evidence, b);
      var remaining: nat := |b.edges| - structural - resolved;
      var total := SumFacts(c.facts);
      ok := OrZero(c.catalog) == catalog && c.structural + OrZero(c.compiler) + catalog == structural
        && c.resolved == resolved && c.decision == remaining && total == c.structural;
    }

    method CheckInside(b: GraphBuild) returns (ok: bool)
      ensures ok <==> Inside(b)
    {
      var rest := b.edges.Keys;
      while rest != {}
        invariant rest <= b.edges.Keys
        invariant forall k :: k in b.edges && k !in rest ==> b.edges[k].from in b.nodes && b.edges[k].to in b.nodes
        decreases |rest|
      {
        var k := Least(rest);
        if b.edges[k].from !in b.nodes || b.edges[k].to !in b.nodes { return false; }
        rest := rest - {k};
      }
      return true;
    }

    method SealBuild(b: GraphBuild) returns (r: Result<()>)
      modifies this`sealed
      ensures b.id in builds ==> r == Err(Invariant)
      ensures b.id !in builds ==>
                r == (match Closure(old(View()), json, b) case Err(e) => Err(e) case Ok(_) => Ok(()))
      ensures sealed == if r.Ok? then old(sealed) + Filed(b.id, Closure(old(View()), json, b).value) else old(sealed)
    {
      hide Closure, Filed;
      if b.id in builds { return Err(Invariant); }
      var closure := EvidenceClosure(b);
      if closure.Err? { return Err(closure.error); }
      sealed := sealed + closure.value;
      return Ok(());
    }

    method Publish(b: GraphBuild, expected: Option<Id>) returns (r: Result<()>)
      modifies this`sealed, this`active, this`builds
      ensures View() == Apply(old(View()), json, Op.Publish(b, expected))
      ensures r == Outcome(old(View()), json, Op.Publish(b, expected))
    {
      hide Closure, Filed, CoverageAgrees, Inside;
      if b.coverage.Some? {
        var agrees := CheckCoverage(b, b.coverage.value);
        if !agrees { return Err(Invariant); }
      }
      var inside := CheckInside(b);
      if !inside { return Err(Invariant); }
      if b.repo in active {
        if active[b.repo] !in builds { return Err(NotFound); }
        var cur := builds[active[b.repo]];
        if expected != Some(cur.id) { return Err(Invariant); }
        if b.generation <= cur.generation { return Err(Invariant); }
      } else if expected.Some? {
        return Err(Invariant);
      }
      var isSealed := SealBuild(b);
      if isSealed.Err? { return isSealed; }
      active := active[b.repo := b.id];
      builds := builds[b.id := b];
      return Ok(());
    }
  }

  // All the claims about a relation, in some order.
  ghost predicate About(claims: map<Id, Claim>, relation: Id, about: seq<Claim>) {
    && (forall k :: k in claims && claims[k].relation == relation ==> claims[k] in about)
    && (forall c :: c in about ==> c.relation == relation && exists k :: k in claims && claims[k] == c)
  }

  lemma GroupIsAbout(claims: map<Id, Claim>, groups: map<Id, seq<Claim>>, relation: Id)
    requires Grouped(claims, claims.Keys, groups)
    ensures About(claims, relation, if relation in groups then groups[relation] else [])
  {
    var about := if relation in groups then groups[relation] else [];
    forall c | c in about ensures c.relation == relation && exists k :: k in claims && claims[k] == c {
      var i :| 0 <= i < |about| && about[i] == c;
      assert Visited(claims, claims.Keys, relation, groups[relation][i]);
    }
  }

  ghost function CitedBy(about: seq<Claim>): set<Id> { set j, x | 0 <= j < |about| && x in Cited(about[j]) :: x }

  lemma CitedByOneMore(about: seq<Claim>, i: nat)
    requires i < |about|
    ensures CitedBy(about[..i + 1]) == CitedBy(about[..i]) + set x | x in Cited(about[i])
  {
    var a, b := about[..i], about[..i + 1];
    forall x | x in CitedBy(a) ensures x in CitedBy(b) {
      var j :| 0 <= j < |a| && x in Cited(a[j]);
      assert b[j] == a[j];
    }
    forall x | x in Cited(about[i]) ensures x in CitedBy(b) { assert b[i] == about[i]; }
    forall x | x in CitedBy(b) ensures x in CitedBy(a) || x in Cited(about[i]) {
      var j :| 0 <= j < |b| && x in Cited(b[j]);
      assert j < i ==> a[j] == b[j];
    }
  }

  lemma NamedByGroup(s: Store, edge: Edge, about: seq<Claim>)
    requires About(s.claims, edge.id, about)
    ensures Named(s, edge) == (set x | x in edge.evidence) + CitedBy(about)
  {
    forall x | x in CitedBy(about) ensures x in Named(s, edge) {
      var j :| 0 <= j < |about| && x in Cited(about[j]);
      assert about[j] in about;
    }
    forall k, x | k in s.claims && s.claims[k].relation == edge.id && x in Cited(s.claims[k]) ensures x in CitedBy(about) {
      assert s.claims[k] in about;
    }
  }

  // Each group holds exactly the claims about its relation, as far as they have been visited.
  ghost predicate Grouped(claims: map<Id, Claim>, done: set<Id>, groups: map<Id, seq<Claim>>)
    requires done <= claims.Keys
  {
    && (forall k :: k in done ==> claims[k].relation in groups && claims[k] in groups[claims[k].relation])
    && (forall r, i :: r in groups && 0 <= i < |groups[r]| ==> Visited(claims, done, r, groups[r][i]))
  }

  ghost predicate Visited(claims: map<Id, Claim>, done: set<Id>, r: Id, c: Claim)
    requires done <= claims.Keys
  {
    c.relation == r && exists k :: k in done && claims[k] == c
  }

  lemma GroupedOneMore(claims: map<Id, Claim>, done: set<Id>, groups: map<Id, seq<Claim>>, k: Id)
    requires done <= claims.Keys && k in claims && Grouped(claims, done, groups)
    ensures Grouped(claims, done + {k},
              groups[claims[k].relation := (if claims[k].relation in groups then groups[claims[k].relation] else []) + [claims[k]]])
  {
    var more, rel := done + {k}, claims[k].relation;
    var group := if rel in groups then groups[rel] else [];
    var now := groups[rel := group + [claims[k]]];
    forall r, i | r in now && 0 <= i < |now[r]| ensures Visited(claims, more, r, now[r][i]) {
      if r == rel && i == |group| {
        assert k in more && claims[k] == now[r][i];
      } else {
        assert Visited(claims, done, r, groups[r][i]);
      }
    }
    forall j | j in more ensures claims[j].relation in now && claims[j] in now[claims[j].relation] {
      if j == k { assert now[rel][|group|] == claims[k]; }
    }
  }

  // ----- the closure, edge by edge -----

  lemma FiledOneMore(b: Id, m: map<Id, seq<Row>>, rel: Id, rows: seq<Row>)
    ensures Filed(b, m[rel := rows]) == Filed(b, m)[(b, rel) := rows]
  {
  }

  lemma FiledBack(b: Id, m: map<Id, seq<Row>>)
    ensures var f := Filed(b, m);
            (map rel | rel in (set x | x in f :: x.1) && (b, rel) in f :: f[(b, rel)]) == m
  {
    var f := Filed(b, m);
    forall rel | rel in m ensures rel in (set x | x in f :: x.1) { assert (b, rel) in f; }
  }

  lemma ClosureOfNext(s: Store, json: Json, b: GraphBuild, done: seq<Id>, k: Id)
    requires InEdges(b, done) && k in b.edges && ClosureOf(s, json, b, done).Ok?
    ensures InEdges(b, done + [k])
    ensures ClosureOf(s, json, b, done + [k]) ==
              match RowsFor(s, json, b.edges[k])
              case Err(e) => Err(e)
              case Ok(rows) => Ok(ClosureOf(s, json, b, done).value[b.edges[k].id := rows])
  {
    hide RowsFor;
    assert (done + [k])[..|done|] == done;
  }

  // Once an edge fails, the traversal has failed with its error.
  lemma {:induction false} ClosureOfStops(s: Store, json: Json, b: GraphBuild, done: seq<Id>, more: seq<Id>)
    requires InEdges(b, done + more) && InEdges(b, done) && ClosureOf(s, json, b, done).Err?
    ensures ClosureOf(s, json, b, done + more) == ClosureOf(s, json, b, done)
    decreases |more|
  {
    hide RowsFor;
    if more == [] {
      assert done + more == done;
    } else {
      var n := |more| - 1;
      assert (done + more)[..|done| + n] == done + more[..n];
      ClosureOfStops(s, json, b, done, more[..n]);
    }
  }

  // ----- the streamed digest -----

  // `at` says at which key the last edge of each id sits, among the keys seen so far.
  ghost predicate Lasts(edges: map<Id, Edge>, seen: set<Id>, at: map<Id, Id>, last: map<Id, Edge>)
    requires seen <= edges.Keys
  {
    && at.Keys == last.Keys
    && (forall k :: k in seen ==> edges[k].id in at && k <= at[edges[k].id])
    && (forall id :: id in at ==> at[id] in seen && edges[at[id]].id == id && last[id] == edges[at[id]])
  }

  ghost predicate ShadowedOk(s: Store, json: Json, edges: map<Id, Edge>, seen: set<Id>, at: map<Id, Id>)
    requires seen <= edges.Keys
  {
    forall k :: k in seen && edges[k].id in at && at[edges[k].id] != k ==> RowsFor(s, json, edges[k]).Ok?
  }

  lemma LastsOneMore(s: Store, json: Json, edges: map<Id, Edge>, seen: set<Id>, at: map<Id, Id>, last: map<Id, Edge>, k: Id)
    requires seen <= edges.Keys && k in edges && (forall x :: x in seen ==> x < k)
    requires Lasts(edges, seen, at, last) && ShadowedOk(s, json, edges, seen, at)
    requires edges[k].id in last ==> RowsFor(s, json, last[edges[k].id]).Ok?
    ensures Lasts(edges, seen + {k}, at[edges[k].id := k], last[edges[k].id := edges[k]])
    ensures ShadowedOk(s, json, edges, seen + {k}, at[edges[k].id := k])
  {
    hide RowsFor;
  }

  ghost predicate RowsSoFar(s: Store, json: Json, last: map<Id, Edge>, done: seq<Id>, m: map<Id, seq<Row>>) {
    && (forall x :: x in done <==> x in m)
    && (forall x :: x in m ==> x in last && RowsFor(s, json, last[x]) == Ok(m[x]))
  }

  lemma {:induction false} EntriesAgree(json: Json, m: map<Id, seq<Row>>, n: map<Id, seq<Row>>, ids: seq<Id>)
    requires forall x :: x in ids ==> x in m && x in n && m[x] == n[x]
    ensures Entries(json, m, ids) == Entries(json, n, ids)
    decreases |ids|
  {
    if ids == [] {
    } else {
      EntriesAgree(json, m, n, ids[..|ids| - 1]);
    }
  }

  lemma EntriesOneMore(s: Store, json: Json, last: map<Id, Edge>, done: seq<Id>, m: map<Id, seq<Row>>, id: Id, rows: seq<Row>)
    requires RowsSoFar(s, json, last, done, m) && id in last && id !in done && RowsFor(s, json, last[id]) == Ok(rows)
    ensures RowsSoFar(s, json, last, done + [id], m[id := rows])
    ensures Entries(json, m[id := rows], done + [id]) ==
              Entries(json, m, done) + (if done == [] then "" else ",") + Entry(json, id, rows)
  {
    hide RowsFor;
    EntriesAgree(json, m, m[id := rows], done);
    assert (done + [id])[..|done|] == done;
  }

  lemma LastsAllOk(s: Store, json: Json, edges: map<Id, Edge>, at: map<Id, Id>, last: map<Id, Edge>, m: map<Id, seq<Row>>)
    requires Lasts(edges, edges.Keys, at, last) && ShadowedOk(s, json, edges, edges.Keys, at)
    requires forall x :: x in last ==> RowsFor(s, json, last[x]).Ok?
    ensures forall k :: k in edges ==> RowsFor(s, json, edges[k]).Ok?
  {
    hide RowsFor;
    forall k | k in edges ensures RowsFor(s, json, edges[k]).Ok? {
      if at[edges[k].id] == k { assert last[edges[k].id] == edges[k]; }
    }
  }

  lemma NothingSeen(s: Store, json: Json, edges: map<Id, Edge>)
    ensures edges.Keys - edges.Keys == {} && Lasts(edges, {}, map[], map[]) && ShadowedOk(s, json, edges, {}, map[])
  {
  }

  lemma LastsInside(edges: map<Id, Edge>, seen: set<Id>, at: map<Id, Id>, last: map<Id, Edge>)
    requires seen <= edges.Keys && Lasts(edges, seen, at, last)
    ensures forall id :: id in last ==> exists k :: k in edges && edges[k] == last[id]
  {
  }

  lemma CanonicalText(json: Json, b: GraphBuild, m: map<Id, seq<Row>>)
    ensures forall x :: x in Ascending(m.Keys) ==> x in m
    ensures "[" + json.build(b) + "," + "{" + Entries(json, m, Ascending(m.Keys)) + "}" + "]\0" == Canonical(json, b, m)
  {
    AscendingFacts(m.Keys);
  }

  lemma LastsAreLast(edges: map<Id, Edge>, at: map<Id, Id>, last: map<Id, Edge>)
    requires Lasts(edges, edges.Keys, at, last)
    ensures forall id :: id in at ==> LastOf(edges, at[id])
    ensures forall x :: x in last <==> exists k :: k in edges && edges[k].id == x
  {
  }

  lemma StreamedIsClosure(s: Store, json: Json, b: GraphBuild, at: map<Id, Id>, last: map<Id, Edge>, m: map<Id, seq<Row>>)
    requires Lasts(b.edges, b.edges.Keys, at, last) && ShadowedOk(s, json, b.edges, b.edges.Keys, at)
    requires RowsSoFar(s, json, last, Ascending(last.Keys), m) && m.Keys == last.Keys
    ensures Closure(s, json, b) == Ok(m)
  {
    hide RowsFor, Closure, ShadowedOk, Ascending, LastOf;
    LastsAllOk(s, json, b.edges, at, last, m);
    LastsAreLast(b.edges, at, last);
    ClosureFailsExactly(s, json, b);
    ClosureExact(s, json, b);
    var c := Closure(s, json, b).value;
    forall id | id in last ensures id in c && c[id] == m[id] {
      assert LastOf(b.edges, at[id]);
    }
    assert c == m;
  }

  lemma RowIs(s: Store, x: Id)
    ensures Available(s, x) <==> x in s.evidence && (s.evidence[x].snapshot, s.evidence[x].file) in s.files
    ensures Available(s, x) ==>
              var e := s.evidence[x];
              RowAt(s, x) == Row(e.id, e.kind, e.supports, e.detail, e.producer, e.snapshot, e.file, s.files[(e.snapshot, e.file)])
  {
  }

  lemma RowListEmpty(s: Store) ensures RowList(s, []) == [] {}

  lemma RowListOneMore(s: Store, done: seq<Id>, x: Id)
    requires (forall y :: y in done ==> Available(s, y)) && Available(s, x)
    ensures RowList(s, done + [x]) == RowList(s, done) + [RowAt(s, x)]
  {
    hide Available, RowAt;
  }

  ghost function DirectIn(evidence: map<Id, Evidence>, b: GraphBuild, kind: Class, producer: Option<string>, done: set<Id>): set<Id> {
    set k | k in done && k in b.edges && DirectEdge(evidence, b.edges[k], kind, producer)
  }

  lemma DirectOneMore(evidence: map<Id, Evidence>, b: GraphBuild, kind: Class, producer: Option<string>, done: set<Id>, k: Id)
    requires k in b.edges && k !in done
    ensures |DirectIn(evidence, b, kind, producer, done + {k})| ==
              |DirectIn(evidence, b, kind, producer, done)| + (if DirectEdge(evidence, b.edges[k], kind, producer) then 1 else 0)
  {
    hide DirectEdge;
    var d := DirectIn(evidence, b, kind, producer, done);
    if DirectEdge(evidence, b.edges[k], kind, producer) {
      assert DirectIn(evidence, b, kind, producer, done + {k}) == d + {k};
    } else {
      assert DirectIn(evidence, b, kind, producer, done + {k}) == d;
    }
  }

  lemma DirectWhole(evidence: map<Id, Evidence>, b: GraphBuild, kind: Class, producer: Option<string>)
    ensures DirectIn(evidence, b, kind, producer, {}) == {}
    ensures DirectIn(evidence, b, kind, producer, b.edges.Keys) == Direct(evidence, b, kind, producer)
  {
    hide DirectEdge;
  }

  lemma StreamStarts(s: Store, json: Json, last: map<Id, Edge>)
    ensures RowsSoFar(s, json, last, [], map[]) && Entries(json, map[], []) == ""
    ensures Ascending(last.Keys) == [] + Ascending(last.Keys)
  {
  }

  lemma StreamEnds(keys: set<Id>)
    ensures Ascending({}) == []
    ensures forall x :: x in Ascending(keys) <==> x in keys
  {
    AscendingFacts(keys);
  }

  // What remains of an ascending traversal has not been visited.
  lemma NotYetDone(all: set<Id>, done: seq<Id>, rest: set<Id>)
    requires rest != {} && Ascending(all) == done + Ascending(rest)
    ensures Least(rest) !in done
  {
    AscendingFacts(all);
    var k, i := Least(rest), |done|;
    assert Ascending(all)[i] == k;
    forall j | 0 <= j < |done| ensures done[j] != k { assert Ascending(all)[j] == done[j]; }
  }

  lemma ClosureStarts(s: Store, json: Json, b: GraphBuild)
    ensures ClosureOf(s, json, b, []) == Ok(map[]) && Filed(b.id, map[]) == map[]
    ensures Ascending({}) == [] && Ascending(b.edges.Keys) == [] + Ascending(b.edges.Keys)
    ensures InEdges(b, Ascending(b.edges.Keys)) && Closure(s, json, b) == ClosureOf(s, json, b, Ascending(b.edges.Keys))
  {
    AscendingFacts(b.edges.Keys);
  }
}
