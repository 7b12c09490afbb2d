// The in-memory store as a value, and what each of its operations does to it. Ordered maps are
// maps whose keys are numbers, traversed in ascending order.
module EvidenceModel {

  type Id = nat
  type Sha = nat

  const ROWS_MAX: nat := 1000
  const BYTES_MAX: nat := 1024 * 1024

  datatype Option<T> = None | Some(value: T)

  datatype Error = Invariant | QueryBudget | NotFound | ClosureUnavailable

  datatype Result<T> = Ok(value: T) | Err(error: Error)

  datatype Class = Extracted | Inferred | Ambiguous

  datatype Evidence = Evidence(
    id: Id, snapshot: Id, file: Id, kind: Class, supports: bool, producer: Option<string>, detail: string)

  datatype Row = Row(
    id: Id, kind: Class, supports: bool, detail: string, producer: Option<string>, snapshot: Id, file: Id, sha: Sha)

  datatype Claim = Claim(id: Id, relation: Id, supporting: seq<Id>, contradicting: seq<Id>)

  datatype Edge = Edge(id: Id, from: Id, to: Id, evidence: seq<Id>)

  datatype Coverage = Coverage(
    structural: nat, resolved: nat, decision: nat, catalog: Option<nat>, compiler: Option<nat>, facts: seq<nat>)

  datatype GraphBuild = GraphBuild(
    id: Id, repo: Id, generation: nat, nodes: set<Id>, edges: map<Id, Edge>, coverage: Option<Coverage>)

  datatype Decision = Decision(candidate: string, question: string, cacheKey: string, failed: bool, detail: string)

  datatype File = File(snapshot: Id, path: Id, sha: Sha)

  // How values become text. Rows are written piece by piece.
  datatype Json = Json(build: GraphBuild -> string, key: Id -> string, rows: seq<Row> -> seq<string>)

  datatype Store = Store(
    files: map<(Id, Id), Sha>, evidence: map<Id, Evidence>, claims: map<Id, Claim>,
    decisions: map<string, Decision>, inferences: map<Id, string>,
    runs: map<Id, (Id, Id)>, sets: map<Id, (Id, Id, Id)>, candidates: map<Id, (Id, string)>,
    builds: map<Id, GraphBuild>, active: map<Id, Id>, sealed: map<(Id, Id), seq<Row>>)

  // ----- ascending traversal -----

  predicate IsLeast(m: nat, s: set<nat>) { m in s && forall y :: y in s ==> m <= y }

  lemma {:induction false} LeastExists(s: set<nat>)
    requires s != {}
    ensures exists m :: IsLeast(m, s)
    decreases |s|
  {
    var x :| x in s;
    var rest := s - {x};
    assert forall y :: y in s ==> y == x || y in rest;
    if rest == {} {
      assert IsLeast(x, s);
    } else {
      LeastExists(rest);
      var m :| IsLeast(m, rest);
      assert IsLeast(if x < m then x else m, s);
    }
  }

  function Least(s: set<nat>): (m: nat)
    requires s != {}
    ensures m in s && forall y :: y in s ==> m <= y
  {
    LeastExists(s);
    var m :| IsLeast(m, s);
    m
  }

  function Ascending(s: set<nat>): seq<nat>
    decreases |s|
  {
    if s == {} then [] else [Least(s)] + Ascending(s - {Least(s)})
  }

  lemma {:induction false} AscendingMembers(s: set<nat>)
    ensures |Ascending(s)| == |s|
    ensures forall x :: x in Ascending(s) <==> x in s
    decreases |s|
  {
    if s == {} {
    } else {
      AscendingMembers(s - {Least(s)});
    }
  }

  lemma {:induction false} AscendingFacts(s: set<nat>)
    ensures |Ascending(s)| == |s|
    ensures forall x :: x in Ascending(s) <==> x in s
    ensures forall i, j :: 0 <= i < j < |Ascending(s)| ==> Ascending(s)[i] < Ascending(s)[j]
    decreases |s|
  {
    hide Ascending;
    AscendingMembers(s);
    AscendingUnfold(s);
    if s == {} {
    } else {
      var rest := s - {Least(s)};
      AscendingFacts(rest);
      LeastPrecedes(rest, Least(s));
    }
  }

  lemma AscendingUnfold(s: set<nat>)
    ensures Ascending(s) == if s == {} then [] else [Least(s)] + Ascending(s - {Least(s)})
  {
  }

  lemma LeastPrecedes(rest: set<nat>, m: nat)
    requires forall x :: x in rest ==> m < x
    ensures forall j :: 0 <= j < |Ascending(rest)| ==> m < Ascending(rest)[j]
  {
    hide Ascending;
    AscendingMembers(rest);
    var tail := Ascending(rest);
    forall j | 0 <= j < |tail| ensures m < tail[j] { assert tail[j] in tail; }
  }

  function Join(chunks: seq<string>): string {
    if chunks == [] then "" else chunks[0] + Join(chunks[1..])
  }

  lemma {:induction false} JoinAppend(a: seq<string>, b: seq<string>)
    ensures Join(a + b) == Join(a) + Join(b)
  {
    if a == [] {
      assert a + b == b;
    } else {
      assert (a + b)[1..] == a[1..] + b;
      JoinAppend(a[1..], b);
    }
  }

  // ----- the evidence behind one edge -----

  function Cited(c: Claim): seq<Id> { c.supporting + c.contradicting }

  ghost predicate SoundClaim(s: Store, c: Claim) { forall x :: x in Cited(c) ==> x in s.evidence }

  // Evidence named by the edge itself or by any claim on it, contradictions included.
  ghost function Named(s: Store, edge: Edge): set<Id> {
    (set x | x in edge.evidence) + (set k, x | k in s.claims && s.claims[k].relation == edge.id && x in Cited(s.claims[k]) :: x)
  }

  predicate Available(s: Store, x: Id) {
    x in s.evidence && (s.evidence[x].snapshot, s.evidence[x].file) in s.files
  }

  function RowAt(s: Store, x: Id): Row
    requires Available(s, x)
  {
    var e := s.evidence[x];
    Row(e.id, e.kind, e.supports, e.detail, e.producer, e.snapshot, e.file, s.files[(e.snapshot, e.file)])
  }

  function RowList(s: Store, ids: seq<Id>): (rows: seq<Row>)
    requires forall x :: x in ids ==> Available(s, x)
    ensures |rows| == |ids|
    ensures forall i :: 0 <= i < |ids| ==> rows[i] == RowAt(s, ids[i])
  {
    if ids == [] then [] else [RowAt(s, ids[0])] + RowList(s, ids[1..])
  }

  // The rows of a set of ids, in ascending order, if all are available.
  ghost function Listed(s: Store, ids: set<Id>): Result<seq<Row>> {
    AscendingFacts(ids);
    if forall x :: x in ids ==> Available(s, x) then Ok(RowList(s, Ascending(ids))) else Err(Invariant)
  }

  ghost function RowsFor(s: Store, json: Json, edge: Edge): Result<seq<Row>> {
    if exists k :: k in s.claims && s.claims[k].relation == edge.id && !SoundClaim(s, s.claims[k]) then Err(Invariant)
    else if |Named(s, edge)| > ROWS_MAX then Err(QueryBudget)
    else
      match Listed(s, Named(s, edge))
      case Err(e) => Err(e)
      case Ok(rows) => if |Join(json.rows(rows))| > BYTES_MAX then Err(QueryBudget) else Ok(rows)
  }

  // ----- the closure of a build -----

  ghost function ClosureOf(s: Store, json: Json, b: GraphBuild, keys: seq<Id>): Result<map<Id, seq<Row>>>
    requires forall k :: k in keys ==> k in b.edges
    decreases |keys|
  {
    if keys == [] then Ok(map[])
    else
      var last := b.edges[keys[|keys| - 1]];
      match ClosureOf(s, json, b, keys[..|keys| - 1])
      case Err(e) => Err(e)
      case Ok(m) =>
        match RowsFor(s, json, last)
        case Err(e) => Err(e)
        case Ok(rows) => Ok(m[last.id := rows])
  }

  ghost function Closure(s: Store, json: Json, b: GraphBuild): Result<map<Id, seq<Row>>> {
    AscendingFacts(b.edges.Keys);
    ClosureOf(s, json, b, Ascending(b.edges.Keys))
  }

  // The text of the pair (build, closure), the closure as an object with ascending keys, ended
  // by a zero character.
  function Entry(json: Json, id: Id, rows: seq<Row>): string { json.key(id) + ":" + Join(json.rows(rows)) }

  function Entries(json: Json, m: map<Id, seq<Row>>, ids: seq<Id>): string
    requires forall x :: x in ids ==> x in m
  {
    if ids == [] then ""
    else
      var n := |ids| - 1;
      Entries(json, m, ids[..n]) + (if n > 0 then "," else "") + Entry(json, ids[n], m[ids[n]])
  }

  ghost function Canonical(json: Json, b: GraphBuild, m: map<Id, seq<Row>>): string {
    AscendingFacts(m.Keys);
    "[" + json.build(b) + "," + "{" + Entries(json, m, Ascending(m.Keys)) + "}" + "]\0"
  }

  // ----- publication -----

  // Edges all of whose evidence is produced, supporting and of one class.
  predicate DirectEdge(evidence: map<Id, Evidence>, edge: Edge, kind: Class, producer: Option<string>) {
    edge.evidence != [] &&
    (forall i :: 0 <= i < |edge.evidence| ==>
      var x := edge.evidence[i];
      x in evidence && evidence[x].producer.Some? && (producer.None? || evidence[x].producer == producer)
      && evidence[x].supports && evidence[x].kind == kind)
  }

  function Direct(evidence: map<Id, Evidence>, b: GraphBuild, kind: Class, producer: Option<string>): set<Id> {
    set k | k in b.edges && DirectEdge(evidence, b.edges[k], kind, producer)
  }

  function OrZero(o: Option<nat>): nat { if o.Some? then o.value else 0 }

  function Total(facts: seq<nat>): nat { if facts == [] then 0 else Total(facts[..|facts| - 1]) + facts[|facts| - 1] }

  const CATALOG := "postgres-catalog-v1"

  ghost predicate CoverageAgrees(evidence: map<Id, Evidence>, b: GraphBuild, c: Coverage) {
    var structural := |Direct(evidence, b, Extracted, None)|;
    var resolved := |Direct(evidence, b, Inferred, None)|;
    var catalog := |Direct(evidence, b, Extracted, Some(CATALOG))|;
    && OrZero(c.catalog) == catalog
    && c.structural + OrZero(c.compiler) + catalog == structural
    && c.resolved == resolved
    && c.decision == |b.edges| - structural - resolved
    && Total(c.facts) == c.structural
  }

  ghost predicate Inside(b: GraphBuild) {
    forall k :: k in b.edges ==> b.edges[k].from in b.nodes && b.edges[k].to in b.nodes
  }

  function Succeeds(s: Store, b: GraphBuild, expected: Option<Id>): Result<()> {
    if b.repo in s.active then
      if s.active[b.repo] !in s.builds then Err(NotFound)
      else
        var cur := s.builds[s.active[b.repo]];
        if expected != Some(cur.id) || b.generation <= cur.generation then Err(Invariant) else Ok(())
    else if expected.Some? then Err(Invariant)
    else Ok(())
  }

  ghost function Sealing(s: Store, json: Json, b: GraphBuild, expected: Option<Id>): Result<map<Id, seq<Row>>> {
    if b.coverage.Some? && !CoverageAgrees(s.evidence, b, b.coverage.value) then Err(Invariant)
    else if !Inside(b) then Err(Invariant)
    else
      match Succeeds(s, b, expected)
      case Err(e) => Err(e)
      case Ok(_) => if b.id in s.builds then Err(Invariant) else Closure(s, json, b)
  }

  // Rows filed under (build, relation).
  function Filed(b: Id, m: map<Id, seq<Row>>): map<(Id, Id), seq<Row>> {
    map x | x in (set rel | rel in m :: (b, rel)) :: m[x.1]
  }

  // ----- the operations -----

  datatype Op =
    | EnsureFiles(snapshot: Id, listed: seq<File>)
    | PutEvidence(e: Evidence)
    | PutClaim(c: Claim)
    | PutDecision(d: Decision)
    | PutInference(reuseKey: Id, body: string)
    | EnsureRun(run: Id, repo: Id, snapshot: Id, setId: Id, catalog: Id, rubric: Id)
    | PutCandidate(set_: Id, candidate: Id, body: string)
    | Publish(build: GraphBuild, expected: Option<Id>)

  // Files are registered up to the first that lists another snapshot.
  function WithFiles(files: map<(Id, Id), Sha>, snapshot: Id, listed: seq<File>): map<(Id, Id), Sha>
    decreases listed
  {
    if listed == [] || listed[0].snapshot != snapshot then files
    else WithFiles(files[(snapshot, listed[0].path) := listed[0].sha], snapshot, listed[1..])
  }

  function DecisionKey(candidate: string, question: string): string { candidate + ":" + question }

  // The first write to a key wins.
  function First<K, V>(m: map<K, V>, k: K, v: V): (r: map<K, V>)
    ensures r.Keys == m.Keys + {k} && (forall x :: x in m ==> r[x] == m[x])
    ensures k !in m ==> r[k] == v
  {
    if k in m then m else m[k := v]
  }

  ghost function Outcome(s: Store, json: Json, op: Op): Result<()> {
    match op
    case EnsureFiles(snapshot, listed) =>
      if exists i :: 0 <= i < |listed| && listed[i].snapshot != snapshot then Err(Invariant) else Ok(())
    case PutEvidence(e) => if (e.snapshot, e.file) in s.files then Ok(()) else Err(Invariant)
    case PutClaim(c) =>
      if !SoundClaim(s, c) || (c.id in s.claims && s.claims[c.id] != c) then Err(Invariant) else Ok(())
    case PutDecision(_) => Ok(())
    case PutInference(_, _) => Ok(())
    case EnsureRun(run, _, _, setId, catalog, rubric) =>
      if setId in s.sets && s.sets[setId] != (run, catalog, rubric) then Err(Invariant) else Ok(())
    case PutCandidate(setId, _, _) => if setId in s.sets then Ok(()) else Err(Invariant)
    case Publish(b, expected) =>
      match Sealing(s, json, b, expected) case Err(e) => Err(e) case Ok(_) => Ok(())
  }

  ghost function Apply(s: Store, json: Json, op: Op): Store {
    match op
    case EnsureFiles(snapshot, listed) => s.(files := WithFiles(s.files, snapshot, listed))
    case EnsureRun(run, repo, snapshot, setId, catalog, rubric) =>
      s.(runs := First(s.runs, run, (repo, snapshot)), sets := First(s.sets, setId, (run, catalog, rubric)))
    case _ => if Outcome(s, json, op).Err? then s else Applied(s, json, op)
  }

  ghost function Applied(s: Store, json: Json, op: Op): Store
    requires Outcome(s, json, op).Ok?
  {
    match op
    case PutEvidence(e) => s.(evidence := First(s.evidence, e.id, e))
    case PutClaim(c) => s.(claims := First(s.claims, c.id, c))
    case PutDecision(d) =>
      var key := DecisionKey(d.candidate, d.question);
      if key in s.decisions && s.decisions[key].cacheKey == d.cacheKey && !s.decisions[key].failed then s
      else s.(decisions := s.decisions[key := d])
    case PutInference(k, body) => s.(inferences := First(s.inferences, k, body))
    case PutCandidate(setId, id, body) => s.(candidates := First(s.candidates, id, (setId, body)))
    case Publish(b, expected) =>
      s.(sealed := s.sealed + Filed(b.id, Sealing(s, json, b, expected).value),
         active := s.active[b.repo := b.id], builds := s.builds[b.id := b])
    case _ => s
  }
}
