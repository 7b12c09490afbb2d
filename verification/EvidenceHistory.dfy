// What every run of store operations keeps.
module EvidenceHistory {

  import opened EvidenceModel
  import opened EvidenceSealing

  // Each repository's pointer names a stored build of that repository, builds are filed under
  // their own ids, and no stored build of a repository is newer than the active one.
  ghost predicate ActiveOk(s: Store) {
    && (forall id :: id in s.builds ==> s.builds[id].id == id)
    && (forall r :: r in s.active ==> s.active[r] in s.builds && s.builds[s.active[r]].repo == r)
    && (forall id :: id in s.builds ==>
          (s.builds[id].repo in s.active && s.builds[id].generation <= s.builds[s.active[s.builds[id].repo]].generation))
  }

  // A relationship of a stored build.
  ghost predicate SealedHere(s: Store, x: (Id, Id)) {
    x.0 in s.builds && exists k :: k in s.builds[x.0].edges && s.builds[x.0].edges[k].id == x.1
  }

  // Exactly the relationships of stored builds are sealed, and every sealed list is one the
  // published reader accepts.
  ghost predicate SealedOk(s: Store, json: Json) {
    && (forall x :: x in s.sealed <==> SealedHere(s, x))
    && (forall x :: x in s.sealed ==> ReaderAccepts(json, s.sealed[x]) && |s.sealed[x]| <= ROWS_MAX)
  }

  // Stored builds passed the publication checks: their edges stay inside.
  ghost predicate BuildsOk(s: Store) { forall id :: id in s.builds ==> Inside(s.builds[id]) }

  ghost predicate StoreOk(s: Store, json: Json) {
    Keyed(s) && Referenced(s) && ActiveOk(s) && SealedOk(s, json) && BuildsOk(s)
  }

  function EmptyStore(): Store {
    Store(map[], map[], map[], map[], map[], map[], map[], map[], map[], map[], map[])
  }

  lemma EmptyOk(json: Json)
    ensures StoreOk(EmptyStore(), json)
  {
  }

  // ----- what never changes -----

  ghost predicate Within<K, V>(m: map<K, V>, n: map<K, V>) { forall x :: x in m ==> x in n && n[x] == m[x] }

  lemma WithinTransitive<K, V>(l: map<K, V>, m: map<K, V>, n: map<K, V>)
    requires Within(l, m) && Within(m, n)
    ensures Within(l, n)
  {
  }

  // What is recorded once stays as it was first recorded, and files and decision slots stay
  // registered.
  ghost predicate Kept(s: Store, t: Store) {
    && s.files.Keys <= t.files.Keys && s.decisions.Keys <= t.decisions.Keys
    && Within(s.evidence, t.evidence) && Within(s.claims, t.claims) && Within(s.inferences, t.inferences)
    && Within(s.runs, t.runs) && Within(s.sets, t.sets) && Within(s.candidates, t.candidates)
  }

  ghost predicate BuildsKept(s: Store, t: Store) { Within(s.builds, t.builds) && Within(s.sealed, t.sealed) }

  // A repository with an active build keeps one, and a different one is strictly newer.
  ghost predicate ActiveAdvances(s: Store, t: Store) {
    forall r :: r in s.active ==>
      (r in t.active
       && (t.active[r] == s.active[r]
           || (s.active[r] in s.builds && t.active[r] in t.builds
               && s.builds[s.active[r]].generation < t.builds[t.active[r]].generation)))
  }

  ghost predicate Grows(s: Store, t: Store) { Kept(s, t) && BuildsKept(s, t) && ActiveAdvances(s, t) }

  lemma {:induction false} FilesGrow(files: map<(Id, Id), Sha>, snapshot: Id, listed: seq<File>)
    ensures forall x :: x in files ==> x in WithFiles(files, snapshot, listed)
    decreases |listed|
  {
    if listed != [] && listed[0].snapshot == snapshot {
      FilesGrow(files[(snapshot, listed[0].path) := listed[0].sha], snapshot, listed[1..]);
    }
  }

  // ----- publication -----

  lemma FiledFacts(b: Id, m: map<Id, seq<Row>>)
    ensures forall x :: x in Filed(b, m) <==> x.0 == b && x.1 in m
    ensures forall x :: x in Filed(b, m) ==> Filed(b, m)[x] == m[x.1]
  {
  }

  ghost function Published(s: Store, b: GraphBuild, m: map<Id, seq<Row>>): Store {
    s.(sealed := s.sealed + Filed(b.id, m), active := s.active[b.repo := b.id], builds := s.builds[b.id := b])
  }

  lemma SealedKeys(s: Store, json: Json, b: GraphBuild, m: map<Id, seq<Row>>)
    requires SealedOk(s, json) && b.id !in s.builds
    requires forall x :: x in m <==> exists k :: k in b.edges && b.edges[k].id == x
    requires forall x :: x in m ==> ReaderAccepts(json, m[x]) && |m[x]| <= ROWS_MAX
    ensures SealedOk(Published(s, b, m), json) && BuildsKept(s, Published(s, b, m))
  {
    hide ReaderAccepts, Filed, BuildsKept, SealedHere;
    FiledFacts(b.id, m);
    SealedHereAfter(s, json, b, m);
    PublishedKeepsBuilds(s, json, b, m);
  }

  lemma PublishedKeepsBuilds(s: Store, json: Json, b: GraphBuild, m: map<Id, seq<Row>>)
    requires SealedOk(s, json) && b.id !in s.builds
    ensures BuildsKept(s, Published(s, b, m))
  {
    hide ReaderAccepts, Filed;
    FiledFacts(b.id, m);
    forall x | x in s.sealed ensures x !in Filed(b.id, m) { assert SealedHere(s, x); }
  }

  lemma SealedHereAfter(s: Store, json: Json, b: GraphBuild, m: map<Id, seq<Row>>)
    requires SealedOk(s, json) && b.id !in s.builds
    requires forall x :: x in m <==> exists k :: k in b.edges && b.edges[k].id == x
    ensures forall x :: x in Published(s, b, m).sealed <==> SealedHere(Published(s, b, m), x)
  {
    hide ReaderAccepts, Filed;
    var t := Published(s, b, m);
    FiledFacts(b.id, m);
    forall x ensures x in t.sealed <==> SealedHere(t, x) {
      assert x in s.sealed <==> SealedHere(s, x);
      if x.0 != b.id { assert SealedHere(t, x) <==> SealedHere(s, x); }
    }
  }

  // Publication adds the sealed rows of the new build and touches no other.
  lemma PublishedSealed(s: Store, json: Json, b: GraphBuild, expected: Option<Id>)
    requires StoreOk(s, json) && Sealing(s, json, b, expected).Ok?
    ensures SealedOk(Published(s, b, Sealing(s, json, b, expected).value), json)
    ensures BuildsKept(s, Published(s, b, Sealing(s, json, b, expected).value))
  {
    hide RowsFor, Closure, Keyed, Referenced, ReaderAccepts, ActiveOk, BuildsOk, SealedOk, BuildsKept, Sealing, Published;
    SealingIsClosure(s, json, b, expected);
    ClosureExact(s, json, b);
    ClosureReadable(s, json, b);
    SealedKeys(s, json, b, Sealing(s, json, b, expected).value);
  }

  lemma PublishedActive(s: Store, b: GraphBuild, expected: Option<Id>, m: map<Id, seq<Row>>)
    requires ActiveOk(s) && b.id !in s.builds && Succeeds(s, b, expected).Ok?
    ensures ActiveOk(Published(s, b, m)) && ActiveAdvances(s, Published(s, b, m))
  {
    hide ActiveOk, Succeeds, Published;
    PublishedStays(s, b, expected, m);
    PublishedAdvances(s, b, expected, m);
  }

  lemma SucceedsNewer(s: Store, b: GraphBuild, expected: Option<Id>)
    requires Succeeds(s, b, expected).Ok?
    ensures b.repo in s.active ==> s.active[b.repo] in s.builds && s.builds[s.active[b.repo]].generation < b.generation
  {
  }

  lemma PublishedAdvances(s: Store, b: GraphBuild, expected: Option<Id>, m: map<Id, seq<Row>>)
    requires ActiveOk(s) && b.id !in s.builds && Succeeds(s, b, expected).Ok?
    ensures ActiveAdvances(s, Published(s, b, m))
  {
  }

  lemma PublishedStays(s: Store, b: GraphBuild, expected: Option<Id>, m: map<Id, seq<Row>>)
    requires ActiveOk(s) && b.id !in s.builds && Succeeds(s, b, expected).Ok?
    ensures ActiveOk(Published(s, b, m))
  {
    hide Succeeds, Filed;
    SucceedsNewer(s, b, expected);
    var t := Published(s, b, m);
    forall id | id in t.builds
      ensures t.builds[id].repo in t.active && t.builds[id].generation <= t.builds[t.active[t.builds[id].repo]].generation
    {
      if id != b.id { assert s.builds[id].repo in s.active; }
    }
  }

  lemma SealingIsClosure(s: Store, json: Json, b: GraphBuild, expected: Option<Id>)
    requires Sealing(s, json, b, expected).Ok?
    ensures Closure(s, json, b) == Sealing(s, json, b, expected) && b.id !in s.builds && Inside(b)
    ensures Succeeds(s, b, expected).Ok?
  {
  }

  // Every sealed list of a closure comes from one of its edges.
  lemma ClosureReadable(s: Store, json: Json, b: GraphBuild)
    requires Keyed(s) && Closure(s, json, b).Ok?
    ensures forall x :: x in Closure(s, json, b).value ==>
              ReaderAccepts(json, Closure(s, json, b).value[x]) && |Closure(s, json, b).value[x]| <= ROWS_MAX
  {
    hide RowsFor, Closure, ReaderAccepts, Keyed;
    var c := Closure(s, json, b).value;
    ClosureExact(s, json, b);
    forall x | x in c ensures ReaderAccepts(json, c[x]) && |c[x]| <= ROWS_MAX {
      var k := LastWith(b.edges, x);
      RowsComplete(s, json, b.edges[k]);
    }
  }

  lemma LastWith(edges: map<Id, Edge>, x: Id) returns (k: Id)
    requires exists j :: j in edges && edges[j].id == x
    ensures LastOf(edges, k) && edges[k].id == x
  {
    var same := set j | j in edges && edges[j].id == x;
    var j :| j in edges && edges[j].id == x;
    assert j in same;
    k := Greatest(same);
    assert k in same;
    forall l | l in edges && edges[l].id == edges[k].id ensures l <= k { assert l in same; }
  }

  lemma {:induction false} Greatest(s: set<nat>) returns (m: nat)
    requires s != {}
    ensures m in s && forall y :: y in s ==> y <= m
    decreases |s|
  {
    var x :| x in s;
    var rest := s - {x};
    assert forall y :: y in s ==> y == x || y in rest;
    if rest == {} {
      m := x;
    } else {
      m := Greatest(rest);
      if m < x { m := x; }
    }
  }

  // ----- every operation -----

  ghost predicate Recorded(s: Store, t: Store) {
    t.builds == s.builds && t.active == s.active && t.sealed == s.sealed
  }

  lemma RecordedKeeps(s: Store, t: Store, json: Json)
    requires StoreOk(s, json) && Recorded(s, t) && Kept(s, t) && Keyed(t) && Referenced(t)
    ensures StoreOk(t, json) && Grows(s, t)
  {
  }

  lemma FilesKeep(s: Store, json: Json, snapshot: Id, listed: seq<File>)
    requires StoreOk(s, json)
    ensures StoreOk(Apply(s, json, EnsureFiles(snapshot, listed)), json) && Grows(s, Apply(s, json, EnsureFiles(snapshot, listed)))
  {
    hide ActiveOk, SealedOk, BuildsOk;
    FilesGrow(s.files, snapshot, listed);
    var t := Apply(s, json, EnsureFiles(snapshot, listed));
    assert t == s.(files := WithFiles(s.files, snapshot, listed));
    assert Referenced(t) by {
      forall x | x in t.claims ensures SoundClaim(t, t.claims[x]) { assert SoundClaim(s, s.claims[x]); }
    }
    RecordedKeeps(s, t, json);
  }

  lemma EvidenceKeeps(s: Store, json: Json, e: Evidence)
    requires StoreOk(s, json)
    ensures StoreOk(Apply(s, json, PutEvidence(e)), json) && Grows(s, Apply(s, json, PutEvidence(e)))
  {
    hide ActiveOk, SealedOk, BuildsOk;
    var t := Apply(s, json, PutEvidence(e));
    assert t == s || ((e.snapshot, e.file) in s.files && t == s.(evidence := First(s.evidence, e.id, e)));
    assert Referenced(t) by {
      forall x | x in t.claims ensures SoundClaim(t, t.claims[x]) { assert SoundClaim(s, s.claims[x]); }
    }
    RecordedKeeps(s, t, json);
  }

  lemma ClaimKeeps(s: Store, json: Json, c: Claim)
    requires StoreOk(s, json)
    ensures StoreOk(Apply(s, json, PutClaim(c)), json) && Grows(s, Apply(s, json, PutClaim(c)))
  {
    hide ActiveOk, SealedOk, BuildsOk;
    var t := Apply(s, json, PutClaim(c));
    assert t == s || (SoundClaim(s, c) && t == s.(claims := First(s.claims, c.id, c)));
    assert Referenced(t) by {
      forall x | x in t.claims ensures SoundClaim(t, t.claims[x]) { assert x in s.claims ==> SoundClaim(s, s.claims[x]); }
    }
    RecordedKeeps(s, t, json);
  }

  lemma DecisionFrame(s: Store, json: Json, d: Decision)
    ensures var t := Apply(s, json, PutDecision(d)); t == s.(decisions := t.decisions) && s.decisions.Keys <= t.decisions.Keys
  {
    hide Sealing;
  }

  lemma InferenceFrame(s: Store, json: Json, k: Id, body: string)
    ensures var t := Apply(s, json, PutInference(k, body)); t == s.(inferences := t.inferences) && Within(s.inferences, t.inferences)
  {
    hide Sealing, First;
  }

  lemma RunFrame(s: Store, json: Json, op: Op)
    requires op.EnsureRun?
    ensures var t := Apply(s, json, op);
            t == s.(runs := t.runs, sets := t.sets) && Within(s.runs, t.runs) && Within(s.sets, t.sets)
  {
    hide Sealing, First, Outcome;
  }

  lemma CandidateFrame(s: Store, json: Json, op: Op)
    requires op.PutCandidate?
    ensures var t := Apply(s, json, op); t == s.(candidates := t.candidates) && Within(s.candidates, t.candidates)
  {
    hide Sealing, First, Outcome;
  }

  lemma AuditFrame(s: Store, json: Json, op: Op)
    requires op.PutDecision? || op.PutInference? || op.EnsureRun? || op.PutCandidate?
    ensures var t := Apply(s, json, op);
            t.files == s.files && t.evidence == s.evidence && t.claims == s.claims && Recorded(s, t) && Kept(s, t)
  {
    hide Apply;
    match op {
      case PutDecision(d) => DecisionFrame(s, json, d);
      case PutInference(k, body) => InferenceFrame(s, json, k, body);
      case EnsureRun(_, _, _, _, _, _) => RunFrame(s, json, op);
      case PutCandidate(_, _, _) => CandidateFrame(s, json, op);
      case _ =>
    }
  }

  lemma AuditKeeps(s: Store, json: Json, op: Op)
    requires StoreOk(s, json)
    requires op.PutDecision? || op.PutInference? || op.EnsureRun? || op.PutCandidate?
    ensures StoreOk(Apply(s, json, op), json) && Grows(s, Apply(s, json, op))
  {
    hide ActiveOk, SealedOk, BuildsOk, Apply, Kept, Referenced;
    var t := Apply(s, json, op);
    AuditFrame(s, json, op);
    SameReferences(s, t);
    RecordedKeeps(s, t, json);
  }

  lemma SameReferences(s: Store, t: Store)
    requires Referenced(s) && t.files == s.files && t.evidence == s.evidence && t.claims == s.claims
    ensures Referenced(t)
  {
    forall x | x in t.claims ensures SoundClaim(t, t.claims[x]) { assert SoundClaim(s, s.claims[x]); }
  }

  lemma PublishApplied(s: Store, json: Json, b: GraphBuild, expected: Option<Id>)
    ensures Apply(s, json, Publish(b, expected)) ==
              if Sealing(s, json, b, expected).Ok? then Published(s, b, Sealing(s, json, b, expected).value) else s
  {
    hide Sealing, Filed;
  }

  lemma PublishedFrame(s: Store, b: GraphBuild, m: map<Id, seq<Row>>)
    requires Keyed(s) && Referenced(s) && BuildsOk(s) && Inside(b)
    ensures Keyed(Published(s, b, m)) && Referenced(Published(s, b, m)) && BuildsOk(Published(s, b, m)) && Kept(s, Published(s, b, m))
  {
    hide Filed, Referenced, Inside;
    SameReferences(s, Published(s, b, m));
  }

  lemma PublishKeeps(s: Store, json: Json, b: GraphBuild, expected: Option<Id>)
    requires StoreOk(s, json)
    ensures var t := Apply(s, json, Publish(b, expected)); StoreOk(t, json) && Grows(s, t)
  {
    hide Sealing, SealedOk, ActiveOk, BuildsOk, Keyed, Kept, Published, Inside, Apply, Referenced, BuildsKept, ActiveAdvances;
    PublishApplied(s, json, b, expected);
    if Sealing(s, json, b, expected).Ok? {
      var m := Sealing(s, json, b, expected).value;
      SealingIsClosure(s, json, b, expected);
      PublishedSealed(s, json, b, expected);
      PublishedActive(s, b, expected, m);
      PublishedFrame(s, b, m);
    } else {
      GrowsSelf(s);
    }
  }

  lemma OpKeeps(s: Store, json: Json, op: Op)
    requires StoreOk(s, json)
    ensures StoreOk(Apply(s, json, op), json) && Grows(s, Apply(s, json, op))
  {
    hide StoreOk, Grows, Apply;
    match op {
      case EnsureFiles(snapshot, listed) => FilesKeep(s, json, snapshot, listed);
      case PutEvidence(e) => EvidenceKeeps(s, json, e);
      case PutClaim(c) => ClaimKeeps(s, json, c);
      case Publish(b, expected) => PublishKeeps(s, json, b, expected);
      case _ => AuditKeeps(s, json, op);
    }
  }

  // ----- refusals -----

  // How many files of a list come before the first of another snapshot.
  ghost function Leading(snapshot: Id, listed: seq<File>): (n: nat)
    ensures n <= |listed| && (forall i :: 0 <= i < n ==> listed[i].snapshot == snapshot)
    ensures n < |listed| ==> listed[n].snapshot != snapshot
    decreases |listed|
  {
    if listed == [] || listed[0].snapshot != snapshot then 0 else 1 + Leading(snapshot, listed[1..])
  }

  // The last of the first n files with its path.
  ghost predicate LastListed(listed: seq<File>, n: nat, i: nat) {
    i < n <= |listed| && forall j :: i < j < n ==> listed[j].path != listed[i].path
  }

  ghost predicate Registered(files: map<(Id, Id), Sha>, snapshot: Id, f: File) {
    (snapshot, f.path) in files && files[(snapshot, f.path)] == f.sha
  }

  ghost predicate PathIn(listed: seq<File>, n: nat, path: Id) { exists i :: 0 <= i < n <= |listed| && listed[i].path == path }

  // Each leading path ends with its last digest, and nothing else changes.
  lemma {:induction false} WithFilesExact(files: map<(Id, Id), Sha>, snapshot: Id, listed: seq<File>)
    ensures var n, t := Leading(snapshot, listed), WithFiles(files, snapshot, listed);
            && (forall i: nat :: LastListed(listed, n, i) ==> Registered(t, snapshot, listed[i]))
            && (forall x: (Id, Id) :: x.0 != snapshot || !PathIn(listed, n, x.1) ==>
                  (x in t <==> x in files) && (x in files ==> t[x] == files[x]))
    decreases |listed|
  {
    if listed == [] || listed[0].snapshot != snapshot {
      assert Leading(snapshot, listed) == 0;
    } else {
      var n, rest, next := Leading(snapshot, listed), listed[1..], files[(snapshot, listed[0].path) := listed[0].sha];
      var t := WithFiles(files, snapshot, listed);
      WithFilesExact(next, snapshot, rest);
      forall i: nat | LastListed(listed, n, i) ensures Registered(t, snapshot, listed[i]) {
        if i > 0 {
          assert forall j :: 0 <= j < n - 1 ==> rest[j] == listed[j + 1];
          assert LastListed(rest, n - 1, i - 1);
        } else {
          assert !PathIn(rest, n - 1, listed[0].path);
        }
      }
      forall x: (Id, Id) | x.0 != snapshot || !PathIn(listed, n, x.1)
        ensures (x in t <==> x in files) && (x in files ==> t[x] == files[x])
      {
        if x.0 == snapshot {
          assert listed[0].path != x.1;
          assert forall j :: 0 <= j < n - 1 ==> rest[j] == listed[j + 1];
          assert !PathIn(rest, n - 1, x.1);
        }
      }
    }
  }

  lemma {:induction false} LastOfPath(listed: seq<File>, n: nat, i: nat) returns (j: nat)
    requires i < n <= |listed|
    ensures LastListed(listed, n, j) && listed[j].path == listed[i].path
    decreases n - i
  {
    if LastListed(listed, n, i) {
      j := i;
    } else {
      var k :| i < k < n && listed[k].path == listed[i].path;
      j := LastOfPath(listed, n, k);
    }
  }

  // The last listed digest of every path before the first foreign file is registered already.
  ghost predicate AlreadyRegistered(files: map<(Id, Id), Sha>, snapshot: Id, listed: seq<File>) {
    forall i: nat :: LastListed(listed, Leading(snapshot, listed), i) ==> Registered(files, snapshot, listed[i])
  }

  lemma FilesUnchangedExactly(files: map<(Id, Id), Sha>, snapshot: Id, listed: seq<File>)
    ensures WithFiles(files, snapshot, listed) == files <==> AlreadyRegistered(files, snapshot, listed)
  {
    var n, t := Leading(snapshot, listed), WithFiles(files, snapshot, listed);
    WithFilesExact(files, snapshot, listed);
    if AlreadyRegistered(files, snapshot, listed) {
      forall x ensures (x in t <==> x in files) && (x in files ==> t[x] == files[x]) {
        if x.0 == snapshot && PathIn(listed, n, x.1) {
          var i: nat :| i < n && listed[i].path == x.1;
          var j := LastOfPath(listed, n, i);
          assert Registered(files, snapshot, listed[j]) && Registered(t, snapshot, listed[j]);
        }
      }
      assert t == files;
    }
  }

  // What would make a refused operation harmless.
  ghost predicate Harmless(s: Store, op: Op) {
    match op
    case EnsureFiles(snapshot, listed) => AlreadyRegistered(s.files, snapshot, listed)
    case EnsureRun(run, _, _, _, _, _) => run in s.runs
    case _ => true
  }

  // A refused operation leaves every field unchanged exactly when it is neither a registration
  // with something new before the first foreign file nor one of a new run.
  lemma RefusedUnchangedExactly(s: Store, json: Json, op: Op)
    requires Outcome(s, json, op).Err?
    ensures Apply(s, json, op) == s <==> Harmless(s, op)
  {
    hide Sealing, AlreadyRegistered;
    match op {
      case EnsureFiles(snapshot, listed) =>
        FilesUnchangedExactly(s.files, snapshot, listed);
        assert Apply(s, json, op).files == WithFiles(s.files, snapshot, listed);
      case EnsureRun(run, repo, snapshot, setId, catalog, rubric) =>
        assert Apply(s, json, op).runs == First(s.runs, run, (repo, snapshot));
      case _ =>
    }
  }

  // A refused registration that left a trace: the first file is kept, the second is foreign.
  lemma RefusedRegistrationKeepsFirst(json: Json)
    ensures var op := EnsureFiles(1, [File(1, 7, 70), File(2, 8, 80)]);
            Outcome(EmptyStore(), json, op) == Err(Invariant) && Apply(EmptyStore(), json, op).files == map[(1, 7) := 70]
  {
    var listed := [File(1, 7, 70), File(2, 8, 80)];
    assert listed[1].snapshot != 1;
    assert listed[1..] == [File(2, 8, 80)];
  }

  ghost function RunOps(s: Store, json: Json, ops: seq<Op>): Store
    decreases |ops|
  {
    if ops == [] then s else RunOps(Apply(s, json, ops[0]), json, ops[1..])
  }

  lemma GrowsTransitive(s: Store, t: Store, u: Store)
    requires ActiveOk(s) && Grows(s, t) && Grows(t, u)
    ensures Grows(s, u)
  {
    hide Within, ActiveAdvances, ActiveOk;
    WithinTransitive(s.evidence, t.evidence, u.evidence);
    WithinTransitive(s.claims, t.claims, u.claims);
    WithinTransitive(s.inferences, t.inferences, u.inferences);
    WithinTransitive(s.runs, t.runs, u.runs);
    WithinTransitive(s.sets, t.sets, u.sets);
    WithinTransitive(s.candidates, t.candidates, u.candidates);
    WithinTransitive(s.builds, t.builds, u.builds);
    WithinTransitive(s.sealed, t.sealed, u.sealed);
    ActiveTransitive(s, t, u);
    assert Kept(s, u) && BuildsKept(s, u);
  }

  lemma ActiveTransitive(s: Store, t: Store, u: Store)
    requires ActiveOk(s) && Within(s.builds, t.builds) && Within(t.builds, u.builds) && ActiveAdvances(s, t) && ActiveAdvances(t, u)
    ensures ActiveAdvances(s, u)
  {
  }

  // Over every run: repositories always have stored active builds of growing generation, and
  // stored builds, sealed rows and every first-written record stay as they are.
  lemma {:induction false} HistoryKept(s: Store, json: Json, ops: seq<Op>)
    requires StoreOk(s, json)
    ensures StoreOk(RunOps(s, json, ops), json) && Grows(s, RunOps(s, json, ops))
    decreases |ops|
  {
    hide Grows, Apply;
    if ops == [] {
      GrowsSelf(s);
    } else {
      OpKeeps(s, json, ops[0]);
      HistoryKept(Apply(s, json, ops[0]), json, ops[1..]);
      GrowsTransitive(s, Apply(s, json, ops[0]), RunOps(s, json, ops));
    }
  }

  lemma GrowsSelf(s: Store) ensures Grows(s, s) {}

  // Only a publication that names the active build as its predecessor, or none where there is
  // none, moves a pointer, and then to a newly stored build of strictly larger generation.
  lemma OnlyPublishMoves(s: Store, json: Json, op: Op)
    requires StoreOk(s, json) && Apply(s, json, op).active != s.active
    ensures op.Publish? && Outcome(s, json, op).Ok?
    ensures var b, t := op.build, Apply(s, json, op);
            && (if b.repo in s.active then
                  op.expected == Some(s.active[b.repo]) && s.builds[s.active[b.repo]].generation < b.generation
                else op.expected.None?)
            && b.id !in s.builds && t.builds == s.builds[b.id := b] && t.active == s.active[b.repo := b.id]
  {
    hide Sealing, SealedOk, Referenced, Keyed, BuildsOk, Published, Filed;
    if op.Publish? {
      hide Apply;
      PublishApplied(s, json, op.build, op.expected);
      if Sealing(s, json, op.build, op.expected).Ok? {
        SealingIsClosure(s, json, op.build, op.expected);
        PublishedFields(s, op.build, Sealing(s, json, op.build, op.expected).value);
      }
    } else {
      NotMoved(s, json, op);
    }
  }

  lemma PublishedFields(s: Store, b: GraphBuild, m: map<Id, seq<Row>>)
    ensures var t := Published(s, b, m);
            t.builds == s.builds[b.id := b] && t.active == s.active[b.repo := b.id] && t.sealed == s.sealed + Filed(b.id, m)
  {
  }

  lemma NotMoved(s: Store, json: Json, op: Op)
    requires !op.Publish?
    ensures Apply(s, json, op).active == s.active && Apply(s, json, op).builds == s.builds
  {
    hide Outcome, First, WithFiles;
  }

  // What publication sealed for a relationship is the complete evidence of that moment, and no
  // later operation changes it: the reader is served those rows, and accepts them, for good.
  lemma SealedForGood(s: Store, json: Json, b: GraphBuild, expected: Option<Id>, ops: seq<Op>, k: Id)
    requires StoreOk(s, json) && Outcome(s, json, Publish(b, expected)).Ok? && LastOf(b.edges, k)
    ensures var t := RunOps(Apply(s, json, Publish(b, expected)), json, ops);
            && (b.id, b.edges[k].id) in t.sealed && ReaderAccepts(json, t.sealed[(b.id, b.edges[k].id)])
            && RowsFor(s, json, b.edges[k]) == Ok(t.sealed[(b.id, b.edges[k].id)])
            && Ids(t.sealed[(b.id, b.edges[k].id)]) == Named(s, b.edges[k])
            && b.id in t.builds && t.builds[b.id] == b
  {
    hide RowsFor, Filed, Closure, ReaderAccepts, Named, Ids, Referenced, ActiveOk, SealedOk, BuildsOk, Kept, ActiveAdvances, Apply, RunOps, Published;
    var x, m := (b.id, b.edges[k].id), Sealing(s, json, b, expected).value;
    var u := Apply(s, json, Publish(b, expected));
    SealingIsClosure(s, json, b, expected);
    ClosureExact(s, json, b);
    PublishApplied(s, json, b, expected);
    PublishedFields(s, b, m);
    FiledFacts(b.id, m);
    assert u.sealed[x] == m[b.edges[k].id];
    RowsComplete(s, json, b.edges[k]);
    OpKeeps(s, json, Publish(b, expected));
    HistoryKept(u, json, ops);
  }

  // A published id is never published again, whatever happens in between.
  lemma NeverRepublished(s: Store, json: Json, ops: seq<Op>, b: GraphBuild, expected: Option<Id>)
    requires StoreOk(s, json) && b.id in s.builds
    ensures Outcome(RunOps(s, json, ops), json, Publish(b, expected)).Err?
  {
    hide Closure, CoverageAgrees, Inside, Succeeds, Kept, ActiveAdvances, StoreOk, Apply, RunOps;
    HistoryKept(s, json, ops);
  }

  // ----- decisions -----

  // A recorded answer stands while its inputs stand: it gives way only to a decision for the
  // same slot with another cache key.
  lemma {:induction false} DecisionStands(s: Store, json: Json, ops: seq<Op>, key: string)
    requires key in s.decisions && !s.decisions[key].failed
    requires forall i :: 0 <= i < |ops| && ops[i].PutDecision? && DecisionKey(ops[i].d.candidate, ops[i].d.question) == key ==>
               ops[i].d.cacheKey == s.decisions[key].cacheKey
    ensures key in RunOps(s, json, ops).decisions && RunOps(s, json, ops).decisions[key] == s.decisions[key]
    decreases |ops|
  {
    if ops == [] {
    } else {
      DecisionStep(s, json, ops[0], key);
      var t := Apply(s, json, ops[0]);
      forall i | 0 <= i < |ops[1..]| && ops[1..][i].PutDecision? && DecisionKey(ops[1..][i].d.candidate, ops[1..][i].d.question) == key
        ensures ops[1..][i].d.cacheKey == t.decisions[key].cacheKey
      {
        assert ops[1..][i] == ops[i + 1];
      }
      DecisionStands(t, json, ops[1..], key);
    }
  }

  lemma DecisionStep(s: Store, json: Json, op: Op, key: string)
    requires key in s.decisions && !s.decisions[key].failed
    requires op.PutDecision? && DecisionKey(op.d.candidate, op.d.question) == key ==> op.d.cacheKey == s.decisions[key].cacheKey
    ensures key in Apply(s, json, op).decisions && Apply(s, json, op).decisions[key] == s.decisions[key]
  {
    hide Sealing, First, WithFiles, DecisionKey, Outcome;
  }

  // One key for two pairs: the pairs are the same, or one candidate id continues the other
  // past a colon and the questions make up the difference.
  lemma SlotsExact(c: string, q: string, d: string, r: string)
    ensures DecisionKey(c, q) == DecisionKey(d, r) <==>
              ((c == d && q == r)
               || (c + ":" <= d && q == d[|c| + 1..] + ":" + r)
               || (d + ":" <= c && r == c[|d| + 1..] + ":" + q))
  {
    if |c| < |d| {
      Continues(c, q, d, r);
    } else if |d| < |c| {
      Continues(d, r, c, q);
    } else {
      var x, y := DecisionKey(c, q), DecisionKey(d, r);
      assert x[..|c|] == c && y[..|d|] == d && x[|c| + 1..] == q && y[|d| + 1..] == r;
    }
  }

  lemma Continues(c: string, q: string, d: string, r: string)
    requires |c| < |d|
    ensures DecisionKey(c, q) == DecisionKey(d, r) <==> c + ":" <= d && q == d[|c| + 1..] + ":" + r
  {
    var x, y, k := DecisionKey(c, q), DecisionKey(d, r), |c| + 1;
    assert x[..k] == c + ":" && x[k..] == q;
    assert y[..k] == d[..k] && y[k..] == d[k..] + ":" + r;
    assert x == x[..k] + x[k..] && y == y[..k] + y[k..];
    assert c + ":" <= d <==> d[..k] == c + ":";
  }

  // Two candidates can be confused exactly when one id continues the other past a colon, so
  // never two ids of one length.
  lemma CandidatesConfusedExactly(c: string, d: string)
    requires c != d
    ensures (exists q, r :: DecisionKey(c, q) == DecisionKey(d, r)) <==> (c + ":" <= d || d + ":" <= c)
    ensures |c| == |d| ==> forall q, r :: DecisionKey(c, q) != DecisionKey(d, r)
  {
    forall q, r ensures DecisionKey(c, q) == DecisionKey(d, r) ==> c + ":" <= d || d + ":" <= c { SlotsExact(c, q, d, r); }
    if c + ":" <= d {
      SlotsExact(c, d[|c| + 1..] + ":" + "", d, "");
    } else if d + ":" <= c {
      SlotsExact(c, "", d, c[|d| + 1..] + ":" + "");
    }
  }

  // An instance of the failing side.
  lemma SlotsConfused()
    ensures DecisionKey("a:b", "c") == DecisionKey("a", "b:c")
  {
    SlotsExact("a:b", "c", "a", "b:c");
  }
}
