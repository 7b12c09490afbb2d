// Guarded publication against a shared database: any number of publishers, each one
// transaction under a per-repository lock, interleaved arbitrarily with lost connections,
// commits that land late or never, and crashes.
module PgPublication {

  type Id = nat
  type Repo = nat
  type Digest = nat

  datatype Option<T> = None | Some(value: T)

  datatype Build = Build(id: Id, repo: Repo, generation: nat, digest: Digest)

  // One publication attempt: the build and the predecessor its author expects to replace.
  datatype Publisher = Publisher(build: Build, expected: Option<Id>)

  datatype Header = Header(repo: Repo, generation: nat, digest: Digest)

  datatype Live = Live(id: Id, generation: nat, digest: Digest)

  // Server side of an attempt. `inserted` tells whether the build header is a new row of
  // this transaction or one that was already committed.
  datatype Tx =
    | Idle
    | Holding
    | Seen(live: Option<Live>)
    | Cleared
    | HeaderIn(inserted: bool)
    | Committing(inserted: bool)

  // Client side: working, unsure of its commit, finished with a result, or crashed.
  datatype Client = Working | Unsure | Finished(ok: bool) | Crashed

  // `history` lists the builds a repository's pointer has named, oldest first.
  datatype Sys = Sys(
    headers: map<Id, Header>, pointer: map<Repo, Id>, history: map<Repo, seq<Id>>, locks: map<Repo, nat>,
    tx: seq<Tx>, client: seq<Client>, sent: seq<bool>, landed: seq<bool>)

  datatype Step =
    | Begin(p: nat)
    | Look(p: nat)
    | Check(p: nat, stagingOk: bool)
    | PutHeader(p: nat)
    | SendCommit(p: nat)
    | Land(p: nat)
    | Abort(p: nat)
    | Ack(p: nat)
    | Reject(p: nat)
    | Lose(p: nat)
    | Reconcile(p: nat, reached: bool)
    | Drop(p: nat)
    | Crash(p: nat)

  function LiveOf(s: Sys, repo: Repo): Option<Live> {
    if repo in s.pointer && s.pointer[repo] in s.headers
    then Some(Live(s.pointer[repo], s.headers[s.pointer[repo]].generation, s.headers[s.pointer[repo]].digest))
    else None
  }

  // Rolling back or finishing a transaction releases its lock.
  function Release(s: Sys, pub: Publisher, p: nat): (t: Sys)
    requires p < |s.tx|
    ensures t.headers == s.headers && t.pointer == s.pointer && t.history == s.history
    ensures t.client == s.client && t.sent == s.sent && t.landed == s.landed && |t.tx| == |s.tx|
    ensures forall q :: 0 <= q < |s.tx| && q != p ==> t.tx[q] == s.tx[q]
  {
    s.(tx := s.tx[p := Idle], locks := s.locks - {pub.build.repo})
  }

  function Finish(s: Sys, p: nat, ok: bool): (t: Sys)
    requires p < |s.client|
    ensures t.headers == s.headers && t.pointer == s.pointer && t.history == s.history
    ensures t.tx == s.tx && t.sent == s.sent && t.landed == s.landed && |t.client| == |s.client|
    ensures forall q :: 0 <= q < |s.client| && q != p ==> t.client[q] == s.client[q]
  {
    s.(client := s.client[p := Finished(ok)])
  }

  // Another open transaction has inserted this build id and not committed: the insert waits.
  predicate Contended(pubs: seq<Publisher>, s: Sys, p: nat)
    requires p < |pubs| == |s.tx|
  {
    exists q :: 0 <= q < |pubs| && q != p && pubs[q].build.id == pubs[p].build.id
      && (s.tx[q] == HeaderIn(true) || s.tx[q] == Committing(true))
  }

  // The live checks: whether to go on, or the result to return at once.
  datatype Verdict = Proceed | Return(ok: bool)

  function Judge(pub: Publisher, live: Option<Live>): Verdict {
    match live
    case None => if pub.expected.None? then Proceed else Return(false)
    case Some(active) =>
      if active.id == pub.build.id then Return(active.digest == pub.build.digest)
      else if pub.expected == Some(active.id) && pub.build.generation > active.generation then Proceed
      else Return(false)
  }

  predicate WellFormed(pubs: seq<Publisher>, s: Sys) {
    |pubs| == |s.tx| == |s.client| == |s.sent| == |s.landed|
  }

  // The pointer swing and the build header become visible together.
  function Commit(s: Sys, pub: Publisher, p: nat, inserted: bool): Sys
    requires p < |s.tx| == |s.landed|
  {
    var b := pub.build;
    var past := if b.repo in s.history then s.history[b.repo] else [];
    Release(s.(headers := if inserted then s.headers[b.id := Header(b.repo, b.generation, b.digest)] else s.headers,
               pointer := s.pointer[b.repo := b.id],
               history := s.history[b.repo := past + [b.id]],
               landed := s.landed[p := true]), pub, p)
  }

  // A step that is not enabled changes nothing.
  function Next(pubs: seq<Publisher>, s: Sys, e: Step): (t: Sys)
    requires WellFormed(pubs, s)
    ensures WellFormed(pubs, t)
  {
    if e.p >= |pubs| then s else
    var p, pub, b := e.p, pubs[e.p], pubs[e.p].build;
    match e
    case Begin(_) =>
      if s.client[p] != Working || s.tx[p] != Idle || s.sent[p] then s
      else if b.repo in s.locks then Finish(s, p, false)
      else s.(locks := s.locks[b.repo := p], tx := s.tx[p := Holding])
    case Look(_) =>
      if s.client[p] != Working || s.tx[p] != Holding then s
      else s.(tx := s.tx[p := Seen(LiveOf(s, b.repo))])
    case Check(_, stagingOk) =>
      if s.client[p] != Working || !s.tx[p].Seen? then s
      else (match Judge(pub, s.tx[p].live)
            case Return(ok) => Finish(Release(s, pub, p), p, ok)
            case Proceed =>
              if stagingOk then s.(tx := s.tx[p := Cleared]) else Finish(Release(s, pub, p), p, false))
    case PutHeader(_) =>
      if s.client[p] != Working || s.tx[p] != Cleared || Contended(pubs, s, p) then s
      else if b.id !in s.headers then s.(tx := s.tx[p := HeaderIn(true)])
      else if s.headers[b.id].repo == b.repo && s.headers[b.id].digest == b.digest then s.(tx := s.tx[p := HeaderIn(false)])
      else Finish(Release(s, pub, p), p, false)
    case SendCommit(_) =>
      if s.client[p] != Working || !s.tx[p].HeaderIn? then s
      else s.(tx := s.tx[p := Committing(s.tx[p].inserted)], sent := s.sent[p := true])
    case Land(_) => if !s.tx[p].Committing? then s else Commit(s, pub, p, s.tx[p].inserted)
    case Abort(_) => if !s.tx[p].Committing? then s else Release(s, pub, p)
    case Ack(_) => if s.client[p] != Working || !s.landed[p] then s else Finish(s, p, true)
    case Reject(_) =>
      if s.client[p] != Working || !s.sent[p] || s.landed[p] || s.tx[p] != Idle then s else Finish(s, p, false)
    case Lose(_) => if s.client[p] != Working || !s.sent[p] then s else s.(client := s.client[p := Unsure])
    case Reconcile(_, reached) =>
      if s.client[p] != Unsure then s else Finish(s, p, reached && b.repo in s.pointer && s.pointer[b.repo] == b.id)
    case Drop(_) =>
      if s.client[p] != Working || s.tx[p] == Idle || s.tx[p].Committing? then s
      else Finish(Release(s, pub, p), p, false)
    case Crash(_) =>
      if s.client[p].Finished? then s
      else
        var t := s.(client := s.client[p := Crashed]);
        if s.tx[p] == Idle || s.tx[p].Committing? then t else Release(t, pub, p)
  }

  // ----- the invariant -----

  // The digest on a header identifies the build: it fixes the generation.
  ghost predicate Faithful(pubs: seq<Publisher>, genOf: Digest -> nat) {
    forall p :: 0 <= p < |pubs| ==> pubs[p].build.generation == genOf(pubs[p].build.digest)
  }

  // Exactly the holders of open transactions own locks.
  ghost predicate LocksOk(pubs: seq<Publisher>, s: Sys)
    requires WellFormed(pubs, s)
  {
    && (forall r :: r in s.locks ==> s.locks[r] < |pubs| && pubs[s.locks[r]].build.repo == r && s.tx[s.locks[r]] != Idle)
    && (forall p :: 0 <= p < |pubs| && s.tx[p] != Idle ==> pubs[p].build.repo in s.locks && s.locks[pubs[p].build.repo] == p)
  }

  // The live build is the expected predecessor, and this build is newer.
  ghost predicate Supersedes(s: Sys, pub: Publisher) {
    var r := pub.build.repo;
    if r in s.pointer then
      s.pointer[r] in s.headers && pub.expected == Some(s.pointer[r]) && pub.build.generation > s.headers[s.pointer[r]].generation
    else pub.expected.None?
  }

  // What a transaction saw or checked is still true: nobody else can move the pointer.
  ghost predicate TxOk(pubs: seq<Publisher>, s: Sys, p: nat)
    requires WellFormed(pubs, s) && p < |pubs|
  {
    && (s.tx[p].Seen? ==> s.tx[p].live == LiveOf(s, pubs[p].build.repo))
    && ((s.tx[p].Cleared? || s.tx[p].HeaderIn? || s.tx[p].Committing?) ==> Supersedes(s, pubs[p]))
    && ((s.tx[p] == HeaderIn(true) || s.tx[p] == Committing(true)) ==> pubs[p].build.id !in s.headers)
    && s.tx[p] != HeaderIn(false) && s.tx[p] != Committing(false)
  }

  // Uncommitted inserts of one build id exclude each other.
  ghost predicate InsertsExclusive(pubs: seq<Publisher>, s: Sys)
    requires WellFormed(pubs, s)
  {
    forall p, q :: 0 <= p < |pubs| && 0 <= q < |pubs| && p != q && pubs[p].build.id == pubs[q].build.id ==>
      !((s.tx[p] == HeaderIn(true) || s.tx[p] == Committing(true)) && (s.tx[q] == HeaderIn(true) || s.tx[q] == Committing(true)))
  }

  // Each repository's history has stored builds of that repository,
  ghost predicate HistoryStored(s: Sys) {
    forall r, i :: r in s.history && 0 <= i < |s.history[r]| ==> s.history[r][i] in s.headers && s.headers[s.history[r][i]].repo == r
  }

  // of strictly increasing generation,
  ghost predicate HistoryRises(s: Sys)
    requires HistoryStored(s)
  {
    forall r, i, j :: r in s.history && 0 <= i < j < |s.history[r]| ==>
      s.headers[s.history[r][i]].generation < s.headers[s.history[r][j]].generation
  }

  // the active row holds the last of them, and nothing else is stored.
  ghost predicate PointerLast(s: Sys) {
    && s.pointer.Keys == s.history.Keys
    && (forall r :: r in s.history ==> s.history[r] != [] && s.pointer[r] == s.history[r][|s.history[r]| - 1])
  }

  ghost predicate HeadersNamed(s: Sys, genOf: Digest -> nat) {
    forall x :: x in s.headers ==>
      (s.headers[x].repo in s.history && x in s.history[s.headers[x].repo]
       && s.headers[x].generation == genOf(s.headers[x].digest))
  }

  ghost predicate HistoryOk(s: Sys, genOf: Digest -> nat) {
    HistoryStored(s) && HistoryRises(s) && PointerLast(s) && HeadersNamed(s, genOf)
  }

  // A commit that landed stored the build exactly as its author described it; a success was
  // reported only for a build id the pointer has named.
  ghost predicate ClientsOk(pubs: seq<Publisher>, s: Sys)
    requires WellFormed(pubs, s)
  {
    && (forall p :: 0 <= p < |pubs| && s.landed[p] ==> Named(s, pubs[p].build))
    && (forall p :: 0 <= p < |pubs| && s.client[p] == Finished(true) ==> NamedId(s, pubs[p].build))
  }

  ghost predicate NamedId(s: Sys, b: Build) { b.repo in s.history && b.id in s.history[b.repo] }

  // The pointer has named this build, which is stored exactly as its author described it.
  ghost predicate Named(s: Sys, b: Build) {
    && NamedId(s, b)
    && b.id in s.headers && s.headers[b.id] == Header(b.repo, b.generation, b.digest)
  }

  ghost predicate Inv(pubs: seq<Publisher>, s: Sys, genOf: Digest -> nat) {
    && WellFormed(pubs, s) && LocksOk(pubs, s) && (forall p :: 0 <= p < |pubs| ==> TxOk(pubs, s, p))
    && InsertsExclusive(pubs, s) && HistoryOk(s, genOf) && ClientsOk(pubs, s)
  }

  // ----- steps that leave the database alone -----

  // Same database, same history; one attempt's transaction and client state may differ.
  ghost predicate Quiet(pubs: seq<Publisher>, s: Sys, t: Sys, p: nat)
    requires WellFormed(pubs, s) && p < |pubs|
  {
    && WellFormed(pubs, t) && t.headers == s.headers && t.pointer == s.pointer && t.history == s.history && t.landed == s.landed
    && (forall q :: 0 <= q < |pubs| && q != p ==> t.tx[q] == s.tx[q] && t.client[q] == s.client[q])
  }

  lemma QuietHistory(pubs: seq<Publisher>, s: Sys, t: Sys, p: nat, genOf: Digest -> nat)
    requires WellFormed(pubs, s) && p < |pubs| && Quiet(pubs, s, t, p) && HistoryOk(s, genOf)
    ensures HistoryOk(t, genOf)
  {
  }

  lemma QuietInserts(pubs: seq<Publisher>, s: Sys, t: Sys, p: nat)
    requires WellFormed(pubs, s) && p < |pubs| && Quiet(pubs, s, t, p) && InsertsExclusive(pubs, s)
    requires (t.tx[p] == HeaderIn(true) || t.tx[p] == Committing(true)) ==> !Contended(pubs, s, p)
    ensures InsertsExclusive(pubs, t)
  {
  }

  lemma QuietClients(pubs: seq<Publisher>, s: Sys, t: Sys, p: nat)
    requires WellFormed(pubs, s) && p < |pubs| && Quiet(pubs, s, t, p) && ClientsOk(pubs, s)
    requires t.client[p] == Finished(true) ==> NamedId(t, pubs[p].build)
    ensures ClientsOk(pubs, t)
  {
  }

  lemma QuietTx(pubs: seq<Publisher>, s: Sys, t: Sys, p: nat, genOf: Digest -> nat)
    requires Inv(pubs, s, genOf) && p < |pubs| && Quiet(pubs, s, t, p)
    requires LocksOk(pubs, t) && TxOk(pubs, t, p)
    requires (t.tx[p] == HeaderIn(true) || t.tx[p] == Committing(true)) ==> !Contended(pubs, s, p)
    requires t.client[p] == Finished(true) ==> NamedId(t, pubs[p].build)
    ensures Inv(pubs, t, genOf)
  {
    hide HistoryOk, InsertsExclusive, ClientsOk, LocksOk, Contended;
    QuietHistory(pubs, s, t, p, genOf);
    QuietInserts(pubs, s, t, p);
    QuietClients(pubs, s, t, p);
    forall q | 0 <= q < |pubs| ensures TxOk(pubs, t, q) {
      if q != p { assert TxOk(pubs, s, q); }
    }
  }

  lemma NotContended(pubs: seq<Publisher>, s: Sys, p: nat)
    requires WellFormed(pubs, s) && p < |pubs| && InsertsExclusive(pubs, s)
    ensures (s.tx[p] == HeaderIn(true) || s.tx[p] == Committing(true)) ==> !Contended(pubs, s, p)
  {
  }

  // The lock changes hands as the transaction opens and closes.
  lemma LockTaken(pubs: seq<Publisher>, s: Sys, p: nat)
    requires WellFormed(pubs, s) && LocksOk(pubs, s) && p < |pubs| && pubs[p].build.repo !in s.locks
    ensures LocksOk(pubs, s.(locks := s.locks[pubs[p].build.repo := p], tx := s.tx[p := Holding]))
  {
  }

  lemma LockFreed(pubs: seq<Publisher>, s: Sys, p: nat)
    requires WellFormed(pubs, s) && LocksOk(pubs, s) && p < |pubs| && s.tx[p] != Idle
    ensures LocksOk(pubs, Release(s, pubs[p], p))
  {
    var t := Release(s, pubs[p], p);
    forall q | 0 <= q < |pubs| && t.tx[q] != Idle ensures pubs[q].build.repo in t.locks && t.locks[pubs[q].build.repo] == q {
      assert q != p && s.locks[pubs[q].build.repo] == q && s.locks[pubs[p].build.repo] == p;
    }
  }

  // Two open transactions are on different repositories.
  lemma OneTransactionPerRepository(pubs: seq<Publisher>, s: Sys, genOf: Digest -> nat, p: nat, q: nat)
    requires Inv(pubs, s, genOf) && p < |pubs| && q < |pubs| && s.tx[p] != Idle && s.tx[q] != Idle
    requires pubs[p].build.repo == pubs[q].build.repo
    ensures p == q
  {
    assert s.locks[pubs[p].build.repo] == p && s.locks[pubs[q].build.repo] == q;
  }

  // What the live query returns is the last build of the history.
  lemma LiveIsLast(s: Sys, genOf: Digest -> nat, r: Repo)
    requires HistoryOk(s, genOf)
    ensures LiveOf(s, r).Some? <==> r in s.history
    ensures r in s.history ==>
              (s.history[r] != [] && s.pointer[r] == s.history[r][|s.history[r]| - 1] && s.pointer[r] in s.headers
               && LiveOf(s, r).value.id == s.pointer[r] && s.headers[s.pointer[r]].repo == r)
  {
    if r in s.history { assert s.history[r][|s.history[r]| - 1] in s.headers; }
  }

  // No stored build of a repository is newer than the live one, so a build that may replace
  // the live one cannot be stored already.
  lemma StoredIsNotNewer(s: Sys, genOf: Digest -> nat, x: Id)
    requires HistoryOk(s, genOf) && x in s.headers
    ensures s.headers[x].repo in s.pointer && s.pointer[s.headers[x].repo] in s.headers
    ensures s.headers[x].generation <= s.headers[s.pointer[s.headers[x].repo]].generation
  {
    var r := s.headers[x].repo;
    LiveIsLast(s, genOf, r);
    var i :| 0 <= i < |s.history[r]| && s.history[r][i] == x;
    if i != |s.history[r]| - 1 {
      assert s.headers[s.history[r][i]].generation < s.headers[s.history[r][|s.history[r]| - 1]].generation;
    }
  }

  lemma NewBuildNotStored(pubs: seq<Publisher>, s: Sys, genOf: Digest -> nat, p: nat)
    requires Faithful(pubs, genOf) && HistoryOk(s, genOf) && p < |pubs| && Supersedes(s, pubs[p])
    ensures var b := pubs[p].build; b.id in s.headers ==> !(s.headers[b.id].repo == b.repo && s.headers[b.id].digest == b.digest)
  {
    var b := pubs[p].build;
    if b.id in s.headers { StoredIsNotNewer(s, genOf, b.id); }
  }

  lemma SameBuildNamed(pubs: seq<Publisher>, s: Sys, genOf: Digest -> nat, p: nat)
    requires Faithful(pubs, genOf) && HistoryOk(s, genOf) && p < |pubs|
    requires LiveOf(s, pubs[p].build.repo).Some? && LiveOf(s, pubs[p].build.repo).value.id == pubs[p].build.id
    requires LiveOf(s, pubs[p].build.repo).value.digest == pubs[p].build.digest
    ensures Named(s, pubs[p].build)
  {
    LiveIsLast(s, genOf, pubs[p].build.repo);
  }

  // ----- every step keeps the invariant -----

  lemma LookKeeps(pubs: seq<Publisher>, s: Sys, p: nat, genOf: Digest -> nat)
    requires Inv(pubs, s, genOf) && p < |pubs|
    ensures Inv(pubs, Next(pubs, s, Look(p)), genOf)
  {
    var t := Next(pubs, s, Look(p));
    assert TxOk(pubs, s, p);
    if t != s { QuietTx(pubs, s, t, p, genOf); }
  }

  lemma BeginKeeps(pubs: seq<Publisher>, s: Sys, p: nat, genOf: Digest -> nat)
    requires Inv(pubs, s, genOf) && p < |pubs|
    ensures Inv(pubs, Next(pubs, s, Begin(p)), genOf)
  {
    hide HistoryOk, InsertsExclusive, Contended, Judge;
    var t := Next(pubs, s, Begin(p));
    assert TxOk(pubs, s, p);
    if t != s {
      if pubs[p].build.repo !in s.locks { LockTaken(pubs, s, p); }
      QuietTx(pubs, s, t, p, genOf);
    }
  }

  // Ending an open transaction without committing it.
  lemma LeaveKeeps(pubs: seq<Publisher>, s: Sys, t: Sys, p: nat, genOf: Digest -> nat)
    requires Inv(pubs, s, genOf) && p < |pubs| && s.tx[p] != Idle
    requires t == Release(s, pubs[p], p).(client := t.client)
    requires |t.client| == |pubs| && (forall q :: 0 <= q < |pubs| && q != p ==> t.client[q] == s.client[q])
    requires t.client[p] == Finished(true) ==> NamedId(s, pubs[p].build)
    ensures Inv(pubs, t, genOf)
  {
    LockFreed(pubs, s, p);
    QuietTx(pubs, s, t, p, genOf);
  }

  lemma CheckKeeps(pubs: seq<Publisher>, s: Sys, p: nat, stagingOk: bool, genOf: Digest -> nat)
    requires Inv(pubs, s, genOf) && Faithful(pubs, genOf) && p < |pubs|
    ensures Inv(pubs, Next(pubs, s, Check(p, stagingOk)), genOf)
  {
    hide HistoryOk, InsertsExclusive, Contended;
    var t := Next(pubs, s, Check(p, stagingOk));
    assert TxOk(pubs, s, p);
    if t != s {
      LiveIsLast(s, genOf, pubs[p].build.repo);
      if t.tx[p] == Cleared {
        ProceedSupersedes(s, pubs[p], genOf);
        QuietTx(pubs, s, t, p, genOf);
      } else {
        if t.client[p] == Finished(true) { SameBuildNamed(pubs, s, genOf, p); }
        LeaveKeeps(pubs, s, t, p, genOf);
      }
    }
  }

  lemma PutHeaderKeeps(pubs: seq<Publisher>, s: Sys, p: nat, genOf: Digest -> nat)
    requires Inv(pubs, s, genOf) && Faithful(pubs, genOf) && p < |pubs|
    ensures Inv(pubs, Next(pubs, s, PutHeader(p)), genOf)
  {
    var t := Next(pubs, s, PutHeader(p));
    assert TxOk(pubs, s, p);
    if t != s {
      NewBuildNotStored(pubs, s, genOf, p);
      if t.tx[p] == Idle { LeaveKeeps(pubs, s, t, p, genOf); } else { QuietTx(pubs, s, t, p, genOf); }
    }
  }

  lemma SendKeeps(pubs: seq<Publisher>, s: Sys, p: nat, genOf: Digest -> nat)
    requires Inv(pubs, s, genOf) && p < |pubs|
    ensures Inv(pubs, Next(pubs, s, SendCommit(p)), genOf)
  {
    var t := Next(pubs, s, SendCommit(p));
    assert TxOk(pubs, s, p);
    if t != s { QuietTx(pubs, s, t, p, genOf); }
  }

  lemma AbandonKeeps(pubs: seq<Publisher>, s: Sys, e: Step, genOf: Digest -> nat)
    requires Inv(pubs, s, genOf) && e.p < |pubs| && (e.Abort? || e.Drop? || e.Crash?)
    ensures Inv(pubs, Next(pubs, s, e), genOf)
  {
    hide HistoryOk, InsertsExclusive, Contended, Judge, Commit;
    var t := Next(pubs, s, e);
    assert TxOk(pubs, s, e.p);
    NotContended(pubs, s, e.p);
    if t != s {
      if t.tx[e.p] != s.tx[e.p] { LeaveKeeps(pubs, s, t, e.p, genOf); } else { QuietTx(pubs, s, t, e.p, genOf); }
    }
  }

  lemma ReplyKeeps(pubs: seq<Publisher>, s: Sys, e: Step, genOf: Digest -> nat)
    requires Inv(pubs, s, genOf) && e.p < |pubs| && (e.Ack? || e.Reject? || e.Lose?)
    ensures Inv(pubs, Next(pubs, s, e), genOf)
  {
    hide HistoryOk, InsertsExclusive, Contended;
    var t := Next(pubs, s, e);
    assert TxOk(pubs, s, e.p);
    NotContended(pubs, s, e.p);
    if t != s { QuietTx(pubs, s, t, e.p, genOf); }
  }

  lemma ReconcileKeeps(pubs: seq<Publisher>, s: Sys, p: nat, reached: bool, genOf: Digest -> nat)
    requires Inv(pubs, s, genOf) && p < |pubs|
    ensures Inv(pubs, Next(pubs, s, Reconcile(p, reached)), genOf)
  {
    var t := Next(pubs, s, Reconcile(p, reached));
    assert TxOk(pubs, s, p);
    if t != s {
      LiveIsLast(s, genOf, pubs[p].build.repo);
      QuietTx(pubs, s, t, p, genOf);
    }
  }

  // ----- the commit -----

  // The stored rows survive and the build is appended to its repository's history.
  lemma CommitHistoryAt(s: Sys, pub: Publisher, p: nat, r: Repo)
    requires p < |s.tx| == |s.landed| && pub.build.id !in s.headers
    requires r in Commit(s, pub, p, true).history
    ensures var h := Commit(s, pub, p, true).history[r];
            if r == pub.build.repo then h == (if r in s.history then s.history[r] else []) + [pub.build.id]
            else r in s.history && h == s.history[r]
  {
  }

  lemma CommitStored(s: Sys, pub: Publisher, p: nat)
    requires p < |s.tx| == |s.landed| && pub.build.id !in s.headers && HistoryStored(s)
    ensures HistoryStored(Commit(s, pub, p, true))
  {
    var t := Commit(s, pub, p, true);
    forall r, i | r in t.history && 0 <= i < |t.history[r]|
      ensures t.history[r][i] in t.headers && t.headers[t.history[r][i]].repo == r
    {
      CommitHistoryAt(s, pub, p, r);
    }
  }

  lemma CommitRises(s: Sys, pub: Publisher, p: nat, genOf: Digest -> nat)
    requires p < |s.tx| == |s.landed| && pub.build.id !in s.headers && HistoryOk(s, genOf) && Supersedes(s, pub)
    ensures HistoryStored(Commit(s, pub, p, true)) && HistoryRises(Commit(s, pub, p, true))
  {
    hide HeadersNamed, Supersedes;
    var b, t := pub.build, Commit(s, pub, p, true);
    CommitStored(s, pub, p);
    forall r, i, j | r in t.history && 0 <= i < j < |t.history[r]|
      ensures t.headers[t.history[r][i]].generation < t.headers[t.history[r][j]].generation
    {
      CommitHistoryAt(s, pub, p, r);
      assert s.history[r][i] in s.headers && s.headers[s.history[r][i]].repo == r;
      if r == b.repo && j == |t.history[r]| - 1 { OlderThanNew(s, pub, genOf, s.history[r][i]); }
    }
  }

  lemma OlderThanNew(s: Sys, pub: Publisher, genOf: Digest -> nat, x: Id)
    requires HistoryOk(s, genOf) && Supersedes(s, pub) && x in s.headers && s.headers[x].repo == pub.build.repo
    ensures s.headers[x].generation < pub.build.generation
  {
    StoredIsNotNewer(s, genOf, x);
  }

  lemma CommitNamed(s: Sys, pub: Publisher, p: nat, genOf: Digest -> nat)
    requires p < |s.tx| == |s.landed| && pub.build.id !in s.headers
    requires HeadersNamed(s, genOf) && PointerLast(s) && pub.build.generation == genOf(pub.build.digest)
    ensures HeadersNamed(Commit(s, pub, p, true), genOf) && PointerLast(Commit(s, pub, p, true))
  {
    var b, t := pub.build, Commit(s, pub, p, true);
    CommitHistoryAt(s, pub, p, b.repo);
    assert t.history[b.repo][|t.history[b.repo]| - 1] == b.id;
    forall x | x in t.headers
      ensures t.headers[x].repo in t.history && x in t.history[t.headers[x].repo]
      ensures t.headers[x].generation == genOf(t.headers[x].digest)
    {
      if x != b.id { assert x in s.history[s.headers[x].repo]; CommitHistoryAt(s, pub, p, s.headers[x].repo); }
    }
  }

  lemma CommitClients(pubs: seq<Publisher>, s: Sys, p: nat)
    requires WellFormed(pubs, s) && p < |pubs| && pubs[p].build.id !in s.headers && ClientsOk(pubs, s)
    ensures ClientsOk(pubs, Commit(s, pubs[p], p, true))
  {
    var t := Commit(s, pubs[p], p, true);
    forall q | 0 <= q < |pubs| && t.landed[q] ensures Named(t, pubs[q].build) {
      if q != p { assert Named(s, pubs[q].build); }
      CommitHistoryAt(s, pubs[p], p, pubs[q].build.repo);
    }
    forall q | 0 <= q < |pubs| && t.client[q] == Finished(true) ensures NamedId(t, pubs[q].build) {
      assert NamedId(s, pubs[q].build);
      CommitHistoryAt(s, pubs[p], p, pubs[q].build.repo);
    }
  }

  // Other open transactions are on other repositories and on other new ids.
  lemma CommitLeavesOthers(pubs: seq<Publisher>, s: Sys, p: nat, q: nat, genOf: Digest -> nat)
    requires Inv(pubs, s, genOf) && p < |pubs| && q < |pubs| && q != p && s.tx[p] == Committing(true)
    ensures TxOk(pubs, Commit(s, pubs[p], p, true), q)
  {
    assert TxOk(pubs, s, p) && TxOk(pubs, s, q);
    if s.tx[q] != Idle {
      if pubs[p].build.repo == pubs[q].build.repo { OneTransactionPerRepository(pubs, s, genOf, p, q); }
      LiveIsLast(s, genOf, pubs[q].build.repo);
    }
  }

  lemma LandKeeps(pubs: seq<Publisher>, s: Sys, p: nat, genOf: Digest -> nat)
    requires Inv(pubs, s, genOf) && Faithful(pubs, genOf) && p < |pubs|
    ensures Inv(pubs, Next(pubs, s, Land(p)), genOf)
  {
    hide HistoryStored, HistoryRises, PointerLast, HeadersNamed, ClientsOk, LocksOk, Supersedes, Finish, Contended, Judge, LiveOf;
    var t := Next(pubs, s, Land(p));
    assert TxOk(pubs, s, p);
    if t != s {
      assert s.tx[p] == Committing(true) && t == Commit(s, pubs[p], p, true);
      CommitRises(s, pubs[p], p, genOf);
      CommitNamed(s, pubs[p], p, genOf);
      CommitClients(pubs, s, p);
      CommitLocks(pubs, s, p);
      forall q | 0 <= q < |pubs| ensures TxOk(pubs, t, q) {
        if q != p { CommitLeavesOthers(pubs, s, p, q, genOf); }
      }
    }
  }

  lemma CommitLocks(pubs: seq<Publisher>, s: Sys, p: nat)
    requires WellFormed(pubs, s) && LocksOk(pubs, s) && p < |pubs| && s.tx[p] != Idle
    ensures LocksOk(pubs, Commit(s, pubs[p], p, true))
  {
    LockFreed(pubs, s, p);
  }

  lemma StepKeeps(pubs: seq<Publisher>, s: Sys, e: Step, genOf: Digest -> nat)
    requires Inv(pubs, s, genOf) && Faithful(pubs, genOf)
    ensures Inv(pubs, Next(pubs, s, e), genOf)
  {
    hide Next, Inv, Faithful;
    if e.p < |pubs| {
      match e
      case Begin(p) => BeginKeeps(pubs, s, p, genOf);
      case Look(p) => LookKeeps(pubs, s, p, genOf);
      case Check(p, ok) => CheckKeeps(pubs, s, p, ok, genOf);
      case PutHeader(p) => PutHeaderKeeps(pubs, s, p, genOf);
      case SendCommit(p) => SendKeeps(pubs, s, p, genOf);
      case Land(p) => LandKeeps(pubs, s, p, genOf);
      case Reconcile(p, reached) => ReconcileKeeps(pubs, s, p, reached, genOf);
      case Abort(p) => AbandonKeeps(pubs, s, e, genOf);
      case Drop(p) => AbandonKeeps(pubs, s, e, genOf);
      case Crash(p) => AbandonKeeps(pubs, s, e, genOf);
      case Ack(p) => ReplyKeeps(pubs, s, e, genOf);
      case Reject(p) => ReplyKeeps(pubs, s, e, genOf);
      case Lose(p) => ReplyKeeps(pubs, s, e, genOf);
    } else {
      OutOfRange(pubs, s, e, genOf);
    }
  }

  lemma OutOfRange(pubs: seq<Publisher>, s: Sys, e: Step, genOf: Digest -> nat)
    requires Inv(pubs, s, genOf) && e.p >= |pubs|
    ensures Inv(pubs, Next(pubs, s, e), genOf)
  {
  }

  // ----- what a step may do to the database -----

  // Only a landing commit moves a pointer, and it moves it from the build its author expected
  // to a newly stored build of strictly larger generation.
  ghost predicate PointerMoves(pubs: seq<Publisher>, s: Sys, e: Step, t: Sys) {
    if t.pointer == s.pointer then t.headers == s.headers && t.history == s.history
    else
      && e.Land? && e.p < |pubs|
      && var pub, b := pubs[e.p], pubs[e.p].build;
         (if b.repo in s.pointer then pub.expected == Some(s.pointer[b.repo]) else pub.expected.None?)
         && (b.repo in s.pointer && s.pointer[b.repo] in s.headers ==> b.generation > s.headers[s.pointer[b.repo]].generation)
         && t.pointer == s.pointer[b.repo := b.id]
         && b.id !in s.headers && t.headers == s.headers[b.id := Header(b.repo, b.generation, b.digest)]
  }

  // Stored headers never change, and a repository's history only grows.
  ghost predicate Extends(s: Sys, t: Sys) {
    && (forall x :: x in s.headers ==> x in t.headers && t.headers[x] == s.headers[x])
    && (forall r :: r in s.history ==> r in t.history && s.history[r] <= t.history[r])
  }

  ghost predicate SameRows(s: Sys, t: Sys) {
    t.headers == s.headers && t.history == s.history && t.pointer == s.pointer
  }

  lemma EarlyWritesNothing(pubs: seq<Publisher>, s: Sys, e: Step)
    requires WellFormed(pubs, s) && (e.Begin? || e.Look? || e.Check? || e.PutHeader?)
    ensures SameRows(s, Next(pubs, s, e))
  {
    hide Contended, Judge, LiveOf, Release, Finish, Commit;
  }

  lemma LateWritesNothing(pubs: seq<Publisher>, s: Sys, e: Step)
    requires WellFormed(pubs, s) && !(e.Begin? || e.Look? || e.Check? || e.PutHeader? || e.Land?)
    ensures SameRows(s, Next(pubs, s, e))
  {
    hide Contended, Judge, LiveOf, Release, Finish, Commit;
  }

  lemma OnlyLandWrites(pubs: seq<Publisher>, s: Sys, e: Step)
    requires WellFormed(pubs, s) && !e.Land?
    ensures SameRows(s, Next(pubs, s, e))
  {
    hide Next, SameRows;
    if e.Begin? || e.Look? || e.Check? || e.PutHeader? { EarlyWritesNothing(pubs, s, e); } else { LateWritesNothing(pubs, s, e); }
  }

  lemma LandMoves(pubs: seq<Publisher>, s: Sys, p: nat, genOf: Digest -> nat)
    requires Inv(pubs, s, genOf)
    ensures PointerMoves(pubs, s, Land(p), Next(pubs, s, Land(p))) && Extends(s, Next(pubs, s, Land(p)))
  {
    hide HistoryOk, InsertsExclusive, ClientsOk, LocksOk, Contended;
    if p < |pubs| {
      assert TxOk(pubs, s, p);
      if s.tx[p].Committing? {
        var t := Commit(s, pubs[p], p, true);
        assert s.tx[p] == Committing(true) && Next(pubs, s, Land(p)) == t;
        assert t.pointer[pubs[p].build.repo] == pubs[p].build.id;
        forall r | r in s.history ensures r in t.history && s.history[r] <= t.history[r] {
          CommitHistoryAt(s, pubs[p], p, r);
        }
      }
    }
  }

  lemma StepMovesPointer(pubs: seq<Publisher>, s: Sys, e: Step, genOf: Digest -> nat)
    requires Inv(pubs, s, genOf)
    ensures PointerMoves(pubs, s, e, Next(pubs, s, e))
    ensures !e.Land? ==> Next(pubs, s, e).headers == s.headers && Next(pubs, s, e).history == s.history
    ensures Extends(s, Next(pubs, s, e))
  {
    hide Next, Inv;
    InvWellFormed(pubs, s, genOf);
    if e.Land? { LandMoves(pubs, s, e.p, genOf); } else { OnlyLandWrites(pubs, s, e); }
  }

  lemma ExtendsTransitive(s: Sys, t: Sys, u: Sys)
    requires Extends(s, t) && Extends(t, u)
    ensures Extends(s, u)
  {
    forall r | r in s.history ensures r in u.history && s.history[r] <= u.history[r] {
      assert s.history[r] <= t.history[r] <= u.history[r];
    }
  }

  // ----- runs -----

  // Attempts that have not begun, over any consistent database.
  ghost predicate Initial(pubs: seq<Publisher>, s: Sys, genOf: Digest -> nat) {
    && WellFormed(pubs, s) && s.locks == map[] && HistoryOk(s, genOf)
    && (forall p :: 0 <= p < |pubs| ==> s.tx[p] == Idle && s.client[p] == Working && !s.sent[p] && !s.landed[p])
  }

  lemma InitialOk(pubs: seq<Publisher>, s: Sys, genOf: Digest -> nat)
    requires Initial(pubs, s, genOf)
    ensures Inv(pubs, s, genOf)
  {
  }

  function Run(pubs: seq<Publisher>, s: Sys, steps: seq<Step>): (t: Sys)
    requires WellFormed(pubs, s)
    ensures WellFormed(pubs, t)
    decreases |steps|
  {
    if steps == [] then s else Run(pubs, Next(pubs, s, steps[0]), steps[1..])
  }

  lemma {:induction false} RunKeeps(pubs: seq<Publisher>, s: Sys, steps: seq<Step>, genOf: Digest -> nat)
    requires Inv(pubs, s, genOf) && Faithful(pubs, genOf)
    ensures Inv(pubs, Run(pubs, s, steps), genOf) && Extends(s, Run(pubs, s, steps))
    decreases |steps|
  {
    hide Inv, Next, Extends, Faithful;
    if steps == [] {
      ExtendsSelf(s);
    } else {
      InvWellFormed(pubs, s, genOf);
      StepKeeps(pubs, s, steps[0], genOf);
      StepMovesPointer(pubs, s, steps[0], genOf);
      RunKeeps(pubs, Next(pubs, s, steps[0]), steps[1..], genOf);
      ExtendsTransitive(s, Next(pubs, s, steps[0]), Run(pubs, s, steps));
    }
  }

  lemma ExtendsSelf(s: Sys) ensures Extends(s, s) {}

  lemma InvWellFormed(pubs: seq<Publisher>, s: Sys, genOf: Digest -> nat)
    requires Inv(pubs, s, genOf)
    ensures WellFormed(pubs, s)
  {
  }

  // Over every interleaving: nothing stored changes; every repository's history is a chain of
  // stored builds of strictly increasing generation ending at the pointer, so no build is ever
  // named twice; and every success was reported for a build id its pointer had named.
  lemma PublicationSafe(pubs: seq<Publisher>, s: Sys, steps: seq<Step>, genOf: Digest -> nat)
    requires Initial(pubs, s, genOf) && Faithful(pubs, genOf)
    ensures var t := Run(pubs, s, steps);
            && Extends(s, t) && HistoryOk(t, genOf)
            && (forall p :: 0 <= p < |pubs| && t.client[p] == Finished(true) ==> NamedId(t, pubs[p].build))
            && (forall p :: 0 <= p < |pubs| && t.landed[p] ==> Named(t, pubs[p].build))
            && (forall r, i, j :: r in t.history && 0 <= i < j < |t.history[r]| ==> t.history[r][i] != t.history[r][j])
  {
    InitialOk(pubs, s, genOf);
    RunKeeps(pubs, s, steps, genOf);
  }

  // In the middle of a run too, a pointer moves only from the checked predecessor to a newer build.
  lemma {:induction false} PointerMovesInRuns(pubs: seq<Publisher>, s: Sys, steps: seq<Step>, e: Step, genOf: Digest -> nat)
    requires Initial(pubs, s, genOf) && Faithful(pubs, genOf)
    ensures var t := Run(pubs, s, steps); PointerMoves(pubs, t, e, Next(pubs, t, e))
  {
    InitialOk(pubs, s, genOf);
    RunKeeps(pubs, s, steps, genOf);
    StepMovesPointer(pubs, Run(pubs, s, steps), e, genOf);
  }

  // ----- one attempt with nobody else working -----

  function Attempt(p: nat, stagingOk: bool): seq<Step> {
    [Begin(p), Look(p), Check(p, stagingOk), PutHeader(p), SendCommit(p), Land(p), Ack(p)]
  }

  // Ready to begin: the repository is free and nobody holds an uncommitted insert of the id.
  ghost predicate Ready(pubs: seq<Publisher>, s: Sys, p: nat) {
    && WellFormed(pubs, s) && p < |pubs| && s.client[p] == Working && s.tx[p] == Idle && !s.sent[p] && !s.landed[p]
    && pubs[p].build.repo !in s.locks && !Contended(pubs, s, p)
  }

  function CheckedState(pubs: seq<Publisher>, s: Sys, p: nat, stagingOk: bool): Sys
    requires WellFormed(pubs, s)
  {
    Next(pubs, Next(pubs, Next(pubs, s, Begin(p)), Look(p)), Check(p, stagingOk))
  }

  function WrittenState(pubs: seq<Publisher>, s: Sys, p: nat): Sys
    requires WellFormed(pubs, s)
  {
    Next(pubs, Next(pubs, Next(pubs, Next(pubs, s, PutHeader(p)), SendCommit(p)), Land(p)), Ack(p))
  }

  lemma RunCons(pubs: seq<Publisher>, s: Sys, e: Step, rest: seq<Step>)
    requires WellFormed(pubs, s)
    ensures Run(pubs, s, [e] + rest) == Run(pubs, Next(pubs, s, e), rest)
    ensures Run(pubs, s, []) == s
  {
    assert ([e] + rest)[1..] == rest;
  }

  lemma RunSeven(pubs: seq<Publisher>, s: Sys, p: nat, stagingOk: bool)
    requires WellFormed(pubs, s)
    ensures Run(pubs, s, Attempt(p, stagingOk)) == WrittenState(pubs, CheckedState(pubs, s, p, stagingOk), p)
  {
    hide Next, WellFormed, Run;
    var a5 := [SendCommit(p)] + ([Land(p)] + ([Ack(p)] + []));
    var a4 := [PutHeader(p)] + a5;
    assert Attempt(p, stagingOk) == [Begin(p)] + ([Look(p)] + ([Check(p, stagingOk)] + a4));
    RunCons(pubs, s, Begin(p), [Look(p)] + ([Check(p, stagingOk)] + a4));
    var t := Next(pubs, s, Begin(p));
    RunCons(pubs, t, Look(p), [Check(p, stagingOk)] + a4);
    t := Next(pubs, t, Look(p));
    RunCons(pubs, t, Check(p, stagingOk), a4);
    t := Next(pubs, t, Check(p, stagingOk));
    RunCons(pubs, t, PutHeader(p), a5);
    t := Next(pubs, t, PutHeader(p));
    RunCons(pubs, t, SendCommit(p), [Land(p)] + ([Ack(p)] + []));
    t := Next(pubs, t, SendCommit(p));
    RunCons(pubs, t, Land(p), [Ack(p)] + []);
    t := Next(pubs, t, Land(p));
    RunCons(pubs, t, Ack(p), []);
    RunCons(pubs, Next(pubs, t, Ack(p)), Ack(p), []);
  }

  lemma AttemptChecks(pubs: seq<Publisher>, s: Sys, p: nat, stagingOk: bool)
    requires Ready(pubs, s, p)
    ensures var t, live := CheckedState(pubs, s, p, stagingOk), LiveOf(s, pubs[p].build.repo);
            && t.headers == s.headers && t.pointer == s.pointer && WellFormed(pubs, t)
            && (match Judge(pubs[p], live)
                case Return(ok) => t.client[p] == Finished(ok) && t.tx[p] == Idle
                case Proceed =>
                  if stagingOk then
                    t.tx == s.tx[p := Cleared] && t.client[p] == Working && !t.sent[p] && !t.landed[p]
                  else t.client[p] == Finished(false) && t.tx[p] == Idle)
  {
    hide Judge, Contended, LiveOf;
    var s1 := Next(pubs, s, Begin(p));
    assert s1 == s.(locks := s.locks[pubs[p].build.repo := p], tx := s.tx[p := Holding]);
    LiveUnlocked(s, s1, pubs[p].build.repo);
    var s2 := Next(pubs, s1, Look(p));
    assert s2 == s1.(tx := s1.tx[p := Seen(LiveOf(s1, pubs[p].build.repo))]);
    assert s.tx[p := Holding][p := s2.tx[p]][p := Cleared] == s.tx[p := Cleared];
  }

  lemma LiveUnlocked(s: Sys, t: Sys, r: Repo)
    requires t.headers == s.headers && t.pointer == s.pointer
    ensures LiveOf(t, r) == LiveOf(s, r)
  {
  }

  // Nothing an attempt could still do changes a finished one.
  lemma FinishedStays(pubs: seq<Publisher>, s: Sys, p: nat)
    requires WellFormed(pubs, s) && p < |pubs| && s.client[p].Finished? && s.tx[p] == Idle
    ensures WrittenState(pubs, s, p) == s
  {
  }

  lemma AttemptWrites(pubs: seq<Publisher>, s: Sys, p: nat)
    requires WellFormed(pubs, s) && p < |pubs| && s.tx[p] == Cleared && s.client[p] == Working && !s.sent[p] && !s.landed[p]
    requires !Contended(pubs, s, p)
    requires var b := pubs[p].build; b.id in s.headers ==> !(s.headers[b.id].repo == b.repo && s.headers[b.id].digest == b.digest)
    ensures var t, b := WrittenState(pubs, s, p), pubs[p].build;
            t.tx[p] == Idle &&
            if b.id in s.headers then t.client[p] == Finished(false) && t.pointer == s.pointer && t.headers == s.headers
            else
              && t.client[p] == Finished(true) && t.pointer == s.pointer[b.repo := b.id]
              && t.headers == s.headers[b.id := Header(b.repo, b.generation, b.digest)]
  {
    hide Contended, Judge, LiveOf;
    var s1 := Next(pubs, s, PutHeader(p));
    if pubs[p].build.id !in s.headers {
      assert s1 == s.(tx := s.tx[p := HeaderIn(true)]);
      var s2 := Next(pubs, s1, SendCommit(p));
      assert s2.tx[p] == Committing(true) && s2.client[p] == Working && s2.pointer == s.pointer;
    }
  }

  lemma StillUncontended(pubs: seq<Publisher>, s: Sys, t: Sys, p: nat)
    requires p < |pubs| == |s.tx| && !Contended(pubs, s, p) && t.tx == s.tx[p := Cleared]
    ensures !Contended(pubs, t, p)
  {
  }

  // Undisturbed, an attempt succeeds exactly when the live build already is this version, or
  // the expected predecessor is live, the build is newer, the local checks pass and the id is
  // new to the database; in the second case the pointer now names it.
  lemma AttemptExact(pubs: seq<Publisher>, s: Sys, p: nat, stagingOk: bool, genOf: Digest -> nat)
    requires Inv(pubs, s, genOf) && Faithful(pubs, genOf) && Ready(pubs, s, p)
    ensures var t, b, live := Run(pubs, s, Attempt(p, stagingOk)), pubs[p].build, LiveOf(s, pubs[p].build.repo);
            var same := live.Some? && live.value.id == b.id && live.value.digest == b.digest;
            var moves :=
              && stagingOk && b.id !in s.headers
              && (if live.None? then pubs[p].expected.None?
                  else pubs[p].expected == Some(live.value.id) && b.generation > live.value.generation);
            && t.client[p] == Finished(same || moves) && t.tx[p] == Idle
            && t.pointer == (if moves then s.pointer[b.repo := b.id] else s.pointer)
            && t.headers == (if moves then s.headers[b.id := Header(b.repo, b.generation, b.digest)] else s.headers)
  {
    hide HistoryOk, InsertsExclusive, ClientsOk, Contended, LocksOk, TxOk, Next, LiveOf, Supersedes;
    var b, live := pubs[p].build, LiveOf(s, pubs[p].build.repo);
    RunSeven(pubs, s, p, stagingOk);
    LiveIsLast(s, genOf, b.repo);
    AttemptChecks(pubs, s, p, stagingOk);
    var t := CheckedState(pubs, s, p, stagingOk);
    if Judge(pubs[p], live).Proceed? && stagingOk {
      ProceedSupersedes(s, pubs[p], genOf);
      NewBuildNotStored(pubs, s, genOf, p);
      StillUncontended(pubs, s, t, p);
      AttemptWrites(pubs, t, p);
    } else {
      FinishedStays(pubs, t, p);
    }
  }

  lemma ProceedSupersedes(s: Sys, pub: Publisher, genOf: Digest -> nat)
    requires HistoryOk(s, genOf)
    ensures Judge(pub, LiveOf(s, pub.build.repo)).Proceed? ==> Supersedes(s, pub)
  {
    LiveIsLast(s, genOf, pub.build.repo);
  }

  // ----- several attempts -----

  lemma {:induction false} RunAppend(pubs: seq<Publisher>, s: Sys, a: seq<Step>, b: seq<Step>)
    requires WellFormed(pubs, s)
    ensures Run(pubs, s, a + b) == Run(pubs, Run(pubs, s, a), b)
    decreases |a|
  {
    hide Next, WellFormed;
    if a == [] {
      assert a + b == b;
    } else {
      assert (a + b)[1..] == a[1..] + b;
      RunAppend(pubs, Next(pubs, s, a[0]), a[1..], b);
    }
  }

  // The part of the state that belongs to one attempt.
  ghost predicate SameAttempt(s: Sys, t: Sys, q: nat)
    requires q < |s.tx| == |s.client| == |s.sent| == |s.landed| && q < |t.tx| == |t.client| == |t.sent| == |t.landed|
  {
    t.client[q] == s.client[q] && t.tx[q] == s.tx[q] && t.sent[q] == s.sent[q] && t.landed[q] == s.landed[q]
  }

  lemma EarlyUntouched(pubs: seq<Publisher>, s: Sys, e: Step, q: nat)
    requires WellFormed(pubs, s) && q < |pubs| && q != e.p
    requires e.Begin? || e.Look? || e.Check? || e.PutHeader?
    ensures SameAttempt(s, Next(pubs, s, e), q)
  {
    hide Contended, Judge, LiveOf, Release, Finish;
  }

  lemma LateUntouched(pubs: seq<Publisher>, s: Sys, e: Step, q: nat)
    requires WellFormed(pubs, s) && q < |pubs| && q != e.p
    requires !(e.Begin? || e.Look? || e.Check? || e.PutHeader?)
    ensures SameAttempt(s, Next(pubs, s, e), q)
  {
    hide Contended, Judge, LiveOf, Release, Finish;
  }

  lemma StepUntouched(pubs: seq<Publisher>, s: Sys, e: Step, q: nat)
    requires WellFormed(pubs, s) && q < |pubs| && q != e.p
    ensures SameAttempt(s, Next(pubs, s, e), q)
  {
    hide Next;
    if e.Begin? || e.Look? || e.Check? || e.PutHeader? { EarlyUntouched(pubs, s, e, q); } else { LateUntouched(pubs, s, e, q); }
  }

  // Steps of others leave an attempt alone.
  lemma {:induction false} RunUntouched(pubs: seq<Publisher>, s: Sys, steps: seq<Step>, q: nat)
    requires WellFormed(pubs, s) && q < |pubs| && forall i :: 0 <= i < |steps| ==> steps[i].p != q
    ensures SameAttempt(s, Run(pubs, s, steps), q)
    decreases |steps|
  {
    hide Next;
    if steps == [] {
    } else {
      StepUntouched(pubs, s, steps[0], q);
      RunUntouched(pubs, Next(pubs, s, steps[0]), steps[1..], q);
    }
  }
}
