// What the result of an attempt means: when a success describes the stored version, and when a
// failure is definite.
module PgReconcile {

  import opened PgPublication

  // ----- where the entries of a history come from -----

  ghost function Past(s: Sys, r: Repo): seq<Id> { if r in s.history then s.history[r] else [] }

  // What a history named just before its entry i.
  ghost function NamedBefore(h: seq<Id>, i: nat): Option<Id>
    requires i <= |h|
  {
    if i == 0 then None else Some(h[i - 1])
  }

  // The attempt q landed the entry i of a history, expecting the entry before it.
  ghost predicate LandedAt(pubs: seq<Publisher>, s: Sys, r: Repo, i: nat, q: nat) {
    && i < |Past(s, r)| && q < |pubs| && pubs[q].build.repo == r && pubs[q].build.id == Past(s, r)[i]
    && pubs[q].expected == NamedBefore(Past(s, r), i)
    && pubs[q].build.id in s.headers && s.headers[pubs[q].build.id] == Header(r, pubs[q].build.generation, pubs[q].build.digest)
  }

  ghost predicate Landed(pubs: seq<Publisher>, s: Sys, r: Repo, i: nat) { exists q :: LandedAt(pubs, s, r, i, q) }

  // Every entry added since the start was landed by an attempt.
  ghost predicate AddedByAttempts(pubs: seq<Publisher>, s0: Sys, s: Sys) {
    forall r: Repo, i: nat {:trigger Landed(pubs, s, r, i)} :: |Past(s0, r)| <= i < |Past(s, r)| ==> Landed(pubs, s, r, i)
  }

  // When the attempt sent its commit, its history had k entries, the last of them the one it
  // expected, older than its build, and its own id was not stored.
  ghost predicate SentAfter(pubs: seq<Publisher>, s0: Sys, s: Sys, p: nat, k: nat)
    requires p < |pubs|
  {
    var b, h := pubs[p].build, Past(s, pubs[p].build.repo);
    && |Past(s0, b.repo)| <= k <= |h| && b.id !in h[..k] && pubs[p].expected == NamedBefore(h, k)
    && (k > 0 ==> h[k - 1] in s.headers && s.headers[h[k - 1]].generation < b.generation)
  }

  ghost predicate SentOk(pubs: seq<Publisher>, s0: Sys, s: Sys, p: nat)
    requires WellFormed(pubs, s) && p < |pubs|
  {
    && (s.sent[p] ==> exists k :: SentAfter(pubs, s0, s, p, k))
    && (s.client[p] == Unsure ==> s.sent[p])
    && (s.client[p] == Finished(true) ==> s.sent[p] || Named(s, pubs[p].build))
  }

  ghost predicate Traced(pubs: seq<Publisher>, s0: Sys, s: Sys, p: nat)
    requires WellFormed(pubs, s) && p < |pubs|
  {
    Extends(s0, s) && AddedByAttempts(pubs, s0, s) && SentOk(pubs, s0, s, p)
  }

  lemma PastGrows(s: Sys, t: Sys, r: Repo)
    requires Extends(s, t)
    ensures Past(s, r) <= Past(t, r)
  {
  }

  lemma StillLanded(pubs: seq<Publisher>, s: Sys, t: Sys, r: Repo, i: nat, q: nat)
    requires Extends(s, t) && LandedAt(pubs, s, r, i, q)
    ensures LandedAt(pubs, t, r, i, q)
  {
    PastGrows(s, t, r);
    assert Past(t, r)[i] == Past(s, r)[i] && NamedBefore(Past(t, r), i) == NamedBefore(Past(s, r), i);
  }

  lemma StillSentAfter(pubs: seq<Publisher>, s0: Sys, s: Sys, t: Sys, p: nat, k: nat)
    requires p < |pubs| && Extends(s, t) && SentAfter(pubs, s0, s, p, k)
    ensures SentAfter(pubs, s0, t, p, k)
  {
    var r := pubs[p].build.repo;
    PastGrows(s, t, r);
    assert Past(t, r)[..k] == Past(s, r)[..k] && NamedBefore(Past(t, r), k) == NamedBefore(Past(s, r), k);
  }

  // A landing commit adds one entry to one history.
  lemma LandAdds(pubs: seq<Publisher>, s: Sys, q: nat, genOf: Digest -> nat)
    requires Inv(pubs, s, genOf) && q < |pubs| && s.tx[q].Committing?
    ensures var t, b := Next(pubs, s, Land(q)), pubs[q].build;
            && Past(t, b.repo) == Past(s, b.repo) + [b.id] && LandedAt(pubs, t, b.repo, |Past(s, b.repo)|, q)
            && (forall r :: r != b.repo ==> Past(t, r) == Past(s, r))
  {
    hide InsertsExclusive, ClientsOk, LocksOk, HistoryStored, HistoryRises, HeadersNamed;
    assert TxOk(pubs, s, q);
    var t, b := Commit(s, pubs[q], q, true), pubs[q].build;
    assert s.tx[q] == Committing(true) && Next(pubs, s, Land(q)) == t;
    CommitHistoryAt(s, pubs[q], q, b.repo);
    assert Past(t, b.repo)[|Past(s, b.repo)|] == b.id;
  }

  lemma AddedOneMore(pubs: seq<Publisher>, s0: Sys, s: Sys, q: nat, genOf: Digest -> nat)
    requires Inv(pubs, s, genOf) && q < |pubs| && s.tx[q].Committing? && AddedByAttempts(pubs, s0, s)
    requires Extends(s, Next(pubs, s, Land(q)))
    ensures AddedByAttempts(pubs, s0, Next(pubs, s, Land(q)))
  {
    hide Inv, Next, Extends, LandedAt;
    InvWellFormed(pubs, s, genOf);
    var t := Next(pubs, s, Land(q));
    LandAdds(pubs, s, q, genOf);
    forall r: Repo, i: nat {:trigger Landed(pubs, t, r, i)} | |Past(s0, r)| <= i < |Past(t, r)| ensures Landed(pubs, t, r, i) {
      if i < |Past(s, r)| {
        assert Landed(pubs, s, r, i);
        var q' :| LandedAt(pubs, s, r, i, q');
        StillLanded(pubs, s, t, r, i, q');
      } else {
        assert r == pubs[q].build.repo && i == |Past(s, r)|;
      }
    }
  }

  lemma SameHistoryAdded(pubs: seq<Publisher>, s0: Sys, s: Sys, t: Sys)
    requires AddedByAttempts(pubs, s0, s) && t.history == s.history && t.headers == s.headers
    ensures AddedByAttempts(pubs, s0, t)
  {
    forall r: Repo, i: nat {:trigger Landed(pubs, t, r, i)} | |Past(s0, r)| <= i < |Past(t, r)| ensures Landed(pubs, t, r, i) {
      assert Landed(pubs, s, r, i);
      var q :| LandedAt(pubs, s, r, i, q);
      assert LandedAt(pubs, t, r, i, q);
    }
  }

  // Sending the commit, the attempt is still right about its predecessor.
  lemma SendIsAfter(pubs: seq<Publisher>, s0: Sys, s: Sys, p: nat, genOf: Digest -> nat)
    requires Inv(pubs, s, genOf) && Extends(s0, s) && p < |pubs| && s.tx[p].HeaderIn?
    ensures SentAfter(pubs, s0, s, p, |Past(s, pubs[p].build.repo)|)
  {
    hide InsertsExclusive, ClientsOk, LocksOk, HistoryRises, HeadersNamed;
    var r := pubs[p].build.repo;
    assert TxOk(pubs, s, p);
    PastGrows(s0, s, r);
    LiveIsLast(s, genOf, r);
    forall x | x in Past(s, r) ensures x in s.headers {
      var i :| 0 <= i < |s.history[r]| && s.history[r][i] == x;
    }
    assert Past(s, r)[..|Past(s, r)|] == Past(s, r);
  }

  // ----- the trace of a run -----

  lemma SentStays(pubs: seq<Publisher>, s: Sys, e: Step, p: nat)
    requires WellFormed(pubs, s) && p < |pubs|
    ensures var t := Next(pubs, s, e);
            && (s.sent[p] ==> t.sent[p])
            && (t.sent[p] && !s.sent[p] ==> s.tx[p].HeaderIn?)
            && (t.client[p] == Unsure ==> s.client[p] == Unsure || s.sent[p])
  {
    hide Contended, Judge, LiveOf, Release;
    if e.p != p { StepUntouched(pubs, s, e, p); }
  }

  // A new success comes from an unsure client, a landed commit or a live build of this version.
  lemma SuccessCause(pubs: seq<Publisher>, s: Sys, e: Step, p: nat)
    requires WellFormed(pubs, s) && p < |pubs|
    ensures Next(pubs, s, e).client[p] == Finished(true) ==>
              (s.client[p] == Finished(true) || s.client[p] == Unsure || s.landed[p]
               || (s.tx[p].Seen? && Judge(pubs[p], s.tx[p].live) == Return(true)))
  {
    hide Contended, Judge, LiveOf, Release;
    if e.p != p { StepUntouched(pubs, s, e, p); }
  }

  lemma NamedStays(s: Sys, t: Sys, b: Build)
    requires Extends(s, t) && Named(s, b)
    ensures Named(t, b)
  {
    assert s.history[b.repo] <= t.history[b.repo];
    var i :| 0 <= i < |s.history[b.repo]| && s.history[b.repo][i] == b.id;
    assert t.history[b.repo][i] == b.id;
  }

  lemma SeenSameIsNamed(pubs: seq<Publisher>, s: Sys, p: nat, genOf: Digest -> nat)
    requires Inv(pubs, s, genOf) && Faithful(pubs, genOf) && p < |pubs|
    ensures s.tx[p].Seen? && Judge(pubs[p], s.tx[p].live) == Return(true) ==> Named(s, pubs[p].build)
    ensures s.landed[p] ==> Named(s, pubs[p].build)
  {
    hide HistoryOk, InsertsExclusive, LocksOk, LiveOf, Named, NamedId, Supersedes;
    assert TxOk(pubs, s, p);
    if s.tx[p].Seen? && Judge(pubs[p], s.tx[p].live) == Return(true) { SameBuildNamed(pubs, s, genOf, p); }
  }

  lemma StepAdded(pubs: seq<Publisher>, s0: Sys, s: Sys, e: Step, genOf: Digest -> nat)
    requires Inv(pubs, s, genOf) && AddedByAttempts(pubs, s0, s) && WellFormed(pubs, s) && Extends(s, Next(pubs, s, e))
    ensures AddedByAttempts(pubs, s0, Next(pubs, s, e))
  {
    hide Inv, AddedByAttempts, Extends;
    if e.Land? {
      if e.p < |pubs| && s.tx[e.p].Committing? { AddedOneMore(pubs, s0, s, e.p, genOf); }
    } else {
      hide Next;
      OnlyLandWrites(pubs, s, e);
      SameHistoryAdded(pubs, s0, s, Next(pubs, s, e));
    }
  }

  lemma StepSent(pubs: seq<Publisher>, s0: Sys, s: Sys, e: Step, p: nat, genOf: Digest -> nat)
    requires Inv(pubs, s, genOf) && Faithful(pubs, genOf) && WellFormed(pubs, s) && p < |pubs|
    requires Extends(s0, s) && Extends(s, Next(pubs, s, e)) && SentOk(pubs, s0, s, p)
    ensures SentOk(pubs, s0, Next(pubs, s, e), p)
  {
    hide Inv, Next, Faithful, Extends, SentAfter, Named, Judge;
    var t := Next(pubs, s, e);
    SentStays(pubs, s, e, p);
    SuccessCause(pubs, s, e, p);
    SeenSameIsNamed(pubs, s, p, genOf);
    if Named(s, pubs[p].build) { NamedStays(s, t, pubs[p].build); }
    if t.sent[p] {
      if !s.sent[p] { SendIsAfter(pubs, s0, s, p, genOf); }
      var k :| SentAfter(pubs, s0, s, p, k);
      StillSentAfter(pubs, s0, s, t, p, k);
    }
  }

  lemma {:induction false} RunTraced(pubs: seq<Publisher>, s0: Sys, s: Sys, steps: seq<Step>, p: nat, genOf: Digest -> nat)
    requires Inv(pubs, s, genOf) && Faithful(pubs, genOf) && WellFormed(pubs, s) && p < |pubs| && Traced(pubs, s0, s, p)
    ensures Traced(pubs, s0, Run(pubs, s, steps), p)
    decreases |steps|
  {
    hide Inv, Next, Faithful, Extends, AddedByAttempts, SentOk;
    if steps == [] {
    } else {
      var t := Next(pubs, s, steps[0]);
      StepKeeps(pubs, s, steps[0], genOf);
      StepMovesPointer(pubs, s, steps[0], genOf);
      ExtendsTransitive(s0, s, t);
      StepAdded(pubs, s0, s, steps[0], genOf);
      StepSent(pubs, s0, s, steps[0], p, genOf);
      RunTraced(pubs, s0, t, steps[1..], p, genOf);
    }
  }

  lemma StartTraced(pubs: seq<Publisher>, s: Sys, p: nat, genOf: Digest -> nat)
    requires Initial(pubs, s, genOf) && p < |pubs|
    ensures Traced(pubs, s, s, p)
  {
    hide HistoryOk;
  }

  // ----- misreported successes -----

  // A success was reported although what is stored under the id is not this build.
  ghost predicate Misreport(pubs: seq<Publisher>, genOf: Digest -> nat, s: Sys, steps: seq<Step>, p: nat)
    requires p < |pubs|
  {
    && Initial(pubs, s, genOf)
    && Run(pubs, s, steps).client[p] == Finished(true) && !Named(Run(pubs, s, steps), pubs[p].build)
  }

  // A base the first attempt of a line and p may both replace: nothing, or some older build
  // with an id of its own.
  ghost predicate CommonBase(pubs: seq<Publisher>, genOf: Digest -> nat, p: nat, c: seq<nat>, d: Digest)
    requires p < |pubs| && c != [] && (forall i :: 0 <= i < |c| ==> c[i] < |pubs|)
  {
    && pubs[c[0]].expected == pubs[p].expected
    && (pubs[p].expected.Some? ==>
          (genOf(d) < pubs[p].build.generation && genOf(d) < pubs[c[0]].build.generation
           && (forall i :: 0 <= i < |c| ==> pubs[c[i]].build.id != pubs[p].expected.value)))
  }

  // Attempts in the repository of p, each replacing the one before it, the first replacing what
  // p expects to replace, and the last publishing another version under the id of p.
  ghost predicate Line(pubs: seq<Publisher>, genOf: Digest -> nat, p: nat, c: seq<nat>)
    requires p < |pubs|
  {
    && c != [] && (forall i :: 0 <= i < |c| ==> c[i] < |pubs| && pubs[c[i]].build.repo == pubs[p].build.repo)
    && (exists d :: CommonBase(pubs, genOf, p, c, d))
    && (forall i :: 0 < i < |c| ==> pubs[c[i]].expected == Some(pubs[c[i - 1]].build.id))
    && (forall i, j :: 0 <= i < j < |c| ==>
          (pubs[c[i]].build.generation < pubs[c[j]].build.generation && pubs[c[i]].build.id != pubs[c[j]].build.id))
    && pubs[c[|c| - 1]].build.id == pubs[p].build.id && pubs[c[|c| - 1]].build.digest != pubs[p].build.digest
  }

  ghost function Lander(pubs: seq<Publisher>, s: Sys, r: Repo, i: nat): (q: nat)
    requires Landed(pubs, s, r, i)
    ensures LandedAt(pubs, s, r, i, q)
  {
    var q :| LandedAt(pubs, s, r, i, q);
    q
  }

  lemma {:induction false} Landers(pubs: seq<Publisher>, s: Sys, r: Repo, k: nat, n: nat) returns (c: seq<nat>)
    requires forall i: nat {:trigger Landed(pubs, s, r, i)} :: k <= i < k + n ==> Landed(pubs, s, r, i)
    ensures |c| == n && forall i: nat :: i < n ==> LandedAt(pubs, s, r, k + i, c[i])
  {
    hide Landed, LandedAt;
    if n == 0 {
      c := [];
    } else {
      c := Landers(pubs, s, r, k, n - 1);
      assert Landed(pubs, s, r, k + n - 1);
      c := c + [Lander(pubs, s, r, k + n - 1)];
    }
  }

  // The attempts that landed the entries k to m of a history.
  ghost predicate Slice(pubs: seq<Publisher>, s: Sys, r: Repo, k: nat, m: nat, c: seq<nat>) {
    k <= m < |Past(s, r)| && |c| == m - k + 1 && forall i: nat :: i < |c| ==> LandedAt(pubs, s, r, k + i, c[i])
  }

  lemma SliceChains(pubs: seq<Publisher>, s: Sys, r: Repo, k: nat, m: nat, c: seq<nat>, genOf: Digest -> nat)
    requires HistoryOk(s, genOf) && Slice(pubs, s, r, k, m, c)
    ensures forall i :: 0 <= i < |c| ==> c[i] < |pubs| && pubs[c[i]].build.repo == r && pubs[c[i]].build.id == Past(s, r)[k + i]
    ensures pubs[c[0]].expected == NamedBefore(Past(s, r), k)
    ensures forall i :: 0 < i < |c| ==> pubs[c[i]].expected == Some(pubs[c[i - 1]].build.id)
    ensures forall i, j :: 0 <= i < j < |c| ==>
              (pubs[c[i]].build.generation < pubs[c[j]].build.generation && pubs[c[i]].build.id != pubs[c[j]].build.id)
  {
    hide HistoryStored, PointerLast, HeadersNamed;
    forall i: nat | i < |c| ensures c[i] < |pubs| && LandedAt(pubs, s, r, k + i, c[i]) {}
    forall i: nat | 0 < i < |c| ensures pubs[c[i]].expected == Some(pubs[c[i - 1]].build.id) {
      assert LandedAt(pubs, s, r, k + i, c[i]) && LandedAt(pubs, s, r, k + (i - 1), c[i - 1]);
    }
    forall i: nat, j: nat | i < j < |c|
      ensures pubs[c[i]].build.generation < pubs[c[j]].build.generation && pubs[c[i]].build.id != pubs[c[j]].build.id
    {
      assert LandedAt(pubs, s, r, k + i, c[i]) && LandedAt(pubs, s, r, k + j, c[j]);
      RisesAt(s, r, k + i, k + j);
    }
  }

  lemma RisesAt(s: Sys, r: Repo, i: nat, j: nat)
    requires HistoryStored(s) && HistoryRises(s) && i < j < |Past(s, r)|
    ensures Past(s, r)[i] in s.headers && Past(s, r)[j] in s.headers
    ensures s.headers[Past(s, r)[i]].generation < s.headers[Past(s, r)[j]].generation && Past(s, r)[i] != Past(s, r)[j]
  {
    assert s.history[r][i] in s.headers && s.history[r][j] in s.headers;
  }

  lemma SliceBase(pubs: seq<Publisher>, s0: Sys, s: Sys, p: nat, k: nat, m: nat, c: seq<nat>, genOf: Digest -> nat)
    requires p < |pubs| && HistoryOk(s, genOf) && Slice(pubs, s, pubs[p].build.repo, k, m, c) && SentAfter(pubs, s0, s, p, k)
    ensures (forall i :: 0 <= i < |c| ==> c[i] < |pubs|) && exists d :: CommonBase(pubs, genOf, p, c, d)
  {
    hide PointerLast, SentAfter;
    var r, h := pubs[p].build.repo, Past(s, pubs[p].build.repo);
    SliceChains(pubs, s, r, k, m, c, genOf);
    SentFacts(pubs, s0, s, p, k);
    if k == 0 {
      assert CommonBase(pubs, genOf, p, c, 0);
    } else {
      var x := h[k - 1];
      var d := s.headers[x].digest;
      assert LandedAt(pubs, s, r, k + 0, c[0]);
      RisesAt(s, r, k - 1, k);
      forall i: nat | i < |c| ensures pubs[c[i]].build.id != x { RisesAt(s, r, k - 1, k + i); }
      assert CommonBase(pubs, genOf, p, c, d);
    }
  }

  lemma SentFacts(pubs: seq<Publisher>, s0: Sys, s: Sys, p: nat, k: nat)
    requires p < |pubs| && SentAfter(pubs, s0, s, p, k)
    ensures var b, h := pubs[p].build, Past(s, pubs[p].build.repo);
            && |Past(s0, b.repo)| <= k <= |h| && b.id !in h[..k] && pubs[p].expected == NamedBefore(h, k)
            && (k > 0 ==> h[k - 1] in s.headers && s.headers[h[k - 1]].generation < b.generation)
  {
  }

  lemma InPrefix(h: seq<Id>, k: nat, m: nat, x: Id)
    ensures m < k <= |h| && h[m] == x ==> x in h[..k]
  {
    if m < k <= |h| && h[m] == x { assert h[..k][m] == x; }
  }

  // Every misreport comes of a line of attempts that publishes another version under the id.
  lemma MisreportHasLine(pubs: seq<Publisher>, genOf: Digest -> nat, s: Sys, steps: seq<Step>, p: nat) returns (c: seq<nat>)
    requires p < |pubs| && Faithful(pubs, genOf) && Misreport(pubs, genOf, s, steps, p)
    ensures Line(pubs, genOf, p, c)
  {
    hide Inv, Run, SentAfter, Extends, CommonBase, HistoryStored, HistoryRises, PointerLast, HeadersNamed, Faithful;
    var t, b := Run(pubs, s, steps), pubs[p].build;
    InitialOk(pubs, s, genOf);
    StartTraced(pubs, s, p, genOf);
    RunTraced(pubs, s, s, steps, p, genOf);
    PublicationSafe(pubs, s, steps, genOf);
    var k: nat :| SentAfter(pubs, s, t, p, k);
    SentFacts(pubs, s, t, p, k);
    var h := Past(t, b.repo);
    var m: nat :| m < |h| && h[m] == b.id;
    InPrefix(h, k, m, b.id);
    c := Landers(pubs, t, b.repo, k, m - k + 1);
    assert Slice(pubs, t, b.repo, k, m, c);
    SliceChains(pubs, t, b.repo, k, m, c, genOf);
    SliceBase(pubs, s, t, p, k, m, c, genOf);
    LastIsOther(pubs, t, p, k, m, c, genOf);
  }

  lemma LastIsOther(pubs: seq<Publisher>, s: Sys, p: nat, k: nat, m: nat, c: seq<nat>, genOf: Digest -> nat)
    requires p < |pubs| && Faithful(pubs, genOf) && Slice(pubs, s, pubs[p].build.repo, k, m, c)
    requires Past(s, pubs[p].build.repo)[m] == pubs[p].build.id && !Named(s, pubs[p].build)
    ensures var q := c[|c| - 1]; q < |pubs| && pubs[q].build.id == pubs[p].build.id && pubs[q].build.digest != pubs[p].build.digest
  {
    var q := c[|c| - 1];
    assert LandedAt(pubs, s, pubs[p].build.repo, k + (|c| - 1), q);
  }

  // ----- every line can be played -----

  // The database a line starts from: nothing, or one older build that is live.
  ghost function StartOver(pubs: seq<Publisher>, genOf: Digest -> nat, p: nat, d: Digest): Sys
    requires p < |pubs|
  {
    var n, r := |pubs|, pubs[p].build.repo;
    var idle := Sys(map[], map[], map[], map[], seq(n, i => Idle), seq(n, i => Working), seq(n, i => false), seq(n, i => false));
    match pubs[p].expected
    case None => idle
    case Some(x) => idle.(headers := map[x := Header(r, genOf(d), d)], pointer := map[r := x], history := map[r := [x]])
  }

  lemma StartInitial(pubs: seq<Publisher>, genOf: Digest -> nat, p: nat, d: Digest)
    requires p < |pubs|
    ensures Initial(pubs, StartOver(pubs, genOf, p, d), genOf)
  {
    hide HistoryOk;
    StartHistory(pubs, genOf, p, d);
  }

  lemma StartHistory(pubs: seq<Publisher>, genOf: Digest -> nat, p: nat, d: Digest)
    requires p < |pubs|
    ensures HistoryOk(StartOver(pubs, genOf, p, d), genOf)
  {
    var s := StartOver(pubs, genOf, p, d);
    assert HistoryStored(s) && PointerLast(s);
  }

  // An attempt whose connection is cut after it sent its commit, which is then rolled back.
  function Lost(p: nat): seq<Step> {
    [Begin(p), Look(p), Check(p, true), PutHeader(p), SendCommit(p), Lose(p), Abort(p)]
  }

  function LostState(pubs: seq<Publisher>, s: Sys, p: nat): Sys
    requires WellFormed(pubs, s)
  {
    Next(pubs, Next(pubs, Next(pubs, Next(pubs, s, PutHeader(p)), SendCommit(p)), Lose(p)), Abort(p))
  }

  lemma RunLost(pubs: seq<Publisher>, s: Sys, p: nat)
    requires WellFormed(pubs, s)
    ensures Run(pubs, s, Lost(p)) == LostState(pubs, CheckedState(pubs, s, p, true), p)
  {
    hide Next, WellFormed, Run;
    var a5 := [SendCommit(p)] + ([Lose(p)] + ([Abort(p)] + []));
    var a4 := [PutHeader(p)] + a5;
    assert Lost(p) == [Begin(p)] + ([Look(p)] + ([Check(p, true)] + a4));
    RunCons(pubs, s, Begin(p), [Look(p)] + ([Check(p, true)] + a4));
    var t := Next(pubs, s, Begin(p));
    RunCons(pubs, t, Look(p), [Check(p, true)] + a4);
    t := Next(pubs, t, Look(p));
    RunCons(pubs, t, Check(p, true), a4);
    t := Next(pubs, t, Check(p, true));
    RunCons(pubs, t, PutHeader(p), a5);
    t := Next(pubs, t, PutHeader(p));
    RunCons(pubs, t, SendCommit(p), [Lose(p)] + ([Abort(p)] + []));
    t := Next(pubs, t, SendCommit(p));
    RunCons(pubs, t, Lose(p), [Abort(p)] + []);
    t := Next(pubs, t, Lose(p));
    RunCons(pubs, t, Abort(p), []);
    RunCons(pubs, Next(pubs, t, Abort(p)), Abort(p), []);
  }

  lemma LostWrites(pubs: seq<Publisher>, s: Sys, p: nat)
    requires WellFormed(pubs, s) && p < |pubs| && s.tx[p] == Cleared && s.client[p] == Working && !s.sent[p] && !s.landed[p]
    requires !Contended(pubs, s, p) && pubs[p].build.id !in s.headers
    ensures var t := LostState(pubs, s, p);
            t.client[p] == Unsure && t.tx[p] == Idle && t.headers == s.headers && t.pointer == s.pointer
  {
    hide Contended, Judge, LiveOf;
    var s1 := Next(pubs, s, PutHeader(p));
    assert s1 == s.(tx := s.tx[p := HeaderIn(true)]);
    var s2 := Next(pubs, s1, SendCommit(p));
    assert s2.tx[p] == Committing(true) && s2.client[p] == Working && s2.pointer == s.pointer && s2.headers == s.headers;
  }

  ghost predicate AllIdle(s: Sys) { forall q :: 0 <= q < |s.tx| ==> s.tx[q] == Idle }

  lemma IdleReady(pubs: seq<Publisher>, s: Sys, genOf: Digest -> nat, q: nat)
    requires Inv(pubs, s, genOf) && AllIdle(s) && q < |pubs| && s.client[q] == Working && !s.sent[q] && !s.landed[q]
    ensures Ready(pubs, s, q)
  {
    hide HistoryOk, InsertsExclusive, ClientsOk, TxOk;
  }

  // The live build of the repository of p is what the attempt q expects, and is older.
  ghost predicate Awaits(pubs: seq<Publisher>, s: Sys, q: nat)
    requires q < |pubs|
  {
    var r := pubs[q].build.repo;
    match pubs[q].expected
    case None => r !in s.pointer
    case Some(x) => r in s.pointer && s.pointer[r] == x && x in s.headers && s.headers[x].generation < pubs[q].build.generation
  }

  lemma AwaitsProceeds(pubs: seq<Publisher>, s: Sys, q: nat)
    requires q < |pubs| && Awaits(pubs, s, q) && pubs[q].build.id !in s.headers
    ensures var live := LiveOf(s, pubs[q].build.repo);
            && Judge(pubs[q], live) == Proceed
            && (if live.None? then pubs[q].expected.None?
                else pubs[q].expected == Some(live.value.id) && pubs[q].build.generation > live.value.generation)
  {
  }

  // p has lost its connection, the first i attempts of the line have landed, the rest are fresh.
  ghost predicate Stage(pubs: seq<Publisher>, genOf: Digest -> nat, s: Sys, p: nat, c: seq<nat>, i: nat) {
    && Inv(pubs, s, genOf) && AllIdle(s) && p < |pubs| && s.client[p] == Unsure
    && i <= |c| && (forall j :: 0 <= j < |c| ==> c[j] < |pubs|)
    && (forall j :: i <= j < |c| ==> s.client[c[j]] == Working && !s.sent[c[j]] && !s.landed[c[j]])
    && (forall j :: i <= j < |c| ==> pubs[c[j]].build.id !in s.headers)
    && (i < |c| ==> Awaits(pubs, s, c[i]))
    && (i > 0 ==>
          var b := pubs[c[i - 1]].build;
          b.repo in s.pointer && s.pointer[b.repo] == b.id && b.id in s.headers
          && s.headers[b.id] == Header(b.repo, b.generation, b.digest))
  }

  lemma LostIsStage(pubs: seq<Publisher>, genOf: Digest -> nat, p: nat, c: seq<nat>, d: Digest)
    requires Faithful(pubs, genOf) && p < |pubs| && Line(pubs, genOf, p, c) && CommonBase(pubs, genOf, p, c, d)
    ensures WellFormed(pubs, StartOver(pubs, genOf, p, d))
    ensures Stage(pubs, genOf, Run(pubs, StartOver(pubs, genOf, p, d), Lost(p)), p, c, 0)
  {
    hide Inv, Next, Run, Lost, Contended, LiveOf, Judge, Initial, Faithful, Awaits;
    var s := StartOver(pubs, genOf, p, d);
    StartInitial(pubs, genOf, p, d);
    InitialOk(pubs, s, genOf);
    InvWellFormed(pubs, s, genOf);
    StartFacts(pubs, genOf, p, c, d);
    IdleReady(pubs, s, genOf, p);
    AwaitsProceeds(pubs, s, p);
    AttemptChecks(pubs, s, p, true);
    var t := CheckedState(pubs, s, p, true);
    StillUncontended(pubs, s, t, p);
    LostWrites(pubs, t, p);
    RunLost(pubs, s, p);
    RunKeeps(pubs, s, Lost(p), genOf);
    var u := Run(pubs, s, Lost(p));
    forall q: nat | q < |pubs| && q != p
      ensures u.client[q] == s.client[q] && u.tx[q] == s.tx[q] && u.sent[q] == s.sent[q] && u.landed[q] == s.landed[q]
    {
      LostIsOwn(p, q);
      RunUntouched(pubs, s, Lost(p), q);
    }
    AwaitsSame(pubs, s, u, c[0]);
    InvWellFormed(pubs, u, genOf);
  }

  lemma LostIsOwn(p: nat, q: nat)
    requires p != q
    ensures forall i :: 0 <= i < |Lost(p)| ==> Lost(p)[i].p != q
  {
    var l := Lost(p);
    forall i | 0 <= i < |l| ensures l[i].p != q {
      assert i == 0 || i == 1 || i == 2 || i == 3 || i == 4 || i == 5 || i == 6;
    }
  }

  lemma AwaitsSame(pubs: seq<Publisher>, s: Sys, t: Sys, q: nat)
    requires q < |pubs| && t.headers == s.headers && t.pointer == s.pointer && Awaits(pubs, s, q)
    ensures Awaits(pubs, t, q)
  {
  }

  lemma StartFacts(pubs: seq<Publisher>, genOf: Digest -> nat, p: nat, c: seq<nat>, d: Digest)
    requires p < |pubs| && Line(pubs, genOf, p, c) && CommonBase(pubs, genOf, p, c, d)
    ensures var s := StartOver(pubs, genOf, p, d);
            && AllIdle(s) && Awaits(pubs, s, p) && Awaits(pubs, s, c[0]) && pubs[p].build.id !in s.headers
            && (forall q :: 0 <= q < |pubs| ==> s.client[q] == Working && !s.sent[q] && !s.landed[q])
            && (forall j :: 0 <= j < |c| ==> c[j] != p && pubs[c[j]].build.id !in s.headers)
  {
    assert pubs[c[|c| - 1]].build.id == pubs[p].build.id;
    forall j | 0 <= j < |c| ensures c[j] != p {
      assert j < |c| - 1 ==> pubs[c[j]].build.id != pubs[c[|c| - 1]].build.id;
    }
  }

  lemma AttemptIsOwn(p: nat, q: nat)
    requires p != q
    ensures forall i :: 0 <= i < |Attempt(p, true)| ==> Attempt(p, true)[i].p != q
  {
    var l := Attempt(p, true);
    forall i | 0 <= i < |l| ensures l[i].p != q {
      assert i == 0 || i == 1 || i == 2 || i == 3 || i == 4 || i == 5 || i == 6;
    }
  }

  // The next attempt of the line lands undisturbed.
  lemma StageStep(pubs: seq<Publisher>, genOf: Digest -> nat, s: Sys, p: nat, c: seq<nat>, i: nat)
    requires Faithful(pubs, genOf) && p < |pubs| && Line(pubs, genOf, p, c) && Stage(pubs, genOf, s, p, c, i) && i < |c|
    ensures WellFormed(pubs, s) && Stage(pubs, genOf, Run(pubs, s, Attempt(c[i], true)), p, c, i + 1)
  {
    hide Inv, Next, Run, Attempt, Contended, LiveOf, Judge, Initial, Faithful, Awaits, CommonBase;
    var q, b := c[i], pubs[c[i]].build;
    InvWellFormed(pubs, s, genOf);
    IdleReady(pubs, s, genOf, q);
    AwaitsProceeds(pubs, s, q);
    AttemptExact(pubs, s, q, true, genOf);
    RunKeeps(pubs, s, Attempt(q, true), genOf);
    var t := Run(pubs, s, Attempt(q, true));
    InvWellFormed(pubs, t, genOf);
    assert t.pointer == s.pointer[b.repo := b.id] && t.headers == s.headers[b.id := Header(b.repo, b.generation, b.digest)];
    forall o: nat | o < |pubs| && o != q
      ensures t.client[o] == s.client[o] && t.tx[o] == s.tx[o] && t.sent[o] == s.sent[o] && t.landed[o] == s.landed[o]
    {
      AttemptIsOwn(q, o);
      RunUntouched(pubs, s, Attempt(q, true), o);
    }
    LineDistinct(pubs, genOf, p, c, i);
    if i + 1 < |c| { AwaitsNext(pubs, t, c[i], c[i + 1]); }
  }

  lemma LineDistinct(pubs: seq<Publisher>, genOf: Digest -> nat, p: nat, c: seq<nat>, i: nat)
    requires p < |pubs| && Line(pubs, genOf, p, c) && i < |c|
    ensures c[i] != p
    ensures forall j :: i < j < |c| ==> c[j] != c[i] && pubs[c[j]].build.id != pubs[c[i]].build.id
  {
    hide CommonBase;
    assert i < |c| - 1 ==> pubs[c[i]].build.id != pubs[c[|c| - 1]].build.id;
  }

  lemma AwaitsNext(pubs: seq<Publisher>, s: Sys, q: nat, next: nat)
    requires q < |pubs| && next < |pubs| && pubs[next].build.repo == pubs[q].build.repo && pubs[next].expected == Some(pubs[q].build.id)
    requires pubs[q].build.generation < pubs[next].build.generation
    requires var b := pubs[q].build;
             b.repo in s.pointer && s.pointer[b.repo] == b.id && b.id in s.headers && s.headers[b.id] == Header(b.repo, b.generation, b.digest)
    ensures Awaits(pubs, s, next)
  {
  }

  function Attempts(c: seq<nat>): seq<Step> {
    if c == [] then [] else Attempts(c[..|c| - 1]) + Attempt(c[|c| - 1], true)
  }

  lemma {:induction false} StagesReached(pubs: seq<Publisher>, genOf: Digest -> nat, s: Sys, p: nat, c: seq<nat>, i: nat)
    requires Faithful(pubs, genOf) && p < |pubs| && Line(pubs, genOf, p, c) && i <= |c|
    requires WellFormed(pubs, s) && Stage(pubs, genOf, s, p, c, 0)
    ensures Stage(pubs, genOf, Run(pubs, s, Attempts(c[..i])), p, c, i)
    decreases i
  {
    hide Stage, Line, Run, Attempt, Faithful, Inv;
    if i == 0 {
      RunCons(pubs, s, Begin(0), []);
    } else {
      StagesReached(pubs, genOf, s, p, c, i - 1);
      assert c[..i][..i - 1] == c[..i - 1];
      var u := Run(pubs, s, Attempts(c[..i - 1]));
      StageStep(pubs, genOf, u, p, c, i - 1);
      RunAppend(pubs, s, Attempts(c[..i - 1]), Attempt(c[i - 1], true));
    }
  }

  // At the end of the line the cut client finds its id live and reports success.
  lemma StageMisreports(pubs: seq<Publisher>, genOf: Digest -> nat, s: Sys, p: nat, c: seq<nat>)
    requires p < |pubs| && Line(pubs, genOf, p, c) && Stage(pubs, genOf, s, p, c, |c|)
    ensures WellFormed(pubs, s)
    ensures var t := Next(pubs, s, Reconcile(p, true)); t.client[p] == Finished(true) && !Named(t, pubs[p].build)
  {
    hide CommonBase, HistoryOk, InsertsExclusive, ClientsOk, LocksOk, TxOk, Awaits;
    InvWellFormed(pubs, s, genOf);
  }

  // For every line there is a run that misreports.
  lemma LineMisreports(pubs: seq<Publisher>, genOf: Digest -> nat, p: nat, c: seq<nat>) returns (s: Sys, steps: seq<Step>)
    requires Faithful(pubs, genOf) && p < |pubs| && Line(pubs, genOf, p, c)
    ensures Misreport(pubs, genOf, s, steps, p)
  {
    hide Stage, Run, Inv, Next, Attempts, Named, Faithful, Initial, CommonBase;
    var d :| CommonBase(pubs, genOf, p, c, d);
    s := StartOver(pubs, genOf, p, d);
    StartInitial(pubs, genOf, p, d);
    LostIsStage(pubs, genOf, p, c, d);
    var u := Run(pubs, s, Lost(p));
    StagesReached(pubs, genOf, u, p, c, |c|);
    assert c[..|c|] == c;
    var e := [Reconcile(p, true)] + [];
    steps := Lost(p) + Attempts(c) + e;
    RunAppend(pubs, s, Lost(p), Attempts(c));
    RunAppend(pubs, s, Lost(p) + Attempts(c), e);
    var w := Run(pubs, u, Attempts(c));
    RunCons(pubs, w, Reconcile(p, true), []);
    RunCons(pubs, Next(pubs, w, Reconcile(p, true)), Reconcile(p, true), []);
    StageMisreports(pubs, genOf, w, p, c);
  }

  // A success can be reported for a build that is not what is stored, in some run from some
  // database, exactly when such a line of attempts exists.
  lemma MisreportExactly(pubs: seq<Publisher>, genOf: Digest -> nat, p: nat)
    requires Faithful(pubs, genOf) && p < |pubs|
    ensures (exists s, steps :: Misreport(pubs, genOf, s, steps, p)) <==> (exists c :: Line(pubs, genOf, p, c))
  {
    hide Misreport, Line, Faithful;
    if exists s, steps :: Misreport(pubs, genOf, s, steps, p) {
      var s, steps :| Misreport(pubs, genOf, s, steps, p);
      var c := MisreportHasLine(pubs, genOf, s, steps, p);
    }
    if exists c :: Line(pubs, genOf, p, c) {
      var c :| Line(pubs, genOf, p, c);
      var s, steps := LineMisreports(pubs, genOf, p, c);
    }
  }

  // Another version under the id of p, in its repository.
  ghost predicate Clash(pubs: seq<Publisher>, p: nat, q: nat) {
    p < |pubs| && q < |pubs| && pubs[q].build.id == pubs[p].build.id && pubs[q].build.repo == pubs[p].build.repo
    && pubs[q].build.digest != pubs[p].build.digest
  }

  lemma MisreportHasClash(pubs: seq<Publisher>, genOf: Digest -> nat, s: Sys, steps: seq<Step>, p: nat) returns (q: nat)
    requires p < |pubs| && Faithful(pubs, genOf) && Misreport(pubs, genOf, s, steps, p)
    ensures Clash(pubs, p, q)
  {
    hide Misreport, Faithful, CommonBase;
    var c := MisreportHasLine(pubs, genOf, s, steps, p);
    q := c[|c| - 1];
  }

  // Where nobody publishes another version under the same id in the same repository, a reported
  // success, even one reconciled after a lost connection, means the build is stored exactly as
  // its author described it.
  lemma SuccessIsStored(pubs: seq<Publisher>, s: Sys, steps: seq<Step>, genOf: Digest -> nat, p: nat)
    requires Initial(pubs, s, genOf) && Faithful(pubs, genOf) && p < |pubs| && (forall q: nat :: !Clash(pubs, p, q))
    requires Run(pubs, s, steps).client[p] == Finished(true)
    ensures Named(Run(pubs, s, steps), pubs[p].build)
  {
    hide Run, Faithful, Named, HistoryOk, Clash;
    if !Named(Run(pubs, s, steps), pubs[p].build) {
      var q := MisreportHasClash(pubs, genOf, s, steps, p);
    }
  }

  // Whatever p and q may both expect to replace is older than both and goes by another id.
  ghost predicate Replaceable(pubs: seq<Publisher>, genOf: Digest -> nat, p: nat, q: nat)
    requires p < |pubs| && q < |pubs|
  {
    pubs[p].expected.Some? ==>
      pubs[p].expected.value != pubs[p].build.id
      && exists d :: genOf(d) < pubs[p].build.generation && genOf(d) < pubs[q].build.generation
  }

  // Among attempts on one id that all expect the same predecessor, as those of one refresh do,
  // a misreport is possible exactly when two of them describe different versions.
  lemma CommonExpectationExactly(pubs: seq<Publisher>, genOf: Digest -> nat, p: nat)
    requires Faithful(pubs, genOf) && p < |pubs|
    requires forall q: nat :: Clash(pubs, p, q) ==> pubs[q].expected == pubs[p].expected
    ensures (exists s, steps :: Misreport(pubs, genOf, s, steps, p)) <==>
              (exists q: nat :: Clash(pubs, p, q) && Replaceable(pubs, genOf, p, q))
  {
    hide Misreport, Faithful;
    MisreportExactly(pubs, genOf, p);
    if exists c :: Line(pubs, genOf, p, c) {
      var c :| Line(pubs, genOf, p, c);
      var q := c[|c| - 1];
      assert Clash(pubs, p, q);
      var d :| CommonBase(pubs, genOf, p, c, d);
      assert Replaceable(pubs, genOf, p, q);
    }
    if q: nat :| Clash(pubs, p, q) && Replaceable(pubs, genOf, p, q) {
      OneLine(pubs, genOf, p, q);
    }
  }

  lemma OneLine(pubs: seq<Publisher>, genOf: Digest -> nat, p: nat, q: nat)
    requires Clash(pubs, p, q) && Replaceable(pubs, genOf, p, q) && pubs[q].expected == pubs[p].expected
    ensures Line(pubs, genOf, p, [q])
  {
    if pubs[p].expected.Some? {
      var d :| genOf(d) < pubs[p].build.generation && genOf(d) < pubs[q].build.generation;
      assert CommonBase(pubs, genOf, p, [q], d);
    } else {
      assert CommonBase(pubs, genOf, p, [q], 0);
    }
  }

  // Two authors of different contents under one id, as ids derived from repository, snapshots
  // and generation alone allow.
  function Reused(): seq<Publisher> {
    [Publisher(Build(1, 0, 1, 10), None), Publisher(Build(1, 0, 1, 20), None)]
  }

  ghost function OneGeneration(): Digest -> nat { (d: Digest) => 1 }

  lemma ReconciledOtherVersion()
    ensures exists s, steps :: Misreport(Reused(), OneGeneration(), s, steps, 0)
  {
    hide Misreport;
    assert Clash(Reused(), 0, 1) && Replaceable(Reused(), OneGeneration(), 0, 1);
    CommonExpectationExactly(Reused(), OneGeneration(), 0);
  }

  // ----- what a failure means -----

  // The commit of an attempt is sent exactly when its transaction is no longer open for writing,
  // and the transaction is over once it landed.
  ghost predicate Orderly(s: Sys, p: nat)
    requires p < |s.tx| == |s.client| == |s.sent| == |s.landed|
  {
    && (s.landed[p] ==> s.sent[p] && s.tx[p] == Idle)
    && (s.tx[p] != Idle ==> (s.sent[p] <==> s.tx[p].Committing?))
  }

  // A client that was told of a failure has no transaction left.
  ghost predicate RefusedIsOver(s: Sys, p: nat)
    requires p < |s.tx| == |s.client| == |s.sent| == |s.landed|
  {
    Orderly(s, p) && (s.client[p] == Finished(false) ==> s.tx[p] == Idle && !s.landed[p])
  }

  lemma RefusedStep(pubs: seq<Publisher>, s: Sys, e: Step, p: nat)
    requires WellFormed(pubs, s) && p < |pubs| && RefusedIsOver(s, p) && !(e.Reconcile? && e.p == p)
    ensures RefusedIsOver(Next(pubs, s, e), p)
  {
    hide Contended, Judge, LiveOf;
    if e.p != p { StepUntouched(pubs, s, e, p); }
  }

  lemma {:induction false} RefusedRun(pubs: seq<Publisher>, s: Sys, steps: seq<Step>, p: nat)
    requires WellFormed(pubs, s) && p < |pubs| && RefusedIsOver(s, p)
    requires forall i :: 0 <= i < |steps| ==> !(steps[i].Reconcile? && steps[i].p == p)
    ensures RefusedIsOver(Run(pubs, s, steps), p)
    decreases |steps|
  {
    hide Next, RefusedIsOver;
    if steps == [] {
    } else {
      RefusedStep(pubs, s, steps[0], p);
      RefusedRun(pubs, Next(pubs, s, steps[0]), steps[1..], p);
    }
  }

  // A finished attempt without a commit under way stays as it is.
  lemma OverStep(pubs: seq<Publisher>, s: Sys, e: Step, p: nat)
    requires WellFormed(pubs, s) && p < |pubs| && s.client[p].Finished? && !s.tx[p].Committing? && !s.landed[p]
    ensures var t := Next(pubs, s, e); t.client[p].Finished? && !t.tx[p].Committing? && !t.landed[p]
  {
    hide Contended, Judge, LiveOf;
    if e.p != p { StepUntouched(pubs, s, e, p); }
  }

  lemma {:induction false} OverRun(pubs: seq<Publisher>, s: Sys, steps: seq<Step>, p: nat)
    requires WellFormed(pubs, s) && p < |pubs| && s.client[p].Finished? && !s.tx[p].Committing? && !s.landed[p]
    ensures !Run(pubs, s, steps).landed[p]
    decreases |steps|
  {
    hide Next;
    if steps == [] {
    } else {
      OverStep(pubs, s, steps[0], p);
      OverRun(pubs, Next(pubs, s, steps[0]), steps[1..], p);
    }
  }

  // After an attempt has reported, its commit can still land exactly while the server has it
  // undecided.
  lemma LateLandingExactly(pubs: seq<Publisher>, s: Sys, p: nat)
    requires WellFormed(pubs, s) && p < |pubs| && s.client[p].Finished? && !s.landed[p]
    ensures (exists steps :: Run(pubs, s, steps).landed[p]) <==> s.tx[p].Committing?
  {
    hide Run;
    if s.tx[p].Committing? {
      RunCons(pubs, s, Land(p), []);
      RunCons(pubs, Next(pubs, s, Land(p)), Land(p), []);
      assert Run(pubs, s, [Land(p)] + []).landed[p];
    } else {
      forall steps ensures !Run(pubs, s, steps).landed[p] { OverRun(pubs, s, steps, p); }
    }
  }

  // A failure reported without reconciliation is definite: whatever happens later, the attempt
  // has not landed and never will.
  lemma RefusalIsDefinite(pubs: seq<Publisher>, s: Sys, steps: seq<Step>, later: seq<Step>, genOf: Digest -> nat, p: nat)
    requires Initial(pubs, s, genOf) && p < |pubs|
    requires forall i :: 0 <= i < |steps| ==> !(steps[i].Reconcile? && steps[i].p == p)
    requires Run(pubs, s, steps).client[p] == Finished(false)
    ensures !Run(pubs, s, steps + later).landed[p]
  {
    hide Run, HistoryOk;
    RefusedRun(pubs, s, steps, p);
    OverRun(pubs, Run(pubs, s, steps), later, p);
    RunAppend(pubs, s, steps, later);
  }
}
