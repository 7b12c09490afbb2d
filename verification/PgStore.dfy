// The publication transaction as the client runs it, statement by statement, against a
// database that other publishers change between any two of its statements.
module PgStore {

  import opened PgPublication

  // What becomes of a sent commit: its answer arrives, or the connection is cut, perhaps before
  // the server has decided, and a fresh session may or may not manage to read the pointer.
  datatype Fate = Answered(lands: bool) | Cut(decided: bool, lands: bool, reached: bool)

  predicate OfOthers(steps: seq<Step>, p: nat) { forall i :: 0 <= i < |steps| ==> steps[i].p != p }

  // The statements up to the commit, in order.
  function Statements(p: nat, stagingOk: bool): seq<Step> {
    [Begin(p), Look(p), Check(p, stagingOk), PutHeader(p), SendCommit(p)]
  }

  function Decision(p: nat, lands: bool): Step { if lands then Land(p) else Abort(p) }

  // Everything up to the moment of statement k: what the others do in between, and the statements before it.
  function Before(p: nat, gaps: seq<seq<Step>>, stagingOk: bool, k: nat): seq<Step>
    requires k < |gaps| && k <= 5
  {
    if k == 0 then gaps[0] else Before(p, gaps, stagingOk, k - 1) + [Statements(p, stagingOk)[k - 1]] + gaps[k]
  }

  // After the commit is sent: the server's decision, if any, and what the client makes of it.
  function Aftermath(p: nat, gaps: seq<seq<Step>>, fate: Fate): seq<Step>
    requires |gaps| == 3
  {
    match fate
    case Answered(lands) => gaps[0] + [Decision(p, lands)] + gaps[1] + [if lands then Ack(p) else Reject(p)]
    case Cut(decided, lands, reached) =>
      (if decided then gaps[0] + [Decision(p, lands)] else []) + gaps[1] + [Lose(p)] + gaps[2] + [Reconcile(p, reached)]
  }

  // The part of the state that belongs to one attempt.
  datatype Side = Side(client: Client, tx: Tx, sent: bool, landed: bool)

  ghost function SideOf(s: Sys, p: nat): Side
    requires p < |s.tx| == |s.client| == |s.sent| == |s.landed|
  {
    Side(s.client[p], s.tx[p], s.sent[p], s.landed[p])
  }

  // What each statement does to the attempt when its turn has come.

  lemma BeginSide(pubs: seq<Publisher>, s: Sys, p: nat)
    requires WellFormed(pubs, s) && p < |pubs| && SideOf(s, p) == Side(Working, Idle, false, false)
    ensures SideOf(Next(pubs, s, Begin(p)), p) ==
              if pubs[p].build.repo in s.locks then Side(Finished(false), Idle, false, false)
              else Side(Working, Holding, false, false)
  {
  }

  lemma LookSide(pubs: seq<Publisher>, s: Sys, p: nat)
    requires WellFormed(pubs, s) && p < |pubs| && SideOf(s, p) == Side(Working, Holding, false, false)
    ensures SideOf(Next(pubs, s, Look(p)), p) == Side(Working, Seen(LiveOf(s, pubs[p].build.repo)), false, false)
  {
    hide LiveOf;
  }

  lemma CheckSide(pubs: seq<Publisher>, s: Sys, p: nat, stagingOk: bool, live: Option<Live>)
    requires WellFormed(pubs, s) && p < |pubs| && SideOf(s, p) == Side(Working, Seen(live), false, false)
    ensures var b, expected := pubs[p].build, pubs[p].expected;
            SideOf(Next(pubs, s, Check(p, stagingOk)), p) ==
              if live.Some? && live.value.id == b.id then Side(Finished(live.value.digest == b.digest), Idle, false, false)
              else if (if live.None? then expected.None?
                       else expected == Some(live.value.id) && b.generation > live.value.generation) && stagingOk
              then Side(Working, Cleared, false, false)
              else Side(Finished(false), Idle, false, false)
  {
    hide LiveOf, Contended;
  }

  lemma HeaderSide(pubs: seq<Publisher>, s: Sys, p: nat)
    requires WellFormed(pubs, s) && p < |pubs| && SideOf(s, p) == Side(Working, Cleared, false, false)
    ensures var b, v := pubs[p].build, SideOf(Next(pubs, s, PutHeader(p)), p);
            if InsertedElsewhere(pubs, s, p) then v == Side(Working, Cleared, false, false)
            else if b.id in s.headers && (s.headers[b.id].repo != b.repo || s.headers[b.id].digest != b.digest)
            then v == Side(Finished(false), Idle, false, false)
            else v == Side(Working, HeaderIn(b.id !in s.headers), false, false)
  {
    hide LiveOf, Judge;
  }

  // Another attempt has inserted this build id and is still open.
  ghost predicate InsertedElsewhere(pubs: seq<Publisher>, s: Sys, p: nat)
    requires p < |pubs| == |s.tx|
  {
    exists q :: 0 <= q < |pubs| && q != p && pubs[q].build.id == pubs[p].build.id && s.tx[q] in {HeaderIn(true), Committing(true)}
  }

  lemma DropSide(pubs: seq<Publisher>, s: Sys, p: nat)
    requires WellFormed(pubs, s) && p < |pubs| && SideOf(s, p) == Side(Working, Cleared, false, false)
    ensures SideOf(Next(pubs, s, Drop(p)), p) == Side(Finished(false), Idle, false, false)
  {
    hide LiveOf, Judge, Contended;
  }

  lemma SendSide(pubs: seq<Publisher>, s: Sys, p: nat, inserted: bool)
    requires WellFormed(pubs, s) && p < |pubs| && SideOf(s, p) == Side(Working, HeaderIn(inserted), false, false)
    ensures SideOf(Next(pubs, s, SendCommit(p)), p) == Side(Working, Committing(inserted), true, false)
  {
    hide LiveOf, Judge, Contended;
  }

  lemma DecisionSide(pubs: seq<Publisher>, s: Sys, p: nat, lands: bool)
    requires WellFormed(pubs, s) && p < |pubs| && SideOf(s, p).tx.Committing? && !s.landed[p]
    ensures SideOf(Next(pubs, s, Decision(p, lands)), p) == Side(s.client[p], Idle, s.sent[p], lands)
  {
    hide LiveOf, Judge, Contended;
  }

  lemma AnswerSide(pubs: seq<Publisher>, s: Sys, p: nat, lands: bool)
    requires WellFormed(pubs, s) && p < |pubs| && SideOf(s, p) == Side(Working, Idle, true, lands)
    ensures SideOf(Next(pubs, s, if lands then Ack(p) else Reject(p)), p) == Side(Finished(lands), Idle, true, lands)
  {
    hide LiveOf, Judge, Contended;
  }

  lemma LoseSide(pubs: seq<Publisher>, s: Sys, p: nat)
    requires WellFormed(pubs, s) && p < |pubs| && s.client[p] == Working && s.sent[p]
    ensures SideOf(Next(pubs, s, Lose(p)), p) == SideOf(s, p).(client := Unsure)
  {
    hide LiveOf, Judge, Contended;
  }

  lemma ReconcileSide(pubs: seq<Publisher>, s: Sys, p: nat, reached: bool)
    requires WellFormed(pubs, s) && p < |pubs| && s.client[p] == Unsure
    ensures var t, b := Next(pubs, s, Reconcile(p, reached)), pubs[p].build;
            SideOf(t, p) == SideOf(s, p).(client := Finished(reached && b.repo in t.pointer && t.pointer[b.repo] == b.id))
  {
    hide LiveOf, Judge, Contended;
  }

  lemma BeforeFour(p: nat, gaps: seq<seq<Step>>, stagingOk: bool)
    requires |gaps| == 5
    ensures Before(p, gaps, stagingOk, 3) == Before(p, gaps, stagingOk, 2) + [Check(p, stagingOk)] + gaps[3]
    ensures Before(p, gaps, stagingOk, 4) == Before(p, gaps, stagingOk, 3) + [PutHeader(p)] + gaps[4]
  {
  }

  lemma BeforeShorter(p: nat, gaps: seq<seq<Step>>, stagingOk: bool)
    requires |gaps| == 8
    ensures forall k: nat :: k < 5 ==> Before(p, gaps[..5], stagingOk, k) == Before(p, gaps, stagingOk, k)
  {
    var short := gaps[..5];
    assert Before(p, short, stagingOk, 0) == Before(p, gaps, stagingOk, 0);
    assert Before(p, short, stagingOk, 1) == Before(p, gaps, stagingOk, 1);
    assert Before(p, short, stagingOk, 2) == Before(p, gaps, stagingOk, 2);
    assert Before(p, short, stagingOk, 3) == Before(p, gaps, stagingOk, 3);
    assert Before(p, short, stagingOk, 4) == Before(p, gaps, stagingOk, 4);
  }

  lemma AftermathIs(p: nat, gaps: seq<seq<Step>>, fate: Fate, t: seq<Step>)
    requires |gaps| == 3
    ensures forall lands :: Decision(p, lands).p == p
    ensures t + Aftermath(p, gaps, fate) ==
              match fate
              case Answered(lands) => t + gaps[0] + [Decision(p, lands)] + gaps[1] + [if lands then Ack(p) else Reject(p)]
              case Cut(decided, lands, reached) =>
                (if decided then t + gaps[0] + [Decision(p, lands)] else t) + gaps[1] + [Lose(p)] + gaps[2] + [Reconcile(p, reached)]
  {
  }

  lemma NoSteps(pubs: seq<Publisher>, s: Sys)
    requires WellFormed(pubs, s)
    ensures Run(pubs, s, []) == s
  {
  }

  lemma OneStep(pubs: seq<Publisher>, s: Sys, e: Step)
    requires WellFormed(pubs, s)
    ensures Run(pubs, s, [e]) == Next(pubs, s, e)
  {
    assert [e][1..] == [];
  }

  // An attempt that has not begun.
  ghost predicate Fresh(pubs: seq<Publisher>, s: Sys, p: nat) {
    WellFormed(pubs, s) && p < |pubs| && s.client[p] == Working && s.tx[p] == Idle && !s.sent[p] && !s.landed[p]
  }

  lemma SuccessNamed(pubs: seq<Publisher>, s: Sys, steps: seq<Step>, genOf: Digest -> nat, p: nat)
    requires WellFormed(pubs, s) && p < |pubs|
    ensures Initial(pubs, s, genOf) && Faithful(pubs, genOf) && Run(pubs, s, steps).client[p] == Finished(true) ==>
              NamedId(Run(pubs, s, steps), pubs[p].build)
  {
    if Initial(pubs, s, genOf) && Faithful(pubs, genOf) { PublicationSafe(pubs, s, steps, genOf); }
  }

  // ----- nobody else at work -----

  // Nothing its own steps do changes a finished attempt.
  lemma {:induction false} FinishedRun(pubs: seq<Publisher>, s: Sys, steps: seq<Step>, p: nat)
    requires WellFormed(pubs, s) && p < |pubs| && s.client[p].Finished? && s.tx[p] == Idle
    requires forall i :: 0 <= i < |steps| ==> steps[i].p == p
    ensures Run(pubs, s, steps) == s
    decreases |steps|
  {
    if steps == [] {
    } else {
      assert Next(pubs, s, steps[0]) == s;
      FinishedRun(pubs, s, steps[1..], p);
    }
  }

  lemma PrefixIsAttempt(pubs: seq<Publisher>, s: Sys, p: nat, stagingOk: bool, done: seq<Step>)
    requires WellFormed(pubs, s) && p < |pubs| && done <= Attempt(p, stagingOk)
    requires var t := Run(pubs, s, done); t.client[p].Finished? && t.tx[p] == Idle
    ensures Run(pubs, s, done) == Run(pubs, s, Attempt(p, stagingOk))
  {
    hide Next, Run;
    var rest := Attempt(p, stagingOk)[|done|..];
    assert Attempt(p, stagingOk) == done + rest;
    RunAppend(pubs, s, done, rest);
    FinishedRun(pubs, Run(pubs, s, done), rest, p);
  }

  lemma {:induction false} OwnSteps(pubs: seq<Publisher>, s: Sys, steps: seq<Step>, p: nat)
    requires WellFormed(pubs, s) && p < |pubs|
    requires forall i :: 0 <= i < |steps| ==> steps[i].p == p
    ensures InsertedElsewhere(pubs, Run(pubs, s, steps), p) <==> InsertedElsewhere(pubs, s, p)
    decreases |steps|
  {
    hide Next;
    if steps == [] {
    } else {
      forall q: nat | q < |pubs| && q != p ensures Next(pubs, s, steps[0]).tx[q] == s.tx[q] { StepUntouched(pubs, s, steps[0], q); }
      OwnSteps(pubs, Next(pubs, s, steps[0]), steps[1..], p);
    }
  }

  lemma NoGaps(p: nat, gaps: seq<seq<Step>>, stagingOk: bool)
    requires |gaps| == 8 && forall i :: 0 <= i < |gaps| ==> gaps[i] == []
    ensures Before(p, gaps, stagingOk, 0) == []
    ensures Before(p, gaps, stagingOk, 2) + [Check(p, stagingOk)] == Before(p, gaps, stagingOk, 3) == Attempt(p, stagingOk)[..3]
    ensures Before(p, gaps, stagingOk, 3) + [PutHeader(p)] == Attempt(p, stagingOk)[..4]
    ensures Before(p, gaps, stagingOk, 4) + [SendCommit(p)] + Aftermath(p, gaps[5..], Answered(true)) == Attempt(p, stagingOk)
  {
    assert Before(p, gaps, stagingOk, 0) == [];
    assert Before(p, gaps, stagingOk, 1) == [Begin(p)];
    assert Before(p, gaps, stagingOk, 2) == [Begin(p), Look(p)];
    assert Before(p, gaps, stagingOk, 3) == [Begin(p), Look(p), Check(p, stagingOk)];
    assert Before(p, gaps, stagingOk, 4) == [Begin(p), Look(p), Check(p, stagingOk), PutHeader(p)];
    assert Aftermath(p, gaps[5..], Answered(true)) == [Land(p), Ack(p)];
  }

  // What an attempt comes to when nobody else works, whichever way it ended.
  lemma Alone(pubs: seq<Publisher>, start: Sys, before: seq<Step>, s: Sys, after: seq<Step>, t: Sys, p: nat, gaps: seq<seq<Step>>,
              stagingOk: bool, genOf: Digest -> nat)
    requires WellFormed(pubs, start) && s == Run(pubs, start, before) && t == Run(pubs, start, after) && p < |pubs| && |gaps| == 8
    requires t.client[p].Finished?
    ensures var b, expected, live := pubs[p].build, pubs[p].expected, LiveOf(s, pubs[p].build.repo);
            var moves :=
              && stagingOk && b.id !in s.headers
              && (if live.None? then expected.None?
                  else expected == Some(live.value.id) && b.generation > live.value.generation);
            (forall i :: 0 <= i < |gaps| ==> gaps[i] == []) && Inv(pubs, s, genOf) && Faithful(pubs, genOf)
            && Fresh(pubs, s, p) && b.repo !in s.locks && !InsertedElsewhere(pubs, s, p) && t.tx[p] == Idle
            && (after == before + Before(p, gaps, stagingOk, 2) + [Check(p, stagingOk)]
                || after == before + Before(p, gaps, stagingOk, 3) + [PutHeader(p)]
                || after == before + Before(p, gaps, stagingOk, 4) + [SendCommit(p)] + Aftermath(p, gaps[5..], Answered(true))
                || (after == before + gaps[0] + [Begin(p)] && b.repo in Run(pubs, s, Before(p, gaps, stagingOk, 0)).locks)
                || (after == before + Before(p, gaps, stagingOk, 3) + [PutHeader(p), Drop(p)]
                    && InsertedElsewhere(pubs, Run(pubs, s, Before(p, gaps, stagingOk, 3)), p))) ==>
              && t.client[p].ok == (moves || (live.Some? && live.value.id == b.id && live.value.digest == b.digest))
              && t.pointer == (if moves then s.pointer[b.repo := b.id] else s.pointer)
              && t.headers == (if moves then s.headers[b.id := Header(b.repo, b.generation, b.digest)] else s.headers)
  {
    hide Next, Run, Faithful, LiveOf, Inv, Before, Aftermath, Attempt, InsertedElsewhere;
    if (forall i :: 0 <= i < |gaps| ==> gaps[i] == []) && Inv(pubs, s, genOf) && Faithful(pubs, genOf)
       && Fresh(pubs, s, p) && pubs[p].build.repo !in s.locks && !InsertedElsewhere(pubs, s, p) && t.tx[p] == Idle {
      NoGaps(p, gaps, stagingOk);
      NoSteps(pubs, s);
      AttemptOwn(p, stagingOk);
      OwnSteps(pubs, s, Attempt(p, stagingOk)[..3], p);
      ReadyThen(pubs, s, p);
      AttemptExact(pubs, s, p, stagingOk, genOf);
      forall done | done <= Attempt(p, stagingOk) && after == before + done ensures t == Run(pubs, s, Attempt(p, stagingOk)) {
        RunAppend(pubs, start, before, done);
        PrefixIsAttempt(pubs, s, p, stagingOk, done);
      }
      Regroup(before, Before(p, gaps, stagingOk, 2), [Check(p, stagingOk)], []);
      Regroup(before, Before(p, gaps, stagingOk, 3), [PutHeader(p)], []);
      Regroup(before, Before(p, gaps, stagingOk, 4), [SendCommit(p)], Aftermath(p, gaps[5..], Answered(true)));
    }
  }

  lemma Regroup(a: seq<Step>, b: seq<Step>, c: seq<Step>, d: seq<Step>)
    ensures a + b + c + d == a + (b + c + d) && a + b + c == a + (b + c)
  {
  }

  lemma AttemptOwn(p: nat, stagingOk: bool)
    ensures |Attempt(p, stagingOk)| == 7 && forall i :: 0 <= i < 7 ==> Attempt(p, stagingOk)[i].p == p
  {
  }

  lemma ReadyThen(pubs: seq<Publisher>, s: Sys, p: nat)
    requires Fresh(pubs, s, p) && pubs[p].build.repo !in s.locks && !InsertedElsewhere(pubs, s, p)
    ensures Ready(pubs, s, p)
  {
  }

  class Database {
    const pubs: seq<Publisher>
    ghost const start: Sys
    ghost var trace: seq<Step>
    var state: Sys

    // The rows are what the recorded steps made of the rows at the start.
    ghost predicate Valid()
      reads this
    {
      WellFormed(pubs, start) && WellFormed(pubs, state) && state == Run(pubs, start, trace)
    }

    constructor (pubs: seq<Publisher>, start: Sys)
      requires WellFormed(pubs, start)
      ensures Valid() && this.pubs == pubs && this.start == start && state == start && trace == []
    {
      this.pubs := pubs;
      this.start := start;
      this.state := start;
      this.trace := [];
    }

    method Do(e: Step)
      requires Valid()
      modifies this
      ensures Valid() && trace == old(trace) + [e] && state == Next(pubs, old(state), e)
    {
      state := Next(pubs, state, e);
      trace := trace + [e];
      RunAppend(pubs, start, old(trace), [e]);
      RunCons(pubs, old(state), e, []);
      RunCons(pubs, state, e, []);
      assert [e] + [] == [e];
    }

    method Others(steps: seq<Step>, p: nat)
      requires Valid() && p < |pubs| && OfOthers(steps, p)
      modifies this
      ensures Valid() && trace == old(trace) + steps && SameAttempt(old(state), state, p)
    {
      var i := 0;
      while i < |steps|
        invariant i <= |steps| && Valid() && trace == old(trace) + steps[..i] && SameAttempt(old(state), state, p)
      {
        StepUntouched(pubs, state, steps[i], p);
        Do(steps[i]);
        assert steps[..i + 1] == steps[..i] + [steps[i]];
        i := i + 1;
      }
      assert steps[..i] == steps;
    }

    // One statement of the attempt, after whatever the others do first; `past` led here from `base`.
    method Statement(gap: seq<Step>, e: Step, ghost base: Sys, ghost past: seq<Step>)
      requires Valid() && e.p < |pubs| && OfOthers(gap, e.p)
      requires WellFormed(pubs, base) && state == Run(pubs, base, past)
      modifies this
      ensures Valid() && trace == old(trace) + gap + [e]
      ensures state == Run(pubs, base, past + gap + [e]) == Next(pubs, Run(pubs, base, past + gap), e)
      ensures SameAttempt(old(state), Run(pubs, base, past + gap), e.p)
    {
      hide Next, Run;
      RunAppend(pubs, start, old(trace), gap);
      Others(gap, e.p);
      RunAppend(pubs, base, past, gap);
      Do(e);
      RunAppend(pubs, base, past + gap, [e]);
      OneStep(pubs, Run(pubs, base, past + gap), e);
      assert old(trace) + (gap + [e]) == old(trace) + gap + [e];
    }

    // Lock, live query and live checks.
    method Admit(p: nat, gaps: seq<seq<Step>>, stagingOk: bool) returns (open: bool)
      requires Valid() && Fresh(pubs, state, p)
      requires |gaps| == 5 && (forall i :: 0 <= i < |gaps| ==> OfOthers(gaps[i], p))
      modifies this
      ensures Valid()
      ensures open ==>
                (SideOf(state, p) == Side(Working, Cleared, false, false)
                 && trace == old(trace) + Before(p, gaps, stagingOk, 2) + [Check(p, stagingOk)]
                 && state == Run(pubs, old(state), Before(p, gaps, stagingOk, 2) + [Check(p, stagingOk)]))
      ensures !open ==> state.client[p].Finished? && SideOf(state, p) == Side(state.client[p], Idle, false, false)
      ensures var b, expected := pubs[p].build, pubs[p].expected;
              var s0 := Run(pubs, old(state), Before(p, gaps, stagingOk, 0));
              var s1 := Run(pubs, old(state), Before(p, gaps, stagingOk, 1));
              var live := LiveOf(s1, b.repo);
              if b.repo in s0.locks then
                !open && !state.client[p].ok && trace == old(trace) + gaps[0] + [Begin(p)]
              else if live.Some? && live.value.id == b.id then
                !open && state.client[p].ok == (live.value.digest == b.digest)
                && trace == old(trace) + Before(p, gaps, stagingOk, 2) + [Check(p, stagingOk)]
              else if (if live.None? then expected.None?
                       else expected == Some(live.value.id) && b.generation > live.value.generation) && stagingOk
              then open
              else !open && !state.client[p].ok && trace == old(trace) + Before(p, gaps, stagingOk, 2) + [Check(p, stagingOk)]
    {
      hide Next, Run, LiveOf;
      ghost var base := state;
      NoSteps(pubs, base);
      Statement(gaps[0], Begin(p), base, []);
      assert [] + gaps[0] == Before(p, gaps, stagingOk, 0);
      BeginSide(pubs, Run(pubs, base, Before(p, gaps, stagingOk, 0)), p);
      if state.client[p].Finished? { return false; }
      Statement(gaps[1], Look(p), base, gaps[0] + [Begin(p)]);
      LookSide(pubs, Run(pubs, base, Before(p, gaps, stagingOk, 1)), p);
      ghost var live := LiveOf(Run(pubs, base, Before(p, gaps, stagingOk, 1)), pubs[p].build.repo);
      Statement(gaps[2], Check(p, stagingOk), base, Before(p, gaps, stagingOk, 1) + [Look(p)]);
      CheckSide(pubs, Run(pubs, base, Before(p, gaps, stagingOk, 2)), p, stagingOk, live);
      return state.client[p] == Working;
    }

    // The statements up to the commit. The attempt is over at the first one that returns; an
    // insert that waits for another publisher of the same id is given up.
    method Prepare(p: nat, gaps: seq<seq<Step>>, stagingOk: bool) returns (open: bool)
      requires Valid() && Fresh(pubs, state, p)
      requires |gaps| == 5 && (forall i :: 0 <= i < |gaps| ==> OfOthers(gaps[i], p))
      modifies this
      ensures Valid()
      ensures open ==>
                (SideOf(state, p).tx.Committing? && SideOf(state, p) == Side(Working, state.tx[p], true, false)
                 && trace == old(trace) + Before(p, gaps, stagingOk, 4) + [SendCommit(p)])
      ensures !open ==> state.client[p].Finished? && SideOf(state, p) == Side(state.client[p], Idle, false, false)
      ensures var b, expected := pubs[p].build, pubs[p].expected;
              var s0 := Run(pubs, old(state), Before(p, gaps, stagingOk, 0));
              var s1 := Run(pubs, old(state), Before(p, gaps, stagingOk, 1));
              var s3 := Run(pubs, old(state), Before(p, gaps, stagingOk, 3));
              var live := LiveOf(s1, b.repo);
              if b.repo in s0.locks then
                !open && !state.client[p].ok && trace == old(trace) + gaps[0] + [Begin(p)]
              else if live.Some? && live.value.id == b.id then
                !open && state.client[p].ok == (live.value.digest == b.digest)
                && trace == old(trace) + Before(p, gaps, stagingOk, 2) + [Check(p, stagingOk)]
              else if !((if live.None? then expected.None?
                         else expected == Some(live.value.id) && b.generation > live.value.generation) && stagingOk)
              then !open && !state.client[p].ok && trace == old(trace) + Before(p, gaps, stagingOk, 2) + [Check(p, stagingOk)]
              else if InsertedElsewhere(pubs, s3, p) then
                !open && !state.client[p].ok && trace == old(trace) + Before(p, gaps, stagingOk, 3) + [PutHeader(p), Drop(p)]
              else if b.id in s3.headers && (s3.headers[b.id].repo != b.repo || s3.headers[b.id].digest != b.digest) then
                !open && !state.client[p].ok && trace == old(trace) + Before(p, gaps, stagingOk, 3) + [PutHeader(p)]
              else open
    {
      hide Next, Run, LiveOf, InsertedElsewhere, Before;
      BeforeFour(p, gaps, stagingOk);
      ghost var base := state;
      open := Admit(p, gaps, stagingOk);
      if !open { return; }
      Statement(gaps[3], PutHeader(p), base, Before(p, gaps, stagingOk, 2) + [Check(p, stagingOk)]);
      ghost var s3 := Run(pubs, base, Before(p, gaps, stagingOk, 3));
      HeaderSide(pubs, s3, p);
      if state.client[p].Finished? { return false; }
      ghost var past := Before(p, gaps, stagingOk, 3) + [PutHeader(p)];
      if state.tx[p] == Cleared {
        Statement([], Drop(p), base, past);
        assert past + [] == past;
        DropSide(pubs, Run(pubs, base, past), p);
        return false;
      }
      Statement(gaps[4], SendCommit(p), base, past);
      SendSide(pubs, Run(pubs, base, past + gaps[4]), p, Run(pubs, base, past + gaps[4]).tx[p].inserted);
    }

    // The commit is sent: the server's decision and the client's view of it.
    method Settle(p: nat, gaps: seq<seq<Step>>, fate: Fate) returns (ok: bool)
      requires Valid() && p < |pubs|
      requires state.client[p] == Working && state.tx[p].Committing? && state.sent[p] && !state.landed[p]
      requires |gaps| == 3 && (forall i :: 0 <= i < |gaps| ==> OfOthers(gaps[i], p))
      modifies this
      ensures Valid() && trace == old(trace) + Aftermath(p, gaps, fate) && state.client[p] == Finished(ok)
      ensures match fate
              case Answered(lands) => ok == lands && state.landed[p] == lands && state.tx[p] == Idle
              case Cut(decided, lands, reached) =>
                && state.landed[p] == (decided && lands) && state.tx[p] == (if decided then Idle else old(state.tx[p]))
                && ok == (var b := pubs[p].build; reached && b.repo in state.pointer && state.pointer[b.repo] == b.id)
    {
      hide Next, Run, Aftermath, Decision;
      AftermathIs(p, gaps, fate, trace);
      ghost var s;
      match fate {
        case Answered(lands) =>
          s := After(gaps[0], Decision(p, lands));
          DecisionSide(pubs, s, p, lands);
          s := After(gaps[1], if lands then Ack(p) else Reject(p));
          AnswerSide(pubs, s, p, lands);
        case Cut(decided, lands, reached) =>
          if decided {
            s := After(gaps[0], Decision(p, lands));
            DecisionSide(pubs, s, p, lands);
          }
          s := After(gaps[1], Lose(p));
          LoseSide(pubs, s, p);
          s := After(gaps[2], Reconcile(p, reached));
          ReconcileSide(pubs, s, p, reached);
      }
      ok := state.client[p].ok;
    }

    // The same as Statement, naming the rows the step was applied to.
    method After(gap: seq<Step>, e: Step) returns (ghost s: Sys)
      requires Valid() && e.p < |pubs| && OfOthers(gap, e.p)
      modifies this
      ensures Valid() && trace == old(trace) + gap + [e]
      ensures WellFormed(pubs, s) && state == Next(pubs, s, e) && SameAttempt(old(state), s, e.p)
    {
      hide Next, Run;
      s := Run(pubs, state, [] + gap);
      NoSteps(pubs, state);
      Statement(gap, e, state, []);
    }

    /** The whole attempt, exactly: it stops at the lock, at the live query, at the local checks,
        at an insert that has to wait, or at an id stored as another version, each only when that
        is what it met, and otherwise goes on to the commit and reports what becomes of it. */
    method PublishTx(p: nat, gaps: seq<seq<Step>>, stagingOk: bool, fate: Fate, ghost genOf: Digest -> nat) returns (ok: bool)
      requires Valid() && Fresh(pubs, state, p)
      requires |gaps| == 8 && (forall i :: 0 <= i < |gaps| ==> OfOthers(gaps[i], p))
      modifies this
      ensures Valid() && old(trace) <= trace
      ensures state.client[p] == Finished(ok)
      ensures Initial(pubs, start, genOf) && Faithful(pubs, genOf) && ok ==> NamedId(state, pubs[p].build)
      ensures var b, expected := pubs[p].build, pubs[p].expected;
              var s0 := Run(pubs, old(state), Before(p, gaps, stagingOk, 0));
              var s1 := Run(pubs, old(state), Before(p, gaps, stagingOk, 1));
              var s3 := Run(pubs, old(state), Before(p, gaps, stagingOk, 3));
              var live := LiveOf(s1, b.repo);
              if b.repo in s0.locks then
                !ok && trace == old(trace) + gaps[0] + [Begin(p)]
              else if live.Some? && live.value.id == b.id then
                ok == (live.value.digest == b.digest) && trace == old(trace) + Before(p, gaps, stagingOk, 2) + [Check(p, stagingOk)]
              else if !((if live.None? then expected.None?
                         else expected == Some(live.value.id) && b.generation > live.value.generation) && stagingOk)
              then !ok && trace == old(trace) + Before(p, gaps, stagingOk, 2) + [Check(p, stagingOk)]
              else if exists q :: 0 <= q < |pubs| && q != p && pubs[q].build.id == b.id && s3.tx[q] in {HeaderIn(true), Committing(true)} then
                !ok && trace == old(trace) + Before(p, gaps, stagingOk, 3) + [PutHeader(p), Drop(p)]
              else if b.id in s3.headers && (s3.headers[b.id].repo != b.repo || s3.headers[b.id].digest != b.digest) then
                !ok && trace == old(trace) + Before(p, gaps, stagingOk, 3) + [PutHeader(p)]
              else
                && trace == old(trace) + Before(p, gaps, stagingOk, 4) + [SendCommit(p)] + Aftermath(p, gaps[5..], fate)
                && (match fate
                    case Answered(lands) => ok == lands && state.landed[p] == lands
                    case Cut(decided, lands, reached) =>
                      && state.landed[p] == (decided && lands)
                      && ok == (reached && b.repo in state.pointer && state.pointer[b.repo] == b.id))
      ensures state.tx[p] == Idle || (state.tx[p].Committing? && fate.Cut? && !fate.decided)
      ensures var b, expected, s := pubs[p].build, pubs[p].expected, old(state);
              (forall i :: 0 <= i < |gaps| ==> gaps[i] == []) && fate == Answered(true)
              && Inv(pubs, s, genOf) && Faithful(pubs, genOf) && b.repo !in s.locks
              && (forall q :: 0 <= q < |pubs| && q != p && pubs[q].build.id == b.id ==> s.tx[q] !in {HeaderIn(true), Committing(true)}) ==>
                var live := LiveOf(s, b.repo);
                var moves :=
                  && stagingOk && b.id !in s.headers
                  && (if live.None? then expected.None?
                      else expected == Some(live.value.id) && b.generation > live.value.generation);
                && ok == (moves || (live.Some? && live.value.id == b.id && live.value.digest == b.digest))
                && state.pointer == (if moves then s.pointer[b.repo := b.id] else s.pointer)
                && state.headers == (if moves then s.headers[b.id := Header(b.repo, b.generation, b.digest)] else s.headers)
    {
      hide Next, Run, Initial, Faithful, NamedId, Aftermath, LiveOf, Inv, Before;
      BeforeShorter(p, gaps, stagingOk);
      ghost var base := state;
      var open := Prepare(p, gaps[..5], stagingOk);
      if open {
        ok := Settle(p, gaps[5..], fate);
      } else {
        ok := state.client[p].ok;
      }
      SuccessNamed(pubs, start, trace, genOf, p);
      Alone(pubs, start, old(trace), base, trace, state, p, gaps, stagingOk, genOf);
    }
  }
}
