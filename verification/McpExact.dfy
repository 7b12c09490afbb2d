// What an exchange tells the client, byte for byte: the answer of the call it ran, the replies
// to the frames that arrive meanwhile, and the order in which they are written.
module McpExact {

  import opened McpFraming
  import opened McpExchange

  // The event that settles what the active call answers.
  ghost predicate Settles(s: State, e: Event) {
    e.CallDone? || (e.Input? && e.decoded == Cancel(Some(s.active.id)))
  }

  // The response an event settles for: the value of the call, unless the request was refused
  // before it ran, or the note that it was cancelled.
  ghost function Settled(s: State, e: Event): Response {
    match e
    case CallDone(payload) => (match s.refusal
                               case None => Result(s.active.id, payload)
                               case Some(code) => Error(s.active.id, code))
    case _ => Error(s.active.id, -32800)
  }

  // No final response among the completed outputs from n on.
  ghost predicate NoFinal(s: State, n: nat) { forall i :: n <= i < |s.done| ==> !s.done[i].final }

  // Exactly one final response from n on: this line, for the active request.
  ghost predicate OneFinal(s: State, n: nat, bytes: seq<Byte>) {
    exists i :: n <= i < |s.done| && s.done[i].final && s.done[i].token == s.active && s.done[i].bytes == bytes
                && forall j :: n <= j < |s.done| && j != i ==> !s.done[j].final
  }

  // The final response is settled: it is this line, wherever it is.
  ghost predicate Told(s: State, n: nat, bytes: seq<Byte>) {
    && !s.call && n <= |s.done|
    && (s.ready.Some? ==> s.ready.value.bytes == bytes)
    && (s.writing.Some? && s.writing.value.final ==> s.writing.value.bytes == bytes)
    && (if s.finished then OneFinal(s, n, bytes) else NoFinal(s, n))
  }

  ghost predicate SameFrame(f: Option<Output>, g: Option<Output>) {
    if f.Some? then g.Some? && f.value.(offset := 0) == g.value.(offset := 0) else g.None?
  }

  // What an arm may change about final responses when it does not settle one.
  ghost predicate Passes(s: State, t: State) {
    && t.active == s.active && t.refusal == s.refusal && t.call == s.call && t.ready == s.ready
    && ((t.done == s.done && t.finished == s.finished && SameFrame(s.writing, t.writing))
        || (s.writing.Some? && t.writing.None? && t.done == s.done + [s.writing.value]
            && t.finished == (s.finished || s.writing.value.final)))
  }

  lemma CancelPasses(enc: Encoder, s: State, target: Option<Id>)
    requires !(s.call && target == Some(s.active.id))
    ensures Passes(s, OnCancel(enc, s, target).s)
  {
    hide NewOutput;
  }

  lemma InputPasses(enc: Encoder, s: State, line: seq<Byte>, d: Decoded)
    requires !(s.call && d == Cancel(Some(s.active.id)))
    ensures Passes(s, OnInput(enc, s, line, d).s)
  {
    hide NewOutput, OnCancel, Duplicate, Passes, Reply;
    PassesSelf(s);
    match d
    case Blank =>
    case Notification =>
    case Cancel(target) => CancelPasses(enc, s, target);
    case Bad(code) => ReplyPasses(enc, s, Owe(s, Null).0, Error(Null, code), Owe(s, Null).1);
    case Request(id, ping) =>
      var (s', token) := Owe(s, id);
      ReplyPasses(enc, s, s', Error(Null, -32600), token);
      ReplyPasses(enc, s, s', Pong(id), token);
      ReplyPasses(enc, s, s', Error(id, -32000), token);
      QueuedPasses(s, s');
  }

  lemma PassesSelf(s: State)
    ensures Passes(s, s)
  {
  }

  lemma QueuedPasses(s: State, s': State)
    requires s'.(owed := s.owed, serial := s.serial) == s
    ensures forall q :: Passes(s, s'.(queued := q))
  {
  }

  lemma ReplyPasses(enc: Encoder, s: State, s': State, r: Response, token: Token)
    requires s'.(owed := s.owed, serial := s.serial) == s
    ensures Passes(s, Reply(enc, s', r, token).s)
  {
    hide NewOutput;
  }

  lemma ArmPasses(enc: Encoder, s: State, e: Event)
    requires Inv(s) && !(s.call && Settles(s, e))
    ensures Passes(s, Arm(enc, s, e).s)
  {
    hide Inv, NewOutput, OnInput;
    match e
    case Input(line, d) => InputPasses(enc, s, line, d);
    case _ =>
  }

  // A line that does not fit gives way to an error.
  ghost function Shown(enc: Encoder, r: Response): seq<Byte> {
    (if |enc(r)| < 8388608 then enc(r) else enc(Error(r.id, -32603))) + [NEWLINE]
  }

  lemma CancelSettles(enc: Encoder, s: State, target: Option<Id>)
    requires s.call && target == Some(s.active.id)
    ensures var o := OnCancel(enc, s, target);
            o.Running? && o.s == s.(call := false, finals := o.s.finals, ready := o.s.ready)
            && o.s.ready == Some(Output(s.active.id, Shown(enc, Error(s.active.id, -32800)), 0, s.now + 10, true, s.active))
  {
  }

  lemma ArmSettles(enc: Encoder, s: State, e: Event)
    requires s.call && Settles(s, e)
    ensures var o := Arm(enc, s, e);
            o.Running? && o.s == s.(call := false, finals := o.s.finals, ready := o.s.ready)
            && o.s.ready == Some(Output(s.active.id, Shown(enc, Settled(s, e)), 0, s.now + 10, true, s.active))
  {
    if e.Input? { CancelSettles(enc, s, Some(s.active.id)); }
  }

  lemma OneFinalAfter(s: State, n: nat, bytes: seq<Byte>, t: State)
    requires n <= |s.done| && s.writing.Some? && t.done == s.done + [s.writing.value] && t.active == s.active
    requires s.writing.value.final ==> NoFinal(s, n) && s.writing.value.bytes == bytes && s.writing.value.token == s.active
    requires !s.writing.value.final ==> OneFinal(s, n, bytes)
    ensures OneFinal(t, n, bytes)
  {
    var k := |s.done|;
    if s.writing.value.final {
      assert t.done[k].final && t.done[k].bytes == bytes;
    } else {
      var i :| n <= i < |s.done| && s.done[i].final && s.done[i].token == s.active && s.done[i].bytes == bytes
               && forall j :: n <= j < |s.done| && j != i ==> !s.done[j].final;
      assert t.done[i] == s.done[i];
    }
  }

  lemma NoFinalAfter(s: State, n: nat, t: State)
    requires NoFinal(s, n) && s.writing.Some? && t.done == s.done + [s.writing.value] && !s.writing.value.final
    ensures NoFinal(t, n)
  {
  }

  lemma SameDone(s: State, n: nat, bytes: seq<Byte>, t: State)
    requires t.done == s.done && t.active == s.active
    ensures (NoFinal(s, n) <==> NoFinal(t, n)) && (OneFinal(s, n, bytes) <==> OneFinal(t, n, bytes))
  {
  }

  lemma PassTold(s: State, n: nat, bytes: seq<Byte>, t: State)
    requires OnePhase(s) && Told(s, n, bytes) && Passes(s, t)
    ensures Told(t, n, bytes)
  {
    hide OneFinal, NoFinal;
    if t.done == s.done {
      SameDone(s, n, bytes, t);
    } else if t.finished {
      OneFinalAfter(s, n, bytes, t);
    } else {
      NoFinalAfter(s, n, t);
    }
  }

  lemma HeadTold(s: State, n: nat, bytes: seq<Byte>)
    requires OnePhase(s) && Told(s, n, bytes)
    ensures Told(Head(s).s, n, bytes)
  {
    hide OneFinal, NoFinal;
    SameDone(s, n, bytes, Head(s).s);
  }

  // Before the call is settled nothing final is completed.
  lemma PassOpen(s: State, n: nat, t: State)
    requires OnePhase(s) && s.call && NoFinal(s, n) && Passes(s, t)
    ensures t.call && NoFinal(t, n)
  {
  }

  lemma {:induction false} ToldStays(enc: Encoder, s: State, events: seq<Event>, n: nat, bytes: seq<Byte>)
    requires LineFree(enc) && Inv(s) && Told(s, n, bytes)
    ensures !Drive(enc, s, events).Failed? ==> Inv(Drive(enc, s, events).s) && Told(Drive(enc, s, events).s, n, bytes)
    decreases |events|
  {
    hide Inv, Arm, Head, Told, Passes;
    if events == [] {
    } else {
      ToldStep(enc, s, events[0], n, bytes);
      StepKeeps(enc, s, events[0]);
      if Step(enc, s, events[0]).Running? { ToldStays(enc, Step(enc, s, events[0]).s, events[1..], n, bytes); }
    }
  }

  lemma ToldStep(enc: Encoder, s: State, e: Event, n: nat, bytes: seq<Byte>)
    requires LineFree(enc) && Inv(s) && Told(s, n, bytes)
    ensures !Step(enc, s, e).Failed? ==> Told(Step(enc, s, e).s, n, bytes)
  {
    hide Inv, Arm, Head, Passes, OneFinal, NoFinal, OnePhase;
    InvPhase(s);
    ArmPasses(enc, s, e);
    PassTold(s, n, bytes, Arm(enc, s, e).s);
    ArmKeeps(enc, s, e);
    if Arm(enc, s, e).Running? {
      InvPhase(Arm(enc, s, e).s);
      HeadTold(Arm(enc, s, e).s, n, bytes);
    }
  }

  lemma SettleStep(enc: Encoder, s: State, e: Event, n: nat)
    requires LineFree(enc) && Inv(s) && s.call && n <= |s.done| && NoFinal(s, n) && Settles(s, e)
    ensures Step(enc, s, e).Running? ==> Told(Step(enc, s, e).s, n, Shown(enc, Settled(s, e)))
    ensures !Step(enc, s, e).Complete?
  {
    hide Inv, Arm, Head, Passes, OneFinal, NoFinal, Shown, Settles;
    InvPhase(s);
    ArmSettles(enc, s, e);
    ArmKeeps(enc, s, e);
    var t := Arm(enc, s, e).s;
    InvPhase(t);
    SameDone(s, n, [], t);
    HeadTold(t, n, Shown(enc, Settled(s, e)));
    HeadUnfinished(t);
  }

  lemma HeadUnfinished(s: State)
    requires !s.finished
    ensures Head(s).Running?
  {
  }

  lemma HeadOpen(s: State, n: nat)
    requires s.call && NoFinal(s, n)
    ensures Head(s).s.call && NoFinal(Head(s).s, n) && Head(s).s.active == s.active && Head(s).s.refusal == s.refusal
  {
  }

  lemma OpenStep(enc: Encoder, s: State, e: Event, n: nat)
    requires LineFree(enc) && Inv(s) && s.call && n <= |s.done| && NoFinal(s, n) && !Settles(s, e)
    ensures var o := Step(enc, s, e);
            !o.Complete? && (o.Running? ==> Inv(o.s) && o.s.call && n <= |o.s.done| && NoFinal(o.s, n)
                                            && o.s.active == s.active && o.s.refusal == s.refusal)
  {
    hide Inv, Arm, Head, NoFinal, Settles;
    InvPhase(s);
    StepKeeps(enc, s, e);
    ArmPasses(enc, s, e);
    PassOpen(s, n, Arm(enc, s, e).s);
    ArmKeeps(enc, s, e);
    if Arm(enc, s, e).Running? {
      InvPhase(Arm(enc, s, e).s);
      HeadOpen(Arm(enc, s, e).s, n);
      HeadUnfinished(Arm(enc, s, e).s);
      HeadShape(Arm(enc, s, e).s);
    }
  }

  lemma SettledSame(s: State, t: State, e: Event)
    requires t.active == s.active && t.refusal == s.refusal
    ensures (Settles(s, e) <==> Settles(t, e)) && Settled(s, e) == Settled(t, e)
  {
  }

  lemma {:induction false} DriveAnswers(enc: Encoder, s: State, events: seq<Event>, n: nat)
    requires LineFree(enc) && Inv(s) && s.call && n <= |s.done| && NoFinal(s, n) && Drive(enc, s, events).Complete?
    ensures exists k :: 0 <= k < |events| && Settles(s, events[k]) && (forall j :: 0 <= j < k ==> !Settles(s, events[j]))
                        && Told(Drive(enc, s, events).s, n, Shown(enc, Settled(s, events[k])))
    decreases |events|
  {
    hide Inv, Step, Told, NoFinal, Settles, Settled, Shown, LineFree;
    var t := Step(enc, s, events[0]).s;
    if Settles(s, events[0]) {
      SettleStep(enc, s, events[0], n);
      StepKeeps(enc, s, events[0]);
      ToldStays(enc, t, events[1..], n, Shown(enc, Settled(s, events[0])));
    } else {
      OpenStep(enc, s, events[0], n);
      DriveAnswers(enc, t, events[1..], n);
      var rest := events[1..];
      forall i | 0 <= i < |rest| ensures (Settles(s, events[i + 1]) <==> Settles(t, rest[i])) && Settled(s, events[i + 1]) == Settled(t, rest[i]) {
        SettledSame(s, t, rest[i]);
      }
      var k :| 0 <= k < |rest| && Settles(t, rest[k]) && (forall j :: 0 <= j < k ==> !Settles(t, rest[j]))
               && Told(Drive(enc, t, rest).s, n, Shown(enc, Settled(t, rest[k])));
      forall j | 0 <= j < k + 1 ensures !Settles(s, events[j]) {
        if j > 0 { assert !Settles(t, rest[j - 1]); }
      }
      assert Settles(s, events[k + 1]);
    }
  }

  /** Whenever an exchange completes, the call was settled, and exactly one final response was
      written since it began: if the call finished before its request was cancelled, the encoding
      of its value or, for a refused request, of the refusal; if the cancellation came first, the
      cancellation; each replaced by an error of its own when it does not fit in 8 MiB. */
  lemma FinalAnswer(enc: Encoder, s: State, events: seq<Event>)
    requires LineFree(enc) && Inv(s) && s.call && Drive(enc, s, events).Complete?
    ensures exists k, i, r ::
              var t, id := Drive(enc, s, events).s, s.active.id;
              && 0 <= k < |events| && |s.done| <= i < |t.done|
              && (forall j :: 0 <= j < k ==> !events[j].CallDone? && !(events[j].Input? && events[j].decoded == Cancel(Some(id))))
              && (if events[k].CallDone? then
                    r == if s.refusal.None? then Result(id, events[k].payload) else Error(id, s.refusal.value)
                  else events[k].Input? && events[k].decoded == Cancel(Some(id)) && r == Error(id, -32800))
              && t.done[i].final && t.done[i].token == s.active
              && t.done[i].bytes == (if |enc(r)| <= 8 * 1024 * 1024 - 1 then enc(r) else enc(Error(id, -32603))) + [NEWLINE]
              && (forall j :: |s.done| <= j < |t.done| && j != i ==> !t.done[j].final)
  {
    hide Inv, Drive, LineFree;
    var n, t := |s.done|, Drive(enc, s, events).s;
    DriveAnswers(enc, s, events, n);
    CompleteFinished(enc, s, events);
    var k :| 0 <= k < |events| && Settles(s, events[k]) && (forall j :: 0 <= j < k ==> !Settles(s, events[j]))
             && Told(t, n, Shown(enc, Settled(s, events[k])));
    var r, bytes := Settled(s, events[k]), Shown(enc, Settled(s, events[k]));
    DriveActive(enc, s, events);
    var i :| n <= i < |t.done| && t.done[i].final && t.done[i].token == t.active && t.done[i].bytes == bytes
             && forall j :: n <= j < |t.done| && j != i ==> !t.done[j].final;
    assert forall j :: 0 <= j < k ==> !Settles(s, events[j]);
  }

  lemma {:induction false} DriveActive(enc: Encoder, s: State, events: seq<Event>)
    requires LineFree(enc) && Inv(s)
    ensures Drive(enc, s, events).s.active == s.active
    decreases |events|
  {
    hide Inv, Arm, Head, LineFree;
    if events == [] {
    } else {
      ArmShape(enc, s, events[0]);
      HeadShape(Arm(enc, s, events[0]).s);
      StepKeeps(enc, s, events[0]);
      if Step(enc, s, events[0]).Running? { DriveActive(enc, Step(enc, s, events[0]).s, events[1..]); }
    }
  }

  lemma {:induction false} CompleteFinished(enc: Encoder, s: State, events: seq<Event>)
    requires Drive(enc, s, events).Complete?
    ensures Drive(enc, s, events).s.finished
    decreases |events|
  {
    hide Arm;
    if events == [] {
    } else if Step(enc, s, events[0]).Running? {
      CompleteFinished(enc, Step(enc, s, events[0]).s, events[1..]);
    } else {
      OnlyHeadCompletes(enc, s, events[0]);
    }
  }

  lemma OnlyHeadCompletes(enc: Encoder, s: State, e: Event)
    ensures !Arm(enc, s, e).Complete?
  {
    hide NewOutput, Duplicate;
  }

  // ----- an exchange left alone -----

  lemma WriteStep(enc: Encoder, s: State, o: Output, count: nat)
    requires s.writing == Some(o) && s.ready.None? && s.controls == [] && o.final && o.offset <= |o.bytes| && s.now < o.deadline && count > 0
    ensures var n := if o.offset + count <= |o.bytes| then o.offset + count else |o.bytes|;
            Step(enc, s, Wrote(count)) ==
              if o.offset == |o.bytes| then Complete(s.(writing := None, done := s.done + [o], finished := true))
              else Running(s.(writing := Some(o.(offset := n)), wire := s.wire + o.bytes[o.offset..n]))
  {
  }

  lemma {:induction false} WriteOut(enc: Encoder, s: State, o: Output, events: seq<Event>)
    requires s.writing == Some(o) && s.ready.None? && s.controls == [] && o.final && o.offset <= |o.bytes| && s.now < o.deadline
    requires |events| > |o.bytes| - o.offset && forall i :: 0 <= i < |events| ==> events[i].Wrote? && events[i].count > 0
    ensures Drive(enc, s, events) ==
              Complete(s.(writing := None, done := s.done + [o.(offset := |o.bytes|)], finished := true, wire := s.wire + o.bytes[o.offset..]))
    decreases |events|
  {
    hide Step;
    var count := events[0].count;
    WriteStep(enc, s, o, count);
    if o.offset == |o.bytes| {
      assert o.(offset := |o.bytes|) == o && s.wire + o.bytes[o.offset..] == s.wire;
    } else {
      var n := if o.offset + count <= |o.bytes| then o.offset + count else |o.bytes|;
      var t := s.(writing := Some(o.(offset := n)), wire := s.wire + o.bytes[o.offset..n]);
      assert Step(enc, s, events[0]) == Running(t);
      WriteOut(enc, t, o.(offset := n), events[1..]);
      assert o.bytes[o.offset..] == o.bytes[o.offset..n] + o.bytes[n..];
      assert s.wire + o.bytes[o.offset..n] + o.bytes[n..] == s.wire + o.bytes[o.offset..];
    }
  }

  /** With nobody else on the connection a call that completes is answered: once enough writes
      have gone through, whatever their sizes, the exchange is complete and the client has read
      that answer and nothing else. */
  lemma UndisturbedExchange(enc: Encoder, s: State, token: Token, payload: seq<Byte>, writes: seq<Event>, bytes: seq<Byte>)
    requires s.ready.None? && s.writing.None? && s.controls == []
    requires bytes == (if |enc(Result(token.id, payload))| <= 8 * 1024 * 1024 - 1 then enc(Result(token.id, payload))
                       else enc(Error(token.id, -32603))) + [NEWLINE]
    requires |writes| > |bytes| && forall i :: 0 <= i < |writes| ==> writes[i].Wrote? && writes[i].count > 0
    ensures var o := Drive(enc, Begin(s, token, s.queued, None), [CallDone(payload)] + writes);
            && o.Complete? && o.s.wire == s.wire + bytes && o.s.queued == s.queued && o.s.finished
            && o.s.done == s.done + [Output(token.id, bytes, |bytes|, s.now + 10, true, token)]
  {
    hide Arm;
    var start, e := Begin(s, token, s.queued, None), CallDone(payload);
    ArmSettles(enc, start, e);
    var o := Output(token.id, bytes, 0, s.now + 10, true, token);
    var t := Step(enc, start, e).s;
    assert Step(enc, start, e).Running? && t.writing == Some(o) && t.ready.None?;
    assert ([e] + writes)[1..] == writes;
    WriteOut(enc, t, o, writes);
  }

  // ----- frames that arrive meanwhile -----

  // The control queue takes one more reply, unless eight are waiting already.
  ghost predicate Replies(enc: Encoder, s: State, o: Outcome, r: Response, token: Token) {
    if |s.controls| == 8 then o == Failed(s, Backpressure)
    else o == Running(s.(controls := s.controls + [Output(r.id, Shown(enc, r), 0, s.now + 10, false, token)]))
  }

  /** A request under an id still in use is refused, a ping answered at once, and any other waits
      in the queue for ten seconds if it has fewer than eight requests and stays within 256 KiB,
      and is refused otherwise. */
  lemma RequestExact(enc: Encoder, s: State, line: seq<Byte>, id: Id, ping: bool)
    ensures var o, token := OnInput(enc, s, line, Request(id, ping)), Token(s.serial, id);
            var t := s.(owed := s.owed + multiset{token}, serial := s.serial + 1);
            if || (!s.finished && id == s.active.id) || (s.writing.Some? && s.writing.value.id == id)
               || (exists i :: 0 <= i < |s.queued| && s.queued[i].id == id)
               || (exists i :: 0 <= i < |s.controls| && s.controls[i].id == id)
            then Replies(enc, t, o, Error(Null, -32600), token)
            else if ping then Replies(enc, t, o, Pong(id), token)
            else if |s.queued| < 8 && QueuedBytes(s.queued) + |line| <= 256 * 1024
            then o == Running(t.(queued := s.queued + [Queued(line, id, s.now + 10, s.serial)]))
            else Replies(enc, t, o, Error(id, -32000), token)
  {
    hide QueuedBytes;
    DuplicateIs(s, id);
  }

  lemma DuplicateIs(s: State, id: Id)
    ensures Duplicate(s, id) <==>
              (|| (!s.finished && id == s.active.id) || (s.writing.Some? && s.writing.value.id == id)
               || (exists i :: 0 <= i < |s.queued| && s.queued[i].id == id)
               || (exists i :: 0 <= i < |s.controls| && s.controls[i].id == id))
  {
  }

  /** Cancelling settles the active call, or takes the first queued request with that id out of
      the queue and answers it, and does nothing otherwise. */
  lemma CancelExact(enc: Encoder, s: State, target: Id)
    ensures var o := OnCancel(enc, s, Some(target));
            if s.call && target == s.active.id then
              o == Running(s.(call := false, finals := s.finals + 1,
                              ready := Some(Output(target, Shown(enc, Error(target, -32800)), 0, s.now + 10, true, s.active))))
            else if exists k :: 0 <= k < |s.queued| && s.queued[k].id == target then
              exists k :: 0 <= k < |s.queued| && s.queued[k].id == target && (forall i :: 0 <= i < k ==> s.queued[i].id != target)
                && Replies(enc, s.(queued := s.queued[..k] + s.queued[k + 1..]), o, Error(target, -32800), Token(s.queued[k].serial, target))
            else o == Running(s)
    ensures OnCancel(enc, s, None) == Running(s)
  {
    var k := Position(s.queued, target);
    if !(s.call && target == s.active.id) && k < |s.queued| {
      assert s.queued[k].id == target;
      assert Replies(enc, s.(queued := s.queued[..k] + s.queued[k + 1..]), OnCancel(enc, s, Some(target)),
                     Error(target, -32800), Token(s.queued[k].serial, target));
    }
  }

  /** A frame that does not decode is answered with its error and no id; blank lines and other
      notifications change nothing. */
  lemma OddFramesExact(enc: Encoder, s: State, line: seq<Byte>, code: int)
    ensures Replies(enc, s.(owed := s.owed + multiset{Token(s.serial, Null)}, serial := s.serial + 1),
                    OnInput(enc, s, line, Bad(code)), Error(Null, code), Token(s.serial, Null))
    ensures OnInput(enc, s, line, Blank) == OnInput(enc, s, line, Notification) == Running(s)
    ensures forall target :: OnInput(enc, s, line, Cancel(target)) == OnCancel(enc, s, target)
  {
    hide OnCancel;
  }

  /** A request at the front of the queue whose time is up is refused while others run; nothing
      else is touched, and a full control queue ends the connection first. */
  lemma ExpiryExact(enc: Encoder, s: State)
    ensures var o := Arm(enc, s, AdmissionExpires);
            if s.queued != [] && s.now >= s.queued[0].deadline then
              if |s.controls| == 8 then o == Failed(s, Backpressure)
              else Replies(enc, s.(queued := s.queued[1..]), o, Error(s.queued[0].id, -32000), Token(s.queued[0].serial, s.queued[0].id))
            else o == Running(s)
  {
  }

  /** A write that is late or writes nothing ends the connection; one that writes moves exactly
      that many bytes, and the one after the last byte completes the line. */
  lemma WriteExact(enc: Encoder, s: State, f: Output, count: nat)
    requires s.writing == Some(f) && f.offset <= |f.bytes|
    ensures var o := Arm(enc, s, Wrote(count));
            if s.now >= f.deadline then o == Failed(s, OutputTimeout)
            else if f.offset == |f.bytes| then o == Running(s.(writing := None, done := s.done + [f], finished := s.finished || f.final))
            else if count == 0 then o == Failed(s, OutputError)
            else
              var end := if count <= |f.bytes| - f.offset then f.offset + count else |f.bytes|;
              o == Running(s.(writing := Some(f.(offset := end)), wire := s.wire + f.bytes[f.offset..end]))
    ensures Arm(enc, s, WriteFails) == Failed(s, OutputError)
    ensures s.ready.Some? && s.now >= s.ready.value.deadline ==> Arm(enc, s, ReadyExpires) == Failed(s, OutputTimeout)
    ensures Arm(enc, s, InputCloses) == InputEnd(s) && Arm(enc, s, InputFails) == Failed(s, InputError)
  {
  }

  /** A line half written is finished first; then replies go out before the answer of the call,
      in the order they were made, and the exchange is over once that answer is out and no reply
      is left. */
  lemma HeadExact(s: State)
    ensures var t := if s.writing.Some? then s
                     else if |s.controls| > 0 then s.(writing := Some(s.controls[0]), controls := s.controls[1..])
                     else s.(writing := s.ready, ready := None);
            Head(s) == if s.finished && s.writing.None? && s.controls == [] && s.ready.None? then Complete(t) else Running(t)
  {
  }

  /** Between exchanges the front of the queue runs at once, refused if its ten seconds are over;
      with an empty queue the next request that arrives runs, or the error of a bad frame is told. */
  lemma NextExact(s: State, e: Event)
    ensures s.queued != [] ==>
              NextRequest(s, e) ==
                Running(s.(active := Token(s.queued[0].serial, s.queued[0].id),
                           refusal := if s.now >= s.queued[0].deadline then Some(-32000) else None,
                           call := true, finished := false, finals := 0, queued := s.queued[1..]))
    ensures s.queued == [] && e.Input? && (e.decoded.Request? || e.decoded.Bad?) ==>
              var token := Token(s.serial, if e.decoded.Request? then e.decoded.id else Null);
              NextRequest(s, e) ==
                Running(s.(active := token, refusal := if e.decoded.Request? then None else Some(e.decoded.code),
                           call := true, finished := false, finals := 0, queued := [],
                           owed := s.owed + multiset{token}, serial := s.serial + 1))
    ensures s.queued == [] && e.Input? && !(e.decoded.Request? || e.decoded.Bad?) ==> NextRequest(s, e) == Running(s)
    ensures s.queued == [] && e.InputCloses? ==> NextRequest(s, e) == InputEnd(s)
  {
  }
}
