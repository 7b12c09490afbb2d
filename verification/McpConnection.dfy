// A whole connection from the bytes that arrive to the bytes that leave: what the completed
// responses say, and that exactly the frames of the input are answered.
module McpConnection {

  import opened McpFraming
  import opened McpExchange

  // ----- what responses say -----

  // The line is the encoding of some response under the id of the output.
  ghost predicate Says(enc: Encoder, o: Output) { exists r: Response :: r.id == o.id && o.bytes == enc(r) + [NEWLINE] }

  ghost predicate AllSay(enc: Encoder, s: State) {
    && (s.writing.Some? ==> Says(enc, s.writing.value))
    && (s.ready.Some? ==> Says(enc, s.ready.value))
    && (forall i :: 0 <= i < |s.controls| ==> Says(enc, s.controls[i]))
    && (forall i :: 0 <= i < |s.done| ==> Says(enc, s.done[i]))
  }

  lemma NewOutputSays(enc: Encoder, r: Response, final: bool, now: nat, token: Token)
    ensures Says(enc, NewOutput(enc, r, final, now, token))
  {
    var said := if |enc(r)| <= RESPONSE_BYTES - 1 then r else Error(r.id, -32603);
    assert said.id == r.id && NewOutput(enc, r, final, now, token).bytes == enc(said) + [NEWLINE];
  }

  lemma ReplySays(enc: Encoder, s: State, r: Response, token: Token)
    requires AllSay(enc, s)
    ensures AllSay(enc, Reply(enc, s, r, token).s)
  {
    hide Says, NewOutput;
    NewOutputSays(enc, r, false, s.now, token);
  }

  lemma CancelSays(enc: Encoder, s: State, target: Option<Id>)
    requires AllSay(enc, s)
    ensures AllSay(enc, OnCancel(enc, s, target).s)
  {
    hide Says, NewOutput, Reply;
    NewOutputSays(enc, Error(s.active.id, -32800), true, s.now, s.active);
    if target.Some? && !(s.call && target.value == s.active.id) {
      var k := Position(s.queued, target.value);
      if k < |s.queued| {
        var q := s.queued[k];
        ReplySays(enc, s.(queued := s.queued[..k] + s.queued[k + 1..]), Error(q.id, -32800), Token(q.serial, q.id));
      }
    }
  }

  lemma InputSays(enc: Encoder, s: State, line: seq<Byte>, d: Decoded)
    requires AllSay(enc, s)
    ensures AllSay(enc, OnInput(enc, s, line, d).s)
  {
    hide Says, NewOutput, Reply, OnCancel, Duplicate;
    match d
    case Blank =>
    case Notification =>
    case Cancel(target) => CancelSays(enc, s, target);
    case Bad(code) => ReplySays(enc, Owe(s, Null).0, Error(Null, code), Owe(s, Null).1);
    case Request(id, ping) =>
      var (s', token) := Owe(s, id);
      ReplySays(enc, s', Error(Null, -32600), token);
      ReplySays(enc, s', Pong(id), token);
      ReplySays(enc, s', Error(id, -32000), token);
  }

  lemma WriteSays(enc: Encoder, s: State, count: nat)
    requires AllSay(enc, s) && s.writing.Some?
    ensures AllSay(enc, OnWrite(s, count).s)
  {
  }

  lemma HeadSays(enc: Encoder, s: State)
    requires AllSay(enc, s)
    ensures AllSay(enc, Head(s).s)
  {
    hide Says;
  }

  lemma StepSays(enc: Encoder, s: State, e: Event)
    requires AllSay(enc, s)
    ensures AllSay(enc, Step(enc, s, e).s)
  {
    hide AllSay, Arm, Head;
    ArmSays(enc, s, e);
    HeadSays(enc, Arm(enc, s, e).s);
  }

  lemma ArmSays(enc: Encoder, s: State, e: Event)
    requires AllSay(enc, s)
    ensures AllSay(enc, Arm(enc, s, e).s)
  {
    hide Says, NewOutput, Reply, OnInput, OnWrite;
    match e
    case CallDone(payload) => NewOutputSays(enc, Answer(s, payload), true, s.now, s.active);
    case Wrote(count) => if s.writing.Some? { WriteSays(enc, s, count); }
    case AdmissionExpires =>
      if s.queued != [] {
        ReplySays(enc, s.(queued := s.queued[1..]), Error(s.queued[0].id, -32000), Token(s.queued[0].serial, s.queued[0].id));
      }
    case Input(line, d) => InputSays(enc, s, line, d);
    case _ =>
  }

  // ----- refused requests -----

  // The final answer of a refused request is its refusal, unless it was cancelled first.
  ghost predicate Refusal(enc: Encoder, s: State, o: Output) {
    s.refusal.Some? ==>
      (o.bytes == Line(enc, Error(s.active.id, s.refusal.value)) || o.bytes == Line(enc, Error(s.active.id, -32800)))
  }

  ghost predicate FinalsTold(enc: Encoder, s: State) {
    && (s.ready.Some? ==> Refusal(enc, s, s.ready.value))
    && (s.writing.Some? && s.writing.value.final ==> Refusal(enc, s, s.writing.value))
    && (s.finished && s.refusal.Some? ==>
          exists i :: 0 <= i < |s.done| && s.done[i].final && s.done[i].token == s.active && Refusal(enc, s, s.done[i]))
  }

  // What an arm of the loop leaves as it was.
  ghost predicate SameFinals(s: State, t: State) {
    t.active == s.active && t.refusal == s.refusal && t.ready == s.ready && t.writing == s.writing && t.finished == s.finished && t.done == s.done
  }

  lemma ReplySameFinals(enc: Encoder, s: State, r: Response, token: Token)
    ensures SameFinals(s, Reply(enc, s, r, token).s)
  {
    hide NewOutput;
  }

  lemma SameFinalsTold(enc: Encoder, s: State, t: State)
    requires FinalsTold(enc, s) && SameFinals(s, t)
    ensures FinalsTold(enc, t)
  {
    hide Line;
  }

  lemma CancelFinals(enc: Encoder, s: State, target: Option<Id>)
    requires FinalsTold(enc, s)
    ensures FinalsTold(enc, OnCancel(enc, s, target).s)
  {
    hide NewOutput, Line, Reply;
    NewOutputIs(enc, Error(s.active.id, -32800), s);
    if target.Some? {
      var k := Position(s.queued, target.value);
      if k < |s.queued| {
        var q := s.queued[k];
        ReplySameFinals(enc, s.(queued := s.queued[..k] + s.queued[k + 1..]), Error(q.id, -32800), Token(q.serial, q.id));
      }
    }
  }

  lemma InputFinals(enc: Encoder, s: State, line: seq<Byte>, d: Decoded)
    requires FinalsTold(enc, s)
    ensures FinalsTold(enc, OnInput(enc, s, line, d).s)
  {
    hide NewOutput, Duplicate, Line, Reply, OnCancel, FinalsTold;
    match d
    case Blank =>
    case Notification =>
    case Cancel(target) => CancelFinals(enc, s, target);
    case Bad(code) =>
      ReplySameFinals(enc, Owe(s, Null).0, Error(Null, code), Owe(s, Null).1);
      SameFinalsTold(enc, s, OnInput(enc, s, line, d).s);
    case Request(id, ping) =>
      var (s', token) := Owe(s, id);
      ReplySameFinals(enc, s', Error(Null, -32600), token);
      ReplySameFinals(enc, s', Pong(id), token);
      ReplySameFinals(enc, s', Error(id, -32000), token);
      SameFinalsTold(enc, s, OnInput(enc, s, line, d).s);
  }

  lemma NewOutputIs(enc: Encoder, r: Response, s: State)
    ensures NewOutput(enc, r, true, s.now, s.active).bytes == Line(enc, r)
  {
  }

  lemma WriteFinals(enc: Encoder, s: State, count: nat)
    requires FinalsTold(enc, s) && s.writing.Some? && OnePhase(s)
    ensures FinalsTold(enc, OnWrite(s, count).s)
  {
    hide Line;
    var f, t := s.writing.value, OnWrite(s, count).s;
    if t.done != s.done {
      assert t.done[|s.done|] == f;
      forall i | 0 <= i < |s.done| ensures t.done[i] == s.done[i] {}
    }
  }

  lemma HeadFinals(enc: Encoder, s: State)
    requires FinalsTold(enc, s) && OnePhase(s)
    ensures FinalsTold(enc, Head(s).s)
  {
    hide Line;
  }

  lemma ArmFinals(enc: Encoder, s: State, e: Event)
    requires FinalsTold(enc, s) && OnePhase(s)
    ensures FinalsTold(enc, Arm(enc, s, e).s)
  {
    hide NewOutput, OnInput, OnWrite, Line, Reply;
    match e
    case CallDone(payload) => NewOutputIs(enc, Answer(s, payload), s);
    case Wrote(count) => if s.writing.Some? { WriteFinals(enc, s, count); }
    case AdmissionExpires =>
      if s.queued != [] {
        ReplySameFinals(enc, s.(queued := s.queued[1..]), Error(s.queued[0].id, -32000), Token(s.queued[0].serial, s.queued[0].id));
      }
    case Input(line, d) => InputFinals(enc, s, line, d);
    case _ =>
  }

  // ----- one step of the connection -----

  ghost predicate Honest(enc: Encoder, s: State) { Inv(s) && AllSay(enc, s) && FinalsTold(enc, s) }

  lemma ServeHonest(enc: Encoder, s: State, e: Event)
    requires LineFree(enc) && Honest(enc, s)
    ensures !Serve(enc, s, e).Failed? ==> Honest(enc, Serve(enc, s, e).s)
  {
    hide Inv, Arm, Head, NextRequest, FinalsTold, AllSay, Idle;
    InvPhase(s);
    if Idle(s) {
      NextRequestKeeps(s, e);
      NextRequestSays(enc, s, e);
    } else {
      StepKeeps(enc, s, e);
      StepSays(enc, s, e);
      ArmKeeps(enc, s, e);
      ArmFinals(enc, s, e);
      var o := Arm(enc, s, e);
      if o.Running? {
        InvPhase(o.s);
        HeadFinals(enc, o.s);
      }
    }
  }

  lemma NextRequestSays(enc: Encoder, s: State, e: Event)
    requires AllSay(enc, s) && FinalsTold(enc, s) && Idle(s)
    ensures AllSay(enc, NextRequest(s, e).s) && FinalsTold(enc, NextRequest(s, e).s)
  {
    hide Says, Line;
  }

  lemma ConnectedHonest(enc: Encoder)
    ensures Honest(enc, CONNECTED)
  {
    ConnectedOk();
  }

  // ----- frames and responses -----

  // How a frame decodes is a parameter; blank lines and notifications are owed nothing.
  type Decoder = seq<Byte> -> Decoded

  // The tokens of the frames owed a response, numbered as they arrive.
  ghost function OwedTokens(dec: Decoder, frames: seq<seq<Byte>>): seq<Token> {
    if frames == [] then []
    else
      var before := OwedTokens(dec, frames[..|frames| - 1]);
      match dec(frames[|frames| - 1])
      case Bad(_) => before + [Token(|before|, Null)]
      case Request(id, _) => before + [Token(|before|, id)]
      case _ => before
  }

  // What can happen to a connection: bytes arrive, the input closes, its reader is polled, or
  // anything else the loop waits for.
  datatype Traffic = Bytes(chunk: seq<Byte>) | Closes | Polls | Other(e: Event)

  datatype Talk = Talk(intake: Intake, conn: Outcome)

  predicate FromInput(e: Event) { e.Input? || e.InputCloses? || e.InputFails? }

  // The loop gets its frames from the reader alone, and takes a queued request without reading.
  ghost function Next(enc: Encoder, dec: Decoder, t: Talk, x: Traffic): Talk {
    if !t.conn.Running? then t else
    match x
    case Bytes(chunk) => t.(intake := Feed(t.intake, Arrive(chunk)))
    case Closes => t.(intake := Feed(t.intake, Close))
    case Other(e) => if FromInput(e) then t else t.(conn := Serve(enc, t.conn.s, e))
    case Polls =>
      if Idle(t.conn.s) && t.conn.s.queued != [] then t.(conn := Serve(enc, t.conn.s, Tick(0)))
      else
        var intake := Feed(t.intake, Read);
        match intake.last
        case Frame(line) => Talk(intake, Serve(enc, t.conn.s, Input(line, dec(line))))
        case Pending => t.(intake := intake)
        case End => Talk(intake, Serve(enc, t.conn.s, InputCloses))
        case TooLong => Talk(intake, Serve(enc, t.conn.s, InputFails))
        case Incomplete => Talk(intake, Serve(enc, t.conn.s, InputFails))
  }

  ghost function TalkAll(enc: Encoder, dec: Decoder, traffic: seq<Traffic>): Talk {
    if traffic == [] then Talk(START, Running(CONNECTED))
    else Next(enc, dec, TalkAll(enc, dec, traffic[..|traffic| - 1]), traffic[|traffic| - 1])
  }

  // What the reader saw of the traffic.
  ghost predicate SawSchedule(intake: Intake) { exists events :: intake == FeedAll(events) }

  lemma FedOnce(intake: Intake, e: InputEvent)
    requires SawSchedule(intake)
    ensures SawSchedule(Feed(intake, e))
  {
    hide Feed;
    var events :| intake == FeedAll(events);
    assert (events + [e])[..|events|] == events;
    assert Feed(intake, e) == FeedAll(events + [e]);
  }

  // Exactly these frames have been accepted as owed a response or not.
  ghost predicate OwesFor(dec: Decoder, s: State, frames: seq<seq<Byte>>) {
    s.owed == multiset(OwedTokens(dec, frames)) && s.serial == |OwedTokens(dec, frames)|
  }

  ghost predicate SameOwed(s: State, t: State) { t.owed == s.owed && t.serial == s.serial }

  lemma ReplyOwes(enc: Encoder, s: State, r: Response, token: Token)
    ensures SameOwed(s, Reply(enc, s, r, token).s)
  {
    hide NewOutput;
  }

  // One more token for a frame owed a response.
  ghost function Taking(d: Decoded, s: State): State {
    match d
    case Bad(_) => Owe(s, Null).0
    case Request(id, _) => Owe(s, id).0
    case _ => s
  }

  lemma CancelOwes(enc: Encoder, s: State, target: Option<Id>)
    ensures SameOwed(s, OnCancel(enc, s, target).s)
  {
    hide NewOutput;
  }

  lemma InputOwes(enc: Encoder, s: State, line: seq<Byte>, d: Decoded)
    ensures SameOwed(Taking(d, s), OnInput(enc, s, line, d).s)
  {
    hide NewOutput, Reply, OnCancel, Duplicate;
    match d
    case Blank =>
    case Notification =>
    case Cancel(target) => CancelOwes(enc, s, target);
    case Bad(code) => ReplyOwes(enc, Owe(s, Null).0, Error(Null, code), Owe(s, Null).1);
    case Request(id, ping) =>
      var (s', token) := Owe(s, id);
      ReplyOwes(enc, s', Error(Null, -32600), token);
      ReplyOwes(enc, s', Pong(id), token);
      ReplyOwes(enc, s', Error(id, -32000), token);
  }

  lemma WriteOwes(s: State, count: nat)
    requires s.writing.Some?
    ensures SameOwed(s, OnWrite(s, count).s)
  {
  }

  lemma ArmOwes(enc: Encoder, s: State, e: Event)
    requires !e.Input?
    ensures SameOwed(s, Arm(enc, s, e).s)
  {
    hide NewOutput, OnInput, OnWrite, Reply;
    match e
    case Wrote(count) => if s.writing.Some? { WriteOwes(s, count); }
    case AdmissionExpires =>
      if s.queued != [] {
        ReplyOwes(enc, s.(queued := s.queued[1..]), Error(s.queued[0].id, -32000), Token(s.queued[0].serial, s.queued[0].id));
      }
    case _ =>
  }

  lemma OtherOwes(enc: Encoder, s: State, e: Event)
    requires !e.Input?
    ensures SameOwed(s, Serve(enc, s, e).s)
  {
    hide Arm, Idle;
    ArmOwes(enc, s, e);
  }

  lemma FrameOwes(enc: Encoder, s: State, line: seq<Byte>, d: Decoded)
    requires !(Idle(s) && s.queued != [])
    ensures SameOwed(Taking(d, s), Serve(enc, s, Input(line, d)).s)
  {
    hide NewOutput, OnInput, Idle;
    InputOwes(enc, s, line, d);
  }

  lemma TakenOneMore(dec: Decoder, s: State, t: State, frames: seq<seq<Byte>>, line: seq<Byte>)
    requires OwesFor(dec, s, frames) && SameOwed(Taking(dec(line), s), t)
    ensures OwesFor(dec, t, frames + [line])
  {
    var all := frames + [line];
    assert all[..|all| - 1] == frames && all[|all| - 1] == line;
  }

  ghost predicate TalkOk(enc: Encoder, dec: Decoder, t: Talk) {
    && SawSchedule(t.intake)
    && (!t.conn.Failed? ==> Honest(enc, t.conn.s) && OwesFor(dec, t.conn.s, t.intake.frames))
  }

  lemma TalkStep(enc: Encoder, dec: Decoder, t: Talk, x: Traffic)
    requires LineFree(enc) && TalkOk(enc, dec, t)
    ensures TalkOk(enc, dec, Next(enc, dec, t, x))
  {
    hide SawSchedule, Honest, OwesFor, Idle, Serve, LineFree;
    if t.conn.Running? {
      var s := t.conn.s;
      match x
      case Bytes(chunk) => FedOnce(t.intake, Arrive(chunk));
      case Closes => FedOnce(t.intake, Close);
      case Other(e) =>
        if !FromInput(e) { ServeHonest(enc, s, e); OtherOwes(enc, s, e); StillOwes(dec, s, Serve(enc, s, e).s, t.intake.frames); }
      case Polls => PollStep(enc, dec, t);
    }
  }

  lemma StillOwes(dec: Decoder, s: State, t: State, frames: seq<seq<Byte>>)
    requires OwesFor(dec, s, frames) && SameOwed(s, t)
    ensures OwesFor(dec, t, frames)
  {
  }

  lemma ReadFrames(intake: Intake)
    ensures var next := Feed(intake, Read);
            next.frames == if next.last.Frame? && !Over(intake.last) then intake.frames + [next.last.line] else intake.frames
    ensures Over(intake.last) ==> Feed(intake, Read) == intake
  {
    hide PollOnce;
  }

  lemma PollStep(enc: Encoder, dec: Decoder, t: Talk)
    requires LineFree(enc) && TalkOk(enc, dec, t) && t.conn.Running?
    ensures TalkOk(enc, dec, Next(enc, dec, t, Polls))
  {
    hide SawSchedule, Honest, OwesFor, Idle, Serve, LineFree, Feed;
    var s := t.conn.s;
    if Idle(s) && s.queued != [] {
      ServeHonest(enc, s, Tick(0));
      OtherOwes(enc, s, Tick(0));
      StillOwes(dec, s, Serve(enc, s, Tick(0)).s, t.intake.frames);
    } else {
      FedOnce(t.intake, Read);
      ReadFrames(t.intake);
      match Feed(t.intake, Read).last
      case Frame(line) =>
        ServeHonest(enc, s, Input(line, dec(line)));
        FrameOwes(enc, s, line, dec(line));
        TakenOneMore(dec, s, Serve(enc, s, Input(line, dec(line))).s, t.intake.frames, line);
      case Pending =>
      case End =>
        ServeHonest(enc, s, InputCloses);
        OtherOwes(enc, s, InputCloses);
        StillOwes(dec, s, Serve(enc, s, InputCloses).s, t.intake.frames);
      case TooLong =>
        ServeHonest(enc, s, InputFails);
        OtherOwes(enc, s, InputFails);
        StillOwes(dec, s, Serve(enc, s, InputFails).s, t.intake.frames);
      case Incomplete =>
        ServeHonest(enc, s, InputFails);
        OtherOwes(enc, s, InputFails);
        StillOwes(dec, s, Serve(enc, s, InputFails).s, t.intake.frames);
    }
  }

  lemma {:induction false} TalkKeeps(enc: Encoder, dec: Decoder, traffic: seq<Traffic>)
    requires LineFree(enc)
    ensures TalkOk(enc, dec, TalkAll(enc, dec, traffic))
  {
    hide Next, TalkOk, LineFree;
    if traffic == [] {
      TalkStarts(enc, dec);
    } else {
      TalkKeeps(enc, dec, traffic[..|traffic| - 1]);
      TalkStep(enc, dec, TalkAll(enc, dec, traffic[..|traffic| - 1]), traffic[|traffic| - 1]);
    }
  }

  lemma TalkStarts(enc: Encoder, dec: Decoder)
    requires LineFree(enc)
    ensures TalkOk(enc, dec, Talk(START, Running(CONNECTED)))
  {
    ConnectedHonest(enc);
    assert START == FeedAll([]);
  }

  /** From bytes to responses: whatever the chunking of the input and the order of everything
      else, the frames taken are the leading frames of what arrived; the responses completed and
      outstanding are exactly those owed to these frames, one each, numbered as they arrived;
      and every completed response is the encoding of one that carries the id of its frame, or
      no id. */
  lemma EveryFrameAnswered(enc: Encoder, dec: Decoder, traffic: seq<Traffic>)
    requires LineFree(enc)
    ensures var t := TalkAll(enc, dec, traffic);
            && t.intake.frames <= Parse(t.intake.arrived, t.intake.reader.closed).frames
            && (!t.conn.Failed? ==>
                  var s := t.conn.s;
                  && OutputTokens(s.done) + Outstanding(s) == multiset(OwedTokens(dec, t.intake.frames))
                  && (forall i :: 0 <= i < |s.done| ==>
                        (Says(enc, s.done[i]) && (s.done[i].id == s.done[i].token.id || s.done[i].id == Null))))
  {
    hide Parse, TalkAll, FeedAll, FinalsTold, Says, OutputTokens, Outstanding, OwedTokens, IdsDistinct, DeadlinesSorted, WireOk, Bounded, OnePhase;
    TalkKeeps(enc, dec, traffic);
    var t := TalkAll(enc, dec, traffic);
    var events :| t.intake == FeedAll(events);
    FramingExact(events);
    if !t.conn.Failed? {
      assert Outstanding(t.conn.s) + multiset{} == Outstanding(t.conn.s);
      assert forall i :: 0 <= i < |t.conn.s.done| ==> OutputOk(t.conn.s.done[i]);
    }
  }

  /** A request refused before it could run, because it did not decode or waited too long, is
      answered with that refusal, unless it was cancelled. */
  lemma RefusedIsTold(enc: Encoder, dec: Decoder, traffic: seq<Traffic>)
    requires LineFree(enc)
    ensures var o := TalkAll(enc, dec, traffic).conn;
            !o.Failed? && o.s.finished && o.s.refusal.Some? ==>
              exists i :: 0 <= i < |o.s.done| && o.s.done[i].token == o.s.active
                && (o.s.done[i].bytes == Line(enc, Error(o.s.active.id, o.s.refusal.value))
                    || o.s.done[i].bytes == Line(enc, Error(o.s.active.id, -32800)))
  {
    hide TalkAll, Inv, AllSay, Line;
    TalkKeeps(enc, dec, traffic);
  }
}
