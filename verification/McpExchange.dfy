// The MCP request/response exchange as a state machine: one active call, a bounded
// admission queue, a bounded control queue, one partly written frame, cancellation and
// deadlines. Any ready event may come next, so the arm order of the event loop is not used.
module McpExchange {
  import opened McpFraming

  const PENDING_REQUESTS: nat := 8
  const PENDING_BYTES: nat := 256 * 1024
  const RESPONSE_BYTES: nat := 8 * 1024 * 1024
  const ADMISSION_TIMEOUT: nat := 10
  const OUTPUT_TIMEOUT: nat := 10

  datatype Option<T> = None | Some(value: T)

  // JSON-RPC ids of requests are integers or strings; error replies to frames that never
  // yielded an id carry null.
  datatype Id = Null | Number(n: int) | Text(s: string)

  // A frame consumed from the client that is owed a response: its arrival number and id.
  datatype Token = Token(serial: nat, id: Id)

  datatype Response = Result(id: Id, payload: seq<Byte>) | Pong(id: Id) | Error(id: Id, code: int)

  // What decoding makes of a frame. Cancel names the id it targets, if that is an id at all.
  datatype Decoded =
    | Blank
    | Bad(code: int)
    | Notification
    | Cancel(target: Option<Id>)
    | Request(id: Id, ping: bool)

  datatype Queued = Queued(line: seq<Byte>, id: Id, deadline: nat, serial: nat)

  datatype Output = Output(id: Id, bytes: seq<Byte>, offset: nat, deadline: nat, final: bool, token: Token)

  // A call with a `refusal` has its answer before it starts: the error of an undecodable frame
  // or of an admission wait that lasted too long.
  // `finished` means the final response of the active call was flushed. `wire`, `done`,
  // `owed`, `finals` and `serial` record history: the bytes written, the frames completed,
  // the frames owed a response, the final responses created for the active call, and the
  // next arrival number.
  datatype State = State(
    active: Token, refusal: Option<int>, call: bool, writing: Option<Output>, ready: Option<Output>, controls: seq<Output>,
    finished: bool, queued: seq<Queued>, now: nat,
    wire: seq<Byte>, done: seq<Output>, owed: multiset<Token>, finals: nat, serial: nat)

  datatype Failure = OutputTimeout | OutputError | InputError | Backpressure

  // Where a step leads: the loop goes on, the exchange is complete, input ended, or an error.
  datatype Outcome = Running(s: State) | Complete(s: State) | InputEnd(s: State) | Failed(s: State, why: Failure)

  datatype Event =
    | CallDone(payload: seq<Byte>)
    | Wrote(count: nat)
    | WriteFails
    | ReadyExpires
    | AdmissionExpires
    | Input(line: seq<Byte>, decoded: Decoded)
    | InputCloses
    | InputFails
    | Tick(delay: nat)

  // The serialiser is a parameter; it never emits a newline.
  type Encoder = Response -> seq<Byte>

  ghost predicate LineFree(enc: Encoder) { forall r :: NEWLINE !in enc(r) }

  // ----- building and queueing responses -----

  // An over-budget response is replaced by an error under the same id.
  function Line(enc: Encoder, r: Response): seq<Byte> {
    (if |enc(r)| <= RESPONSE_BYTES - 1 then enc(r) else enc(Error(r.id, -32603))) + [NEWLINE]
  }

  function NewOutput(enc: Encoder, r: Response, final: bool, now: nat, token: Token): Output {
    Output(r.id, Line(enc, r), 0, now + OUTPUT_TIMEOUT, final, token)
  }

  // What the active call answers when it completes.
  function Answer(s: State, payload: seq<Byte>): Response {
    if s.refusal.Some? then Error(s.active.id, s.refusal.value) else Result(s.active.id, payload)
  }

  function Reply(enc: Encoder, s: State, r: Response, token: Token): Outcome {
    if |s.controls| == PENDING_REQUESTS then Failed(s, Backpressure)
    else Running(s.(controls := s.controls + [NewOutput(enc, r, false, s.now, token)]))
  }

  function QueuedBytes(q: seq<Queued>): nat {
    if q == [] then 0 else QueuedBytes(q[..|q| - 1]) + |q[|q| - 1].line|
  }

  // First queued request with an id, or the length.
  function Position(q: seq<Queued>, id: Id): (k: nat)
    ensures k <= |q| && (k < |q| ==> q[k].id == id)
    ensures forall i :: 0 <= i < k ==> q[i].id != id
  {
    if q == [] || q[0].id == id then 0 else 1 + Position(q[1..], id)
  }

  predicate Duplicate(s: State, id: Id) {
    || (!s.finished && id == s.active.id)
    || (exists i :: 0 <= i < |s.queued| && s.queued[i].id == id)
    || (s.writing.Some? && s.writing.value.id == id)
    || (exists i :: 0 <= i < |s.controls| && s.controls[i].id == id)
  }

  // A frame that is owed a response gets the next arrival number.
  function Owe(s: State, id: Id): (State, Token) {
    var token := Token(s.serial, id);
    (s.(owed := s.owed + multiset{token}, serial := s.serial + 1), token)
  }

  function OnCancel(enc: Encoder, s: State, target: Option<Id>): Outcome {
    if target.None? then Running(s)
    else if s.call && target.value == s.active.id then
      Running(s.(call := false, finals := s.finals + 1,
                 ready := Some(NewOutput(enc, Error(s.active.id, -32800), true, s.now, s.active))))
    else
      var k := Position(s.queued, target.value);
      if k == |s.queued| then Running(s)
      else Reply(enc, s.(queued := s.queued[..k] + s.queued[k + 1..]), Error(s.queued[k].id, -32800), Token(s.queued[k].serial, s.queued[k].id))
  }

  function OnInput(enc: Encoder, s: State, line: seq<Byte>, d: Decoded): Outcome {
    match d
    case Blank => Running(s)
    case Notification => Running(s)
    case Cancel(target) => OnCancel(enc, s, target)
    case Bad(code) =>
      var (s', token) := Owe(s, Null);
      Reply(enc, s', Error(Null, code), token)
    case Request(id, ping) =>
      var (s', token) := Owe(s, id);
      if Duplicate(s, id) then Reply(enc, s', Error(Null, -32600), token)
      else if ping then Reply(enc, s', Pong(id), token)
      else if |s.queued| < PENDING_REQUESTS && QueuedBytes(s.queued) + |line| <= PENDING_BYTES then
        Running(s'.(queued := s.queued + [Queued(line, id, s.now + ADMISSION_TIMEOUT, token.serial)]))
      else Reply(enc, s', Error(id, -32000), token)
  }

  // One write: bytes make progress, or a fully written frame is flushed and done.
  function OnWrite(s: State, count: nat): Outcome
    requires s.writing.Some?
  {
    var f := s.writing.value;
    if s.now >= f.deadline then Failed(s, OutputTimeout)
    else if f.offset >= |f.bytes| then
      Running(s.(writing := None, done := s.done + [f], finished := s.finished || f.final))
    else if count == 0 then Failed(s, OutputError)
    else
      var n := if f.offset + count <= |f.bytes| then count else |f.bytes| - f.offset;
      Running(s.(writing := Some(f.(offset := f.offset + n)), wire := s.wire + f.bytes[f.offset..f.offset + n]))
  }

  // One arm of the event loop; an event that is not enabled changes nothing.
  function Arm(enc: Encoder, s: State, e: Event): Outcome {
    match e
    case Tick(delay) => Running(s.(now := s.now + delay))
    case CallDone(payload) =>
      if !s.call then Running(s)
      else Running(s.(call := false, finals := s.finals + 1,
                      ready := Some(NewOutput(enc, Answer(s, payload), true, s.now, s.active))))
    case Wrote(count) => if s.writing.None? then Running(s) else OnWrite(s, count)
    case WriteFails => if s.writing.None? then Running(s) else Failed(s, OutputError)
    case ReadyExpires =>
      if s.ready.Some? && s.now >= s.ready.value.deadline then Failed(s, OutputTimeout) else Running(s)
    case AdmissionExpires =>
      if s.queued == [] || s.now < s.queued[0].deadline then Running(s)
      else if |s.controls| == PENDING_REQUESTS then Failed(s, Backpressure)
      else Reply(enc, s.(queued := s.queued[1..]), Error(s.queued[0].id, -32000), Token(s.queued[0].serial, s.queued[0].id))
    case Input(line, decoded) => OnInput(enc, s, line, decoded)
    case InputCloses => InputEnd(s)
    case InputFails => Failed(s, InputError)
  }

  // The head of the loop: pick the next frame to write, controls first; leave when the final
  // response was flushed and nothing is left to write.
  function Head(s: State): Outcome {
    var t := if s.writing.Some? then s
             else if s.controls != [] then s.(writing := Some(s.controls[0]), controls := s.controls[1..])
             else s.(writing := s.ready, ready := None);
    if t.finished && t.writing.None? then Complete(t) else Running(t)
  }

  function Step(enc: Encoder, s: State, e: Event): Outcome {
    match Arm(enc, s, e)
    case Running(t) => Head(t)
    case other => other
  }

  // The next exchange of the connection: its request comes from the queue if there is one.
  function Begin(s: State, token: Token, queued: seq<Queued>, refusal: Option<int>): State {
    s.(active := token, refusal := refusal, call := true, finished := false, finals := 0, queued := queued)
  }

  // Dequeuing the front request; a request whose admission deadline has passed is refused
  // instead of dispatched.
  function Dequeue(s: State): State
    requires s.queued != []
  {
    var q := s.queued[0];
    Begin(s, Token(q.serial, q.id), s.queued[1..], if s.now < q.deadline then None else Some(-32000))
  }

  // ----- the invariant -----

  // Responses made and not yet flushed.
  ghost function InFlight(s: State): multiset<Token> {
    OutputTokens(AsSeq(s.writing)) + OutputTokens(AsSeq(s.ready)) + OutputTokens(s.controls)
  }

  // Requests without a response yet: the pending call and the queued ones.
  ghost function Waiting(s: State): multiset<Token> {
    (if s.call then multiset{s.active} else multiset{}) + QueuedTokens(s.queued)
  }

  // A response to one more token is in flight.
  ghost predicate Answers(s: State, s': State, t: Token) { InFlight(s') == InFlight(s) + multiset{t} }

  ghost function QueuedTokens(q: seq<Queued>): multiset<Token> {
    if q == [] then multiset{} else QueuedTokens(q[..|q| - 1]) + multiset{Token(q[|q| - 1].serial, q[|q| - 1].id)}
  }

  ghost function OutputTokens(s: seq<Output>): multiset<Token> {
    if s == [] then multiset{} else OutputTokens(s[..|s| - 1]) + multiset{s[|s| - 1].token}
  }

  ghost function QueuedIds(q: seq<Queued>): multiset<Id> {
    if q == [] then multiset{} else QueuedIds(q[..|q| - 1]) + multiset{q[|q| - 1].id}
  }

  ghost function OutputIds(s: seq<Output>): multiset<Id> {
    if s == [] then multiset{} else OutputIds(s[..|s| - 1]) + multiset{s[|s| - 1].id}
  }

  ghost function AsSeq(o: Option<Output>): seq<Output> { if o.Some? then [o.value] else [] }

  // Responses still to come: of the pending call, of queued requests, and outputs not flushed.
  ghost function Outstanding(s: State): multiset<Token> {
    (if s.call then multiset{s.active} else multiset{}) + QueuedTokens(s.queued)
    + OutputTokens(AsSeq(s.writing)) + OutputTokens(AsSeq(s.ready)) + OutputTokens(s.controls)
  }

  // Ids a new request must not reuse: the active one until its response is flushed, queued
  // ones, and those of control responses not flushed.
  ghost function LiveIds(s: State): multiset<Id> {
    (if s.finished then multiset{} else multiset{s.active.id}) + QueuedIds(s.queued)
    + (if s.writing.Some? && !s.writing.value.final then multiset{s.writing.value.id} else multiset{}) + OutputIds(s.controls)
  }

  ghost function Wire(done: seq<Output>): seq<Byte> {
    if done == [] then [] else Wire(done[..|done| - 1]) + done[|done| - 1].bytes
  }

  // One newline-terminated line, answering its token under that token's id or null.
  ghost predicate OutputOk(o: Output) {
    && o.offset <= |o.bytes| && ProperLine(o.bytes)
    && (o.id == o.token.id || o.id == Null)
  }

  ghost predicate ProperLine(bytes: seq<Byte>) {
    bytes != [] && bytes[|bytes| - 1] == NEWLINE && NEWLINE !in bytes[..|bytes| - 1]
  }

  // At most 8 queued requests totalling at most 256 KiB, at most 8 controls.
  ghost predicate Bounded(s: State) {
    |s.queued| <= PENDING_REQUESTS && QueuedBytes(s.queued) <= PENDING_BYTES && |s.controls| <= PENDING_REQUESTS
  }

  // The active call is in exactly one phase: pending, final response ready, being written, flushed.
  ghost predicate OnePhase(s: State) {
    && (s.ready.Some? ==> s.ready.value.final && s.ready.value.token == s.active && s.ready.value.id == s.active.id)
    && (s.writing.Some? && s.writing.value.final ==> s.writing.value.token == s.active && s.writing.value.id == s.active.id)
    && (forall i :: 0 <= i < |s.controls| ==> !s.controls[i].final)
    && (if s.call then 1 else 0) + (if s.ready.Some? then 1 else 0)
       + (if s.writing.Some? && s.writing.value.final then 1 else 0) + (if s.finished then 1 else 0) == 1
    && s.finals == (if s.call then 0 else 1)
  }

  // Every frame owed a response is answered once, outstanding once, or in the given hands.
  ghost predicate ConservedBut(s: State, held: multiset<Token>) {
    && s.owed == OutputTokens(s.done) + (Outstanding(s) + held)
    && |s.owed| == s.serial
    && (forall t :: t in s.owed ==> s.owed[t] == 1 && t.serial < s.serial)
    && (forall t, u :: t in s.owed && u in s.owed && t.serial == u.serial ==> t == u)
  }

  ghost predicate Conserved(s: State) { ConservedBut(s, multiset{}) }

  ghost predicate IdsDistinct(s: State) { forall id :: id != Null ==> LiveIds(s)[id] <= 1 }

  // Deadlines of queued requests never decrease, so the front expires first.
  ghost predicate DeadlinesSorted(s: State) {
    && (forall i, j :: 0 <= i < j < |s.queued| ==> s.queued[i].deadline <= s.queued[j].deadline)
    && (forall i :: 0 <= i < |s.queued| ==> s.queued[i].deadline <= s.now + ADMISSION_TIMEOUT)
  }

  // The output stream is the completed frames followed by a prefix of the one being written.
  ghost predicate WireOk(s: State) {
    && (s.writing.Some? ==> s.writing.value.offset <= |s.writing.value.bytes|)
    && s.wire == Wire(s.done) + (if s.writing.Some? then s.writing.value.bytes[..s.writing.value.offset] else [])
    && (forall i :: 0 <= i < |s.done| ==> s.done[i].offset == |s.done[i].bytes|)
  }

  ghost predicate OutputsOk(s: State) {
    && (s.writing.Some? ==> OutputOk(s.writing.value))
    && (s.ready.Some? ==> OutputOk(s.ready.value) && s.ready.value.offset == 0)
    && (forall i :: 0 <= i < |s.controls| ==> OutputOk(s.controls[i]) && s.controls[i].offset == 0)
    && (forall i :: 0 <= i < |s.done| ==> OutputOk(s.done[i]))
  }

  ghost predicate Inv(s: State) {
    Bounded(s) && OnePhase(s) && Conserved(s) && IdsDistinct(s) && DeadlinesSorted(s) && WireOk(s) && OutputsOk(s)
  }

  // ----- bags -----

  lemma {:induction false} TokensConcat(a: seq<Queued>, b: seq<Queued>)
    ensures QueuedTokens(a + b) == QueuedTokens(a) + QueuedTokens(b)
  {
    if b == [] {
      assert a + b == a;
    } else {
      assert (a + b)[..|a + b| - 1] == a + b[..|b| - 1];
      TokensConcat(a, b[..|b| - 1]);
    }
  }

  lemma {:induction false} IdsConcat(a: seq<Queued>, b: seq<Queued>)
    ensures QueuedIds(a + b) == QueuedIds(a) + QueuedIds(b)
  {
    if b == [] {
      assert a + b == a;
    } else {
      assert (a + b)[..|a + b| - 1] == a + b[..|b| - 1];
      IdsConcat(a, b[..|b| - 1]);
    }
  }

  lemma {:induction false} BytesConcat(a: seq<Queued>, b: seq<Queued>)
    ensures QueuedBytes(a + b) == QueuedBytes(a) + QueuedBytes(b)
  {
    if b == [] {
      assert a + b == a;
    } else {
      assert (a + b)[..|a + b| - 1] == a + b[..|b| - 1];
      BytesConcat(a, b[..|b| - 1]);
    }
  }

  lemma QueuedConcat(a: seq<Queued>, b: seq<Queued>)
    ensures QueuedTokens(a + b) == QueuedTokens(a) + QueuedTokens(b)
    ensures QueuedIds(a + b) == QueuedIds(a) + QueuedIds(b)
    ensures QueuedBytes(a + b) == QueuedBytes(a) + QueuedBytes(b)
  {
    hide QueuedTokens, QueuedIds, QueuedBytes;
    TokensConcat(a, b);
    IdsConcat(a, b);
    BytesConcat(a, b);
  }

  lemma QueuedOne(q: Queued)
    ensures QueuedTokens([q]) == multiset{Token(q.serial, q.id)} && QueuedIds([q]) == multiset{q.id} && QueuedBytes([q]) == |q.line|
  {
  }

  lemma {:induction false} OutputConcat(a: seq<Output>, b: seq<Output>)
    ensures OutputTokens(a + b) == OutputTokens(a) + OutputTokens(b)
    ensures OutputIds(a + b) == OutputIds(a) + OutputIds(b)
  {
    if b == [] {
      assert a + b == a;
    } else {
      assert (a + b)[..|a + b| - 1] == a + b[..|b| - 1];
      OutputConcat(a, b[..|b| - 1]);
    }
  }

  lemma OutputOne(o: Output)
    ensures OutputTokens([o]) == multiset{o.token} && OutputIds([o]) == multiset{o.id}
  {
  }

  // Taking the queued request at k out of the queue.
  lemma QueuedWithout(q: seq<Queued>, k: nat)
    requires k < |q|
    ensures var rest := q[..k] + q[k + 1..];
            && QueuedTokens(q) == QueuedTokens(rest) + multiset{Token(q[k].serial, q[k].id)}
            && QueuedIds(q) == QueuedIds(rest) + multiset{q[k].id}
            && QueuedBytes(q) == QueuedBytes(rest) + |q[k].line|
  {
    assert q == q[..k] + ([q[k]] + q[k + 1..]);
    QueuedConcat(q[..k], [q[k]] + q[k + 1..]);
    QueuedConcat([q[k]], q[k + 1..]);
    QueuedConcat(q[..k], q[k + 1..]);
    QueuedOne(q[k]);
  }

  lemma {:induction false} QueuedIdIn(q: seq<Queued>, id: Id)
    ensures QueuedIds(q)[id] > 0 <==> exists i :: 0 <= i < |q| && q[i].id == id
  {
    if q == [] {
    } else {
      QueuedIdIn(q[..|q| - 1], id);
      assert forall i :: 0 <= i < |q| - 1 ==> q[..|q| - 1][i] == q[i];
      if i :| 0 <= i < |q| && q[i].id == id { assert i < |q| - 1 ==> q[..|q| - 1][i].id == id; }
    }
  }

  lemma {:induction false} OutputIdIn(s: seq<Output>, id: Id)
    ensures OutputIds(s)[id] > 0 <==> exists i :: 0 <= i < |s| && s[i].id == id
  {
    if s == [] {
    } else {
      OutputIdIn(s[..|s| - 1], id);
      assert forall i :: 0 <= i < |s| - 1 ==> s[..|s| - 1][i] == s[i];
      if i :| 0 <= i < |s| && s[i].id == id { assert i < |s| - 1 ==> s[..|s| - 1][i].id == id; }
    }
  }

  // An id that is not a duplicate is not live.
  lemma FreshId(s: State, id: Id)
    requires !Duplicate(s, id)
    ensures LiveIds(s)[id] == 0
  {
    QueuedIdIn(s.queued, id);
    OutputIdIn(s.controls, id);
  }

  // The duplicate check finds exactly the live ids.
  lemma DuplicateIsLive(s: State, id: Id)
    ensures Inv(s) ==> (Duplicate(s, id) <==> LiveIds(s)[id] > 0)
  {
    hide Conserved, IdsDistinct, DeadlinesSorted, WireOk, OutputsOk, Bounded, QueuedIds, OutputIds;
    QueuedIdIn(s.queued, id);
    OutputIdIn(s.controls, id);
  }

  // ----- every arm keeps the invariant -----

  lemma NewOutputOk(enc: Encoder, r: Response, final: bool, now: nat, token: Token)
    requires LineFree(enc) && (r.id == token.id || r.id == Null)
    ensures var o := NewOutput(enc, r, final, now, token);
            OutputOk(o) && o.offset == 0 && o.final == final && o.token == token && o.id == r.id
  {
    var o := NewOutput(enc, r, final, now, token);
    assert o.bytes[..|o.bytes| - 1] == if |enc(r)| <= RESPONSE_BYTES - 1 then enc(r) else enc(Error(r.id, -32603));
  }

  // What holds whatever is in whose hands.
  ghost predicate Frame(s: State) { Bounded(s) && OnePhase(s) && DeadlinesSorted(s) && WireOk(s) && OutputsOk(s) }

  lemma ControlKeepsFrame(s: State, o: Output)
    requires Frame(s) && |s.controls| < PENDING_REQUESTS && OutputOk(o) && o.offset == 0 && !o.final
    ensures Frame(s.(controls := s.controls + [o]))
  {
    hide OutputOk, Wire, QueuedBytes;
  }

  lemma ControlKeepsBags(s: State, o: Output)
    requires ConservedBut(s, multiset{o.token}) && IdsDistinct(s) && (o.id != Null ==> LiveIds(s)[o.id] == 0)
    ensures Conserved(s.(controls := s.controls + [o])) && IdsDistinct(s.(controls := s.controls + [o]))
  {
    hide OutputTokens, OutputIds, QueuedTokens, QueuedIds, ConservedBut, IdsDistinct;
    OutputConcat(s.controls, [o]);
    OutputOne(o);
    var s' := s.(controls := s.controls + [o]);
    assert Outstanding(s') + multiset{} == Outstanding(s) + multiset{o.token};
    assert LiveIds(s') == LiveIds(s) + multiset{o.id};
    HandOver(s, multiset{o.token}, s', multiset{});
    AddLiveId(s, s', o.id);
  }

  // Queueing a response whose token and id were taken out of circulation for it.
  lemma ReplyKeeps(enc: Encoder, s: State, r: Response, token: Token)
    requires LineFree(enc) && (r.id == token.id || r.id == Null)
    requires Frame(s) && ConservedBut(s, multiset{token}) && IdsDistinct(s) && (r.id != Null ==> LiveIds(s)[r.id] == 0)
    ensures Reply(enc, s, r, token).Running? ==> Inv(Reply(enc, s, r, token).s)
    ensures Reply(enc, s, r, token).Running? ==> Answers(s, Reply(enc, s, r, token).s, token)
    ensures Reply(enc, s, r, token).Running? || Reply(enc, s, r, token) == Failed(s, Backpressure)
  {
    hide ConservedBut, IdsDistinct, LiveIds, OutputOk, OnePhase, DeadlinesSorted, WireOk, OutputsOk, NewOutput, OutputTokens;
    OutputConcat(s.controls, [NewOutput(enc, r, false, s.now, token)]);
    OutputOne(NewOutput(enc, r, false, s.now, token));
    NewOutputOk(enc, r, false, s.now, token);
    if |s.controls| != PENDING_REQUESTS {
      ControlKeepsFrame(s, NewOutput(enc, r, false, s.now, token));
      ControlKeepsBags(s, NewOutput(enc, r, false, s.now, token));
    }
  }

  // A consumed frame is owed a response under a number of its own.
  lemma OweBags(s: State, id: Id)
    requires Conserved(s) && IdsDistinct(s)
    ensures var (s', token) := Owe(s, id);
            ConservedBut(s', multiset{token}) && IdsDistinct(s') && LiveIds(s') == LiveIds(s) && token.id == id
  {
    hide OutputTokens, Outstanding, LiveIds, IdsDistinct;
    var (s', token) := Owe(s, id);
    assert token !in s.owed;
    OweSums(s, id);
    SameLiveIds(s, s');
    assert s'.owed == OutputTokens(s'.done) + (Outstanding(s') + multiset{token});
  }

  lemma OweSums(s: State, id: Id)
    ensures Outstanding(Owe(s, id).0) == Outstanding(s) == Outstanding(s) + multiset{} && LiveIds(Owe(s, id).0) == LiveIds(s)
  {
    hide OutputTokens, OutputIds, QueuedTokens, QueuedIds;
  }

  // Handing tokens over changes nothing about what is owed.
  lemma HandOver(s: State, held: multiset<Token>, s': State, held': multiset<Token>)
    requires ConservedBut(s, held) && s'.owed == s.owed && s'.serial == s.serial
    requires OutputTokens(s'.done) + (Outstanding(s') + held') == OutputTokens(s.done) + (Outstanding(s) + held)
    ensures ConservedBut(s', held')
  {
  }

  lemma AddLiveId(s: State, s': State, id: Id)
    requires IdsDistinct(s) && LiveIds(s') == LiveIds(s) + multiset{id} && (id != Null ==> LiveIds(s)[id] == 0)
    ensures IdsDistinct(s')
  {
    hide LiveIds;
  }

  lemma OweKeeps(s: State, id: Id)
    requires Inv(s)
    ensures var (s', token) := Owe(s, id);
            Frame(s') && ConservedBut(s', multiset{token}) && IdsDistinct(s') && LiveIds(s') == LiveIds(s) && token.id == id
  {
    hide ConservedBut, IdsDistinct, LiveIds, OutputOk, OutputsOk, OnePhase, WireOk, DeadlinesSorted;
    OweBags(s, id);
    var s' := Owe(s, id).0;
    SameFields(s, s');
  }

  // The parts of the invariant that depend on a few fields each.
  lemma SameFields(s: State, s': State)
    ensures (OnePhase(s) && s'.ready == s.ready && s'.writing == s.writing && s'.controls == s.controls && s'.active == s.active
             && s'.call == s.call && s'.finished == s.finished && s'.finals == s.finals) ==> OnePhase(s')
    ensures DeadlinesSorted(s) && s'.queued == s.queued && s'.now >= s.now ==> DeadlinesSorted(s')
    ensures WireOk(s) && s'.wire == s.wire && s'.done == s.done && s'.writing == s.writing ==> WireOk(s')
    ensures OutputsOk(s) && s'.writing == s.writing && s'.ready == s.ready && s'.controls == s.controls && s'.done == s.done ==> OutputsOk(s')
  {
  }

  lemma DequeueBags(s: State, k: nat)
    requires Conserved(s) && IdsDistinct(s) && k < |s.queued|
    ensures var q := s.queued[k];
            var s' := s.(queued := s.queued[..k] + s.queued[k + 1..]);
            ConservedBut(s', multiset{Token(q.serial, q.id)}) && IdsDistinct(s') && (q.id != Null ==> LiveIds(s')[q.id] == 0)
  {
    hide OutputTokens, OutputIds, QueuedTokens, QueuedIds, QueuedBytes;
    QueuedWithout(s.queued, k);
    var q := s.queued[k];
    var s' := s.(queued := s.queued[..k] + s.queued[k + 1..]);
    assert Outstanding(s') + multiset{Token(q.serial, q.id)} == Outstanding(s) + multiset{};
    assert LiveIds(s') + multiset{q.id} == LiveIds(s);
    assert LiveIds(s)[q.id] == LiveIds(s')[q.id] + 1;
    forall id | id != Null ensures LiveIds(s')[id] <= 1 {
      assert LiveIds(s')[id] <= LiveIds(s)[id];
    }
  }

  // Removing a queued request puts its token and id in hand.
  lemma DequeueKeeps(s: State, k: nat)
    requires Inv(s) && k < |s.queued|
    ensures var q := s.queued[k];
            var s' := s.(queued := s.queued[..k] + s.queued[k + 1..]);
            Frame(s') && ConservedBut(s', multiset{Token(q.serial, q.id)}) && IdsDistinct(s') && (q.id != Null ==> LiveIds(s')[q.id] == 0)
  {
    hide ConservedBut, IdsDistinct, LiveIds, OutputOk, OutputsOk, OnePhase, WireOk, QueuedBytes;
    DequeueBags(s, k);
    QueuedWithout(s.queued, k);
    SameFields(s, s.(queued := s.queued[..k] + s.queued[k + 1..]));
  }

  lemma AdmitBags(s: State, q: Queued)
    requires ConservedBut(s, multiset{Token(q.serial, q.id)}) && IdsDistinct(s) && (q.id != Null ==> LiveIds(s)[q.id] == 0)
    ensures Conserved(s.(queued := s.queued + [q])) && IdsDistinct(s.(queued := s.queued + [q]))
  {
    hide OutputTokens, OutputIds, QueuedTokens, QueuedIds, QueuedBytes, ConservedBut, IdsDistinct;
    QueuedConcat(s.queued, [q]);
    QueuedOne(q);
    var s' := s.(queued := s.queued + [q]);
    assert Outstanding(s') + multiset{} == Outstanding(s) + multiset{Token(q.serial, q.id)};
    assert LiveIds(s') == LiveIds(s) + multiset{q.id};
    HandOver(s, multiset{Token(q.serial, q.id)}, s', multiset{});
    AddLiveId(s, s', q.id);
  }

  lemma AdmitDeadline(s: State, q: Queued)
    requires DeadlinesSorted(s) && q.deadline == s.now + ADMISSION_TIMEOUT
    ensures DeadlinesSorted(s.(queued := s.queued + [q]))
  {
  }

  lemma AdmitKeeps(s: State, line: seq<Byte>, token: Token, deadline: nat)
    requires Frame(s) && ConservedBut(s, multiset{token}) && IdsDistinct(s) && (token.id != Null ==> LiveIds(s)[token.id] == 0)
    requires |s.queued| < PENDING_REQUESTS && QueuedBytes(s.queued) + |line| <= PENDING_BYTES && deadline == s.now + ADMISSION_TIMEOUT
    ensures Inv(s.(queued := s.queued + [Queued(line, token.id, deadline, token.serial)]))
  {
    hide ConservedBut, IdsDistinct, LiveIds, OutputOk, OutputsOk, OnePhase, WireOk, QueuedBytes, QueuedTokens, QueuedIds, DeadlinesSorted;
    var q := Queued(line, token.id, deadline, token.serial);
    AdmitBags(s, q);
    AdmitDeadline(s, q);
    QueuedConcat(s.queued, [q]);
    QueuedOne(q);
    SameFields(s, s.(queued := s.queued + [q]));
  }

  lemma FinishBags(s: State, o: Output)
    requires Conserved(s) && IdsDistinct(s) && s.call && s.ready.None? && o.token == s.active
    ensures var s' := s.(call := false, finals := s.finals + 1, ready := Some(o)); Conserved(s') && IdsDistinct(s')
  {
    hide OutputTokens, OutputIds, QueuedTokens, QueuedIds, ConservedBut, IdsDistinct;
    var s' := s.(call := false, finals := s.finals + 1, ready := Some(o));
    OutputOne(o);
    OutputNone();
    assert AsSeq(s'.ready) == [o] && AsSeq(s.ready) == [];
    assert Outstanding(s') == Outstanding(s);
    HandOver(s, multiset{}, s', multiset{});
    SameLiveIds(s, s');
  }

  lemma SameLiveIds(s: State, s': State)
    requires IdsDistinct(s) && LiveIds(s') == LiveIds(s)
    ensures IdsDistinct(s')
  {
    hide LiveIds;
  }

  // The active call gets its final response.
  lemma FinishCallKeeps(enc: Encoder, s: State, r: Response)
    requires LineFree(enc) && Inv(s) && s.call && r.id == s.active.id
    ensures var s' := s.(call := false, finals := s.finals + 1, ready := Some(NewOutput(enc, r, true, s.now, s.active)));
            Inv(s') && Answers(s, s', s.active)
  {
    hide ConservedBut, IdsDistinct, LiveIds, OutputOk, NewOutput, QueuedBytes, Wire;
    NewOutputOk(enc, r, true, s.now, s.active);
    var o := NewOutput(enc, r, true, s.now, s.active);
    ConservedIs(s);
    FinishBags(s, o);
    OutputOne(o);
    OutputNone();
  }

  lemma ConservedIs(s: State)
    ensures Conserved(s) <==> ConservedBut(s, multiset{})
  {
  }

  // The active call, if the target names it, or else the first queued request with that id.
  ghost function Cancelled(s: State, target: Option<Id>): Option<Token> {
    if target.None? then None
    else if s.call && target.value == s.active.id then Some(s.active)
    else
      var k := Position(s.queued, target.value);
      if k < |s.queued| then Some(Token(s.queued[k].serial, s.queued[k].id)) else None
  }

  // A queued request stops waiting and gets its one response.
  lemma AnswerQueued(enc: Encoder, s: State, k: nat, r: Response)
    requires LineFree(enc) && Inv(s) && k < |s.queued| && r.id == s.queued[k].id
    ensures var q := s.queued[k];
            var o := Reply(enc, s.(queued := s.queued[..k] + s.queued[k + 1..]), r, Token(q.serial, q.id));
            o.Running? ==>
              Inv(o.s) && Answers(s, o.s, Token(q.serial, q.id)) && Waiting(s) == Waiting(o.s) + multiset{Token(q.serial, q.id)}
  {
    hide Frame, Inv, ConservedBut, IdsDistinct, LiveIds, NewOutput, OutputTokens, QueuedTokens;
    DequeueKeeps(s, k);
    QueuedWithout(s.queued, k);
    var q := s.queued[k];
    ReplyKeeps(enc, s.(queued := s.queued[..k] + s.queued[k + 1..]), r, Token(q.serial, q.id));
  }

  // A cancelled request stops waiting and gets its one response; any other target changes nothing.
  lemma CancelKeeps(enc: Encoder, s: State, target: Option<Id>)
    requires LineFree(enc) && Inv(s)
    ensures OnCancel(enc, s, target).Running? ==> Inv(OnCancel(enc, s, target).s)
    ensures var o, t := OnCancel(enc, s, target), Cancelled(s, target);
            o.Running? ==>
              if t.None? then o.s == s
              else Answers(s, o.s, t.value) && Waiting(s) == Waiting(o.s) + multiset{t.value}
  {
    hide Frame, Inv, ConservedBut, IdsDistinct, LiveIds, NewOutput, OutputTokens, QueuedTokens, Reply, InFlight, Answers;
    if target.Some? {
      if s.call && target.value == s.active.id {
        FinishCallKeeps(enc, s, Error(s.active.id, -32800));
      } else {
        var k := Position(s.queued, target.value);
        if k < |s.queued| { AnswerQueued(enc, s, k, Error(s.queued[k].id, -32800)); }
      }
    }
  }

  lemma InputKeeps(enc: Encoder, s: State, line: seq<Byte>, d: Decoded)
    requires LineFree(enc) && Inv(s)
    ensures OnInput(enc, s, line, d).Running? ==> Inv(OnInput(enc, s, line, d).s)
  {
    hide Frame, Inv, ConservedBut, IdsDistinct, LiveIds, NewOutput, Reply, Duplicate;
    match d
    case Blank =>
    case Notification =>
    case Cancel(target) => CancelKeeps(enc, s, target);
    case Bad(code) =>
      OweKeeps(s, Null);
      var (s', token) := Owe(s, Null);
      ReplyKeeps(enc, s', Error(Null, code), token);
    case Request(id, ping) =>
      OweKeeps(s, id);
      var (s', token) := Owe(s, id);
      if Duplicate(s, id) {
        ReplyKeeps(enc, s', Error(Null, -32600), token);
      } else {
        FreshId(s, id);
        if ping {
          ReplyKeeps(enc, s', Pong(id), token);
        } else if |s.queued| < PENDING_REQUESTS && QueuedBytes(s.queued) + |line| <= PENDING_BYTES {
          AdmitKeeps(s', line, token, s.now + ADMISSION_TIMEOUT);
        } else {
          ReplyKeeps(enc, s', Error(id, -32000), token);
        }
      }
  }

  // ----- writing and the loop head -----

  // The state after the frame being written was flushed.
  ghost function Flushed(s: State): State
    requires s.writing.Some?
  {
    s.(writing := None, done := s.done + [s.writing.value], finished := s.finished || s.writing.value.final)
  }

  lemma FlushSums(s: State)
    requires s.writing.Some?
    ensures Outstanding(s) == Outstanding(Flushed(s)) + multiset{s.writing.value.token}
    ensures LiveIds(Flushed(s)) <= LiveIds(s)
  {
    hide QueuedTokens, QueuedIds, OutputIds;
    OutputOne(s.writing.value);
    assert AsSeq(s.writing) == [s.writing.value] && AsSeq(Flushed(s).writing) == [];
  }

  lemma FewerLive(s: State, s': State)
    requires IdsDistinct(s) && LiveIds(s') <= LiveIds(s)
    ensures IdsDistinct(s')
  {
    hide LiveIds;
  }

  lemma FlushBags(s: State)
    requires Conserved(s) && IdsDistinct(s) && s.writing.Some?
    ensures Conserved(Flushed(s)) && IdsDistinct(Flushed(s))
  {
    hide OutputTokens, Outstanding, LiveIds, ConservedBut, IdsDistinct;
    FlushSums(s);
    FewerLive(s, Flushed(s));
    OutputConcat(s.done, [s.writing.value]);
    OutputOne(s.writing.value);
    HandOver(s, multiset{}, Flushed(s), multiset{});
  }

  lemma FlushKeeps(s: State)
    requires Inv(s) && s.writing.Some? && s.writing.value.offset == |s.writing.value.bytes|
    ensures Inv(Flushed(s))
  {
    hide ConservedBut, IdsDistinct, LiveIds, OutputOk, QueuedBytes;
    ConservedIs(s);
    FlushBags(s);
    var f := s.writing.value;
    var done := s.done + [f];
    assert done[..|done| - 1] == s.done;
    assert Wire(done) == Wire(s.done) + f.bytes;
    assert f.bytes[..f.offset] == f.bytes;
    assert Wire(done) + [] == Wire(done);
  }

  // The state after n more bytes of the current frame were written.
  ghost function Progressed(s: State, n: nat): State
    requires s.writing.Some? && s.writing.value.offset + n <= |s.writing.value.bytes|
  {
    var f := s.writing.value;
    s.(writing := Some(f.(offset := f.offset + n)), wire := s.wire + f.bytes[f.offset..f.offset + n])
  }

  lemma ProgressSums(s: State, n: nat)
    requires s.writing.Some? && s.writing.value.offset + n <= |s.writing.value.bytes|
    ensures Outstanding(Progressed(s, n)) == Outstanding(s) && LiveIds(Progressed(s, n)) == LiveIds(s)
  {
    hide QueuedTokens, QueuedIds, OutputIds;
    OutputOne(s.writing.value);
    OutputOne(Progressed(s, n).writing.value);
    assert AsSeq(s.writing) == [s.writing.value] && AsSeq(Progressed(s, n).writing) == [Progressed(s, n).writing.value];
  }

  lemma ProgressKeeps(s: State, n: nat)
    requires Inv(s) && s.writing.Some? && s.writing.value.offset + n <= |s.writing.value.bytes|
    ensures Inv(Progressed(s, n))
  {
    hide ConservedBut, IdsDistinct, QueuedBytes, Wire, Outstanding, LiveIds, ProperLine;
    var f := s.writing.value;
    assert f.bytes[..f.offset + n] == f.bytes[..f.offset] + f.bytes[f.offset..f.offset + n];
    assert Progressed(s, n).wire == Wire(s.done) + (f.bytes[..f.offset] + f.bytes[f.offset..f.offset + n]);
    ConservedIs(s);
    ProgressSums(s, n);
    HandOver(s, multiset{}, Progressed(s, n), multiset{});
    SameLiveIds(s, Progressed(s, n));
  }

  lemma WriteMoves(s: State, count: nat)
    requires s.writing.Some? && s.writing.value.offset <= |s.writing.value.bytes|
    ensures var o, f := OnWrite(s, count), s.writing.value;
            o.Running? ==>
              (if f.offset == |f.bytes| then Answers(o.s, s, f.token) && OutputTokens(o.s.done) == OutputTokens(s.done) + multiset{f.token}
               else InFlight(o.s) == InFlight(s) && o.s.done == s.done && |s.wire| < |o.s.wire|)
  {
    var o, f := OnWrite(s, count), s.writing.value;
    OutputConcat(s.done, [f]);
    OutputOne(f);
    OutputNone();
    if o.Running? && f.offset < |f.bytes| { OutputOne(o.s.writing.value); }
  }

  // A flush turns the response in flight into a completed one; otherwise bytes make progress.
  lemma WriteKeeps(s: State, count: nat)
    requires Inv(s) && s.writing.Some?
    ensures OnWrite(s, count).Running? ==> Inv(OnWrite(s, count).s)
    ensures var o, f := OnWrite(s, count), s.writing.value;
            o.Running? ==>
              (if f.offset == |f.bytes| then Answers(o.s, s, f.token) && OutputTokens(o.s.done) == OutputTokens(s.done) + multiset{f.token}
               else InFlight(o.s) == InFlight(s) && o.s.done == s.done && |s.wire| < |o.s.wire|)
  {
    hide ConservedBut, IdsDistinct, QueuedBytes, Wire, Bounded, OnePhase, DeadlinesSorted, OutputsOk, Answers, InFlight, OutputTokens;
    WriteMoves(s, count);
    var f := s.writing.value;
    if s.now < f.deadline {
      if f.offset >= |f.bytes| {
        FlushKeeps(s);
      } else if count > 0 {
        ProgressKeeps(s, if f.offset + count <= |f.bytes| then count else |f.bytes| - f.offset);
      }
    }
  }

  // The state the loop head leaves behind.
  ghost function Pick(s: State): State {
    if s.writing.Some? then s
    else if s.controls != [] then s.(writing := Some(s.controls[0]), controls := s.controls[1..])
    else s.(writing := s.ready, ready := None)
  }

  lemma PhaseFinals(s: State)
    requires OnePhase(s)
    ensures s.controls != [] ==> !s.controls[0].final
    ensures s.ready.Some? ==> s.ready.value.final
  {
  }

  lemma PickSums(s: State)
    requires s.controls != [] ==> !s.controls[0].final
    requires s.ready.Some? ==> s.ready.value.final
    ensures Outstanding(Pick(s)) == Outstanding(s) && LiveIds(Pick(s)) == LiveIds(s)
  {
    hide QueuedTokens, QueuedIds, OutputTokens, OutputIds;
    var s' := Pick(s);
    OutputNone();
    if s.writing.None? && s.controls != [] {
      assert s.controls == [s.controls[0]] + s.controls[1..];
      OutputConcat([s.controls[0]], s.controls[1..]);
      OutputOne(s.controls[0]);
      assert AsSeq(s'.writing) == [s.controls[0]];
    } else if s.writing.None? {
      assert AsSeq(s'.writing) == AsSeq(s.ready);
    }
  }

  lemma OutputNone()
    ensures OutputTokens([]) == multiset{} && OutputIds([]) == multiset{}
  {
  }

  lemma PickBags(s: State)
    requires Conserved(s) && IdsDistinct(s) && OnePhase(s)
    ensures Conserved(Pick(s)) && IdsDistinct(Pick(s))
  {
    hide ConservedBut, IdsDistinct, Outstanding, LiveIds, OnePhase;
    PhaseFinals(s);
    PickSums(s);
    HandOver(s, multiset{}, Pick(s), multiset{});
    SameLiveIds(s, Pick(s));
  }

  lemma HeadKeeps(s: State)
    requires Inv(s)
    ensures Head(s).s == Pick(s) && Inv(Pick(s))
  {
    hide ConservedBut, IdsDistinct, LiveIds, OutputOk, QueuedBytes, Wire;
    ConservedIs(s);
    PickBags(s);
    var s' := Pick(s);
    if s.writing.None? && s.controls != [] {
      HeadWire(s, s.controls[0]);
    } else if s.writing.None? && s.ready.Some? {
      HeadWire(s, s.ready.value);
    }
  }

  lemma HeadWire(s: State, o: Output)
    requires WireOk(s) && s.writing.None? && o.offset == 0
    ensures s.wire == Wire(s.done) + o.bytes[..o.offset]
  {
    assert o.bytes[..0] == [];
  }

  // ----- steps and runs -----

  lemma TickKeeps(s: State, delay: nat)
    requires Inv(s)
    ensures Inv(s.(now := s.now + delay))
  {
    hide Outstanding, LiveIds, OutputOk, QueuedBytes, Wire;
    var s' := s.(now := s.now + delay);
    assert Outstanding(s') == Outstanding(s) && LiveIds(s') == LiveIds(s) by { TickBags(s, delay); }
    SameFields(s, s');
    SameLiveIds(s, s');
  }

  lemma TickBags(s: State, delay: nat)
    ensures Outstanding(s.(now := s.now + delay)) == Outstanding(s) && LiveIds(s.(now := s.now + delay)) == LiveIds(s)
  {
  }

  // An expired front request leaves the queue and gets its one response.
  lemma ExpiryKeeps(enc: Encoder, s: State)
    requires LineFree(enc) && Inv(s)
    ensures Arm(enc, s, AdmissionExpires).Running? ==> Inv(Arm(enc, s, AdmissionExpires).s)
    ensures var o := Arm(enc, s, AdmissionExpires);
            o.Running? ==>
              if s.queued == [] || s.now < s.queued[0].deadline then o.s == s
              else Answers(s, o.s, Token(s.queued[0].serial, s.queued[0].id))
                   && Waiting(s) == Waiting(o.s) + multiset{Token(s.queued[0].serial, s.queued[0].id)}
  {
    hide Frame, Inv, ConservedBut, IdsDistinct, LiveIds, NewOutput, OutputTokens, QueuedTokens, InFlight, Answers, Waiting;
    if s.queued != [] && s.now >= s.queued[0].deadline {
      assert s.queued[..0] + s.queued[1..] == s.queued[1..];
      AnswerQueued(enc, s, 0, Error(s.queued[0].id, -32000));
    }
  }

  lemma ArmKeeps(enc: Encoder, s: State, e: Event)
    requires LineFree(enc) && Inv(s)
    ensures Arm(enc, s, e).Running? || Arm(enc, s, e).InputEnd? ==> Inv(Arm(enc, s, e).s)
    ensures !Arm(enc, s, e).Complete?
  {
    hide Inv, NewOutput, OnWrite, OnInput;
    match e
    case Tick(delay) => TickKeeps(s, delay);
    case CallDone(payload) => if s.call { FinishCallKeeps(enc, s, Answer(s, payload)); }
    case Wrote(count) => if s.writing.Some? { WriteKeeps(s, count); NeverComplete(enc, s, count, [], Blank); }
    case WriteFails =>
    case ReadyExpires =>
    case AdmissionExpires => ExpiryKeeps(enc, s);
    case Input(line, decoded) => InputKeeps(enc, s, line, decoded); NeverComplete(enc, s, 0, line, decoded);
    case InputCloses =>
    case InputFails =>
  }

  lemma NeverComplete(enc: Encoder, s: State, count: nat, line: seq<Byte>, d: Decoded)
    ensures s.writing.Some? ==> OnWrite(s, count).Running? || OnWrite(s, count).Failed?
    ensures OnInput(enc, s, line, d).Running? || OnInput(enc, s, line, d).Failed?
  {
  }

  /** One iteration of the event loop keeps every transport invariant, whichever arm fires. */
  lemma StepKeeps(enc: Encoder, s: State, e: Event)
    requires LineFree(enc) && Inv(s)
    ensures !Step(enc, s, e).Failed? ==> Inv(Step(enc, s, e).s)
    ensures Step(enc, s, e).Complete? ==> Idle(Step(enc, s, e).s)
  {
    hide Inv, Arm, Bounded, Conserved, IdsDistinct, DeadlinesSorted, WireOk, OutputsOk;
    ArmKeeps(enc, s, e);
    if Arm(enc, s, e).Running? {
      HeadKeeps(Arm(enc, s, e).s);
      InvPhase(Arm(enc, s, e).s);
    }
  }

  lemma InvPhase(s: State)
    requires Inv(s)
    ensures OnePhase(s)
  {
  }

  // Between exchanges: nothing pending, nothing left to write.
  ghost predicate Idle(s: State) {
    !s.call && s.ready.None? && s.writing.None? && s.controls == [] && s.finished
  }

  // The serve loop between exchanges: the front of the queue is taken at once; otherwise the
  // next frame is read, and blank lines and notifications are skipped.
  ghost function NextRequest(s: State, e: Event): Outcome {
    if s.queued != [] then Running(Dequeue(s))
    else match e
      case Tick(delay) => Running(s.(now := s.now + delay))
      case Input(line, Bad(code)) => var (s', token) := Owe(s, Null); Running(Begin(s', token, [], Some(code)))
      case Input(line, Request(id, ping)) => var (s', token) := Owe(s, id); Running(Begin(s', token, [], None))
      case InputCloses => InputEnd(s)
      case InputFails => Failed(s, InputError)
      case _ => Running(s)
  }

  // One step of the whole connection.
  ghost function Serve(enc: Encoder, s: State, e: Event): Outcome {
    if Idle(s) then NextRequest(s, e) else
      match Step(enc, s, e)
      case Complete(t) => Running(t)
      case other => other
  }

  const CONNECTED: State := State(Token(0, Null), None, false, None, None, [], true, [], 0, [], [], multiset{}, 1, 0)

  ghost function ServeAll(enc: Encoder, events: seq<Event>): Outcome {
    if events == [] then Running(CONNECTED) else
      match ServeAll(enc, events[..|events| - 1])
      case Running(s) => Serve(enc, s, events[|events| - 1])
      case other => other
  }

  lemma BeginBags(s: State, token: Token, refusal: Option<int>)
    requires Idle(s) && ConservedBut(s, multiset{token}) && IdsDistinct(s) && (token.id != Null ==> LiveIds(s)[token.id] == 0)
    ensures Conserved(Begin(s, token, s.queued, refusal)) && IdsDistinct(Begin(s, token, s.queued, refusal))
  {
    hide OutputTokens, OutputIds, QueuedTokens, QueuedIds, ConservedBut;
    var s' := Begin(s, token, s.queued, refusal);
    assert Outstanding(s') + multiset{} == Outstanding(s) + multiset{token};
    HandOver(s, multiset{token}, s', multiset{});
    assert LiveIds(s') == LiveIds(s) + multiset{token.id};
    AddLiveId(s, s', token.id);
  }

  lemma BeginKeeps(s: State, token: Token, refusal: Option<int>)
    requires Idle(s) && Frame(s) && ConservedBut(s, multiset{token}) && IdsDistinct(s) && (token.id != Null ==> LiveIds(s)[token.id] == 0)
    ensures Inv(Begin(s, token, s.queued, refusal))
  {
    hide ConservedBut, IdsDistinct, LiveIds, OutputOk, QueuedBytes, Wire;
    BeginBags(s, token, refusal);
  }

  lemma NextRequestKeeps(s: State, e: Event)
    requires Inv(s) && Idle(s)
    ensures !NextRequest(s, e).Failed? ==> Inv(NextRequest(s, e).s)
  {
    hide Inv, Frame, ConservedBut, IdsDistinct, LiveIds;
    if s.queued != [] {
      DequeueKeeps(s, 0);
      var q := s.queued[0];
      assert s.queued[..0] + s.queued[1..] == s.queued[1..];
      BeginKeeps(s.(queued := s.queued[1..]), Token(q.serial, q.id), Dequeue(s).refusal);
    } else {
      match e
      case Tick(delay) => TickKeeps(s, delay);
      case Input(line, Bad(code)) =>
        OweKeeps(s, Null);
        BeginKeeps(Owe(s, Null).0, Owe(s, Null).1, Some(code));
      case Input(line, Request(id, ping)) =>
        OweKeeps(s, id);
        NothingLive(s, id);
        BeginKeeps(Owe(s, id).0, Owe(s, id).1, None);
      case _ =>
    }
  }

  lemma NothingLive(s: State, id: Id)
    requires Idle(s) && s.queued == []
    ensures LiveIds(s)[id] == 0
  {
  }

  lemma ConnectedOk()
    ensures Inv(CONNECTED) && Idle(CONNECTED)
  {
    assert Wire([]) == [];
  }

  /** Every state reachable on a connection, in any order of events, keeps every transport invariant. */
  lemma {:induction false} ConnectionKeeps(enc: Encoder, events: seq<Event>)
    requires LineFree(enc)
    ensures !ServeAll(enc, events).Failed? ==> Inv(ServeAll(enc, events).s)
  {
    hide Inv, Step, NextRequest, Idle;
    if events == [] {
      ConnectedOk();
    } else {
      var rest := events[..|events| - 1];
      ConnectionKeeps(enc, rest);
      if ServeAll(enc, rest).Running? {
        var s := ServeAll(enc, rest).s;
        if Idle(s) { NextRequestKeeps(s, events[|events| - 1]); } else { StepKeeps(enc, s, events[|events| - 1]); }
      }
    }
  }

  // ----- what a run promises -----

  // One exchange driven by events until it is over.
  ghost function Drive(enc: Encoder, s: State, events: seq<Event>): Outcome
    decreases |events|
  {
    if events == [] then Running(s) else
      match Step(enc, s, events[0])
      case Running(t) => Drive(enc, t, events[1..])
      case other => other
  }

  // Once the final response is flushed the active request is among the answered.
  ghost predicate ActiveAnswered(s: State) { s.finished ==> s.active in OutputTokens(s.done) }

  lemma ArmShape(enc: Encoder, s: State, e: Event)
    requires Inv(s)
    ensures var t := Arm(enc, s, e).s;
            && t.active == s.active
            && ((t.done == s.done && t.finished == s.finished)
                || (s.writing.Some? && t.done == s.done + [s.writing.value] && t.finished == (s.finished || s.writing.value.final)))
  {
    hide Inv, NewOutput, Duplicate;
  }

  lemma HeadShape(s: State)
    ensures var t := Head(s).s; t.active == s.active && t.finished == s.finished && t.done == s.done
  {
  }

  lemma FlushAnswers(s: State, t: State)
    requires OnePhase(s) && ActiveAnswered(s) && s.writing.Some? && t.active == s.active
    requires t.done == s.done + [s.writing.value] && t.finished == (s.finished || s.writing.value.final)
    ensures ActiveAnswered(t)
  {
    hide OutputTokens;
    OutputConcat(s.done, [s.writing.value]);
    OutputOne(s.writing.value);
  }

  lemma StepAnswers(enc: Encoder, s: State, e: Event)
    requires Inv(s) && ActiveAnswered(s)
    ensures Step(enc, s, e).s.active == s.active && ActiveAnswered(Step(enc, s, e).s)
  {
    hide Inv, Arm, Head, OutputTokens, OnePhase;
    InvPhase(s);
    ArmShape(enc, s, e);
    var t := Arm(enc, s, e).s;
    HeadShape(t);
    if !(t.done == s.done && t.finished == s.finished) { FlushAnswers(s, t); }
  }

  /** In every run of an exchange exactly one final response is created. When the exchange
      completes, every frame owed a response has exactly one fully written response or sits
      exactly once in the queue, and the active request has been answered. */
  lemma {:induction false} ExchangeExactlyOnce(enc: Encoder, s: State, events: seq<Event>)
    requires LineFree(enc) && Inv(s) && ActiveAnswered(s)
    ensures var o := Drive(enc, s, events);
            && (!o.Failed? ==> Inv(o.s))
            && (!o.Failed? ==> o.s.finals == if o.s.call then 0 else 1)
            && (o.Complete? ==>
                  && Idle(o.s) && o.s.active == s.active && s.active in OutputTokens(o.s.done)
                  && o.s.owed == OutputTokens(o.s.done) + QueuedTokens(o.s.queued)
                  && forall t :: t in o.s.owed ==> OutputTokens(o.s.done)[t] + QueuedTokens(o.s.queued)[t] == 1)
    decreases |events|
  {
    hide Inv, Step, OutputTokens, QueuedTokens, Idle;
    if events == [] {
      InvPhase(s);
    } else {
      StepKeeps(enc, s, events[0]);
      StepAnswers(enc, s, events[0]);
      var o := Step(enc, s, events[0]);
      if o.Running? {
        ExchangeExactlyOnce(enc, o.s, events[1..]);
      } else if !o.Failed? {
        InvPhase(o.s);
        if o.Complete? { IdleConserved(o.s); }
      }
    }
  }

  lemma IdleConserved(s: State)
    requires Inv(s) && Idle(s) && ActiveAnswered(s)
    ensures s.active in OutputTokens(s.done) && s.owed == OutputTokens(s.done) + QueuedTokens(s.queued)
    ensures forall t :: t in s.owed ==> OutputTokens(s.done)[t] + QueuedTokens(s.queued)[t] == 1
  {
    hide QueuedTokens;
    OutputNone();
    assert Outstanding(s) + multiset{} == QueuedTokens(s.queued);
  }

  /** Over a whole connection: each frame owed a response is answered once or outstanding
      once, and between exchanges only queued requests are outstanding. */
  lemma ConnectionExactlyOnce(enc: Encoder, events: seq<Event>)
    requires LineFree(enc)
    ensures var o := ServeAll(enc, events);
            !o.Failed? ==>
              && |o.s.owed| == o.s.serial
              && (forall t :: t in o.s.owed ==> OutputTokens(o.s.done)[t] + Outstanding(o.s)[t] == 1)
              && (forall t :: t !in o.s.owed ==> OutputTokens(o.s.done)[t] + Outstanding(o.s)[t] == 0)
              && (Idle(o.s) ==> Outstanding(o.s) == QueuedTokens(o.s.queued))
  {
    hide ServeAll, OutputTokens, QueuedTokens;
    ConnectionKeeps(enc, events);
    OutputNone();
    var o := ServeAll(enc, events);
    if !o.Failed? {
      assert o.s.owed == OutputTokens(o.s.done) + Outstanding(o.s) by {
        assert Outstanding(o.s) + multiset{} == Outstanding(o.s);
      }
    }
  }

  /** Checking only the front of the queue for expiry is sound: nothing behind it expires first. */
  lemma FrontExpiresFirst(s: State, i: nat)
    requires Inv(s) && i < |s.queued| && s.now < s.queued[0].deadline
    ensures s.now < s.queued[i].deadline
  {
  }

  // The newline-terminated lines of a byte stream and what follows the last of them.
  ghost function Lines(stream: seq<Byte>): (seq<seq<Byte>>, seq<Byte>) {
    var k := Reach(stream);
    if k > 0 && stream[k - 1] == NEWLINE then
      var (lines, rest) := Lines(stream[k..]);
      ([stream[..k]] + lines, rest)
    else ([], stream)
  }

  ghost function Bodies(done: seq<Output>): seq<seq<Byte>> { seq(|done|, i requires 0 <= i < |done| => done[i].bytes) }

  lemma LinesOfLine(line: seq<Byte>, tail: seq<Byte>)
    requires ProperLine(line)
    ensures Lines(line + tail) == ([line] + Lines(tail).0, Lines(tail).1)
  {
    hide Reach;
    var body := line[..|line| - 1];
    assert line + tail == body + ([NEWLINE] + tail);
    ReachAfter(body, [NEWLINE] + tail);
    assert Reach([NEWLINE] + tail) == 1 by { ReachNewline(tail); }
    assert (line + tail)[..|line|] == line && (line + tail)[|line|..] == tail;
  }

  lemma ReachNewline(tail: seq<Byte>)
    ensures Reach([NEWLINE] + tail) == 1
  {
  }

  lemma {:induction false} LinesOfWire(done: seq<Output>, tail: seq<Byte>)
    requires forall i :: 0 <= i < |done| ==> ProperLine(done[i].bytes)
    ensures Lines(Wire(done) + tail) == (Bodies(done) + Lines(tail).0, Lines(tail).1)
  {
    hide Lines, ProperLine;
    if done == [] {
      assert Wire(done) + tail == tail;
      assert Bodies(done) + Lines(tail).0 == Lines(tail).0;
    } else {
      var k := |done| - 1;
      var f := done[k].bytes;
      assert Wire(done) + tail == Wire(done[..k]) + (f + tail);
      LinesOfWire(done[..k], f + tail);
      LinesOfLine(f, tail);
      assert Bodies(done) == Bodies(done[..k]) + [f];
      assert Bodies(done[..k]) + ([f] + Lines(tail).0) == Bodies(done) + Lines(tail).0;
    }
  }

  // The part of an output that was written.
  ghost function Written(o: Output): seq<Byte> { if o.offset <= |o.bytes| then o.bytes[..o.offset] else o.bytes }

  /** At every point of every connection the client can split the output at newlines: it
      reads exactly the completed responses in order, then, unless one is fully written but
      not flushed, an unfinished prefix of the response being written. */
  lemma WireSplits(enc: Encoder, events: seq<Event>)
    requires LineFree(enc)
    ensures var o := ServeAll(enc, events);
            !o.Failed? ==>
              Lines(o.s.wire) ==
                (if o.s.writing.None? then (Bodies(o.s.done), [])
                 else if o.s.writing.value.offset == |o.s.writing.value.bytes| then (Bodies(o.s.done) + [o.s.writing.value.bytes], [])
                 else (Bodies(o.s.done), Written(o.s.writing.value)))
  {
    hide ServeAll, Lines, Wire, Bodies, ProperLine, Conserved, IdsDistinct, Bounded, OnePhase, DeadlinesSorted;
    ConnectionKeeps(enc, events);
    var o := ServeAll(enc, events);
    if !o.Failed? {
      var s := o.s;
      var tail := if s.writing.Some? then Written(s.writing.value) else [];
      LinesOfWire(s.done, tail);
      NoLines([]);
      if s.writing.Some? {
        var f := s.writing.value;
        if f.offset == |f.bytes| {
          assert tail == f.bytes && f.bytes + [] == f.bytes;
          LinesOfLine(f.bytes, []);
          assert [f.bytes] + [] == [f.bytes];
        } else {
          PrefixFree(f.bytes, f.offset);
          NoLines(tail);
          assert Bodies(s.done) + [] == Bodies(s.done);
        }
      } else {
        assert Bodies(s.done) + [] == Bodies(s.done);
      }
    }
  }

  lemma NoLines(s: seq<Byte>)
    requires NEWLINE !in s
    ensures Lines(s) == ([], s)
  {
  }

  lemma PrefixFree(line: seq<Byte>, k: nat)
    requires ProperLine(line) && k < |line|
    ensures NEWLINE !in line[..k]
  {
    assert forall i :: 0 <= i < k ==> line[..k][i] == line[..|line| - 1][i];
  }
}
