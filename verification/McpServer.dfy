// The mutable side of the transport: the frame reader that keeps its partial line across
// abandoned reads, and the exchange loop over it.
module McpServer {
  import opened McpFraming
  import opened McpExchange

  class Frames {
    var line: seq<Byte>
    var unread: seq<Byte>
    var closed: bool
    var queued: seq<Queued>

    constructor ()
      ensures Input() == Reader([], [], false) && queued == []
    {
      line, unread, closed, queued := [], [], false, [];
    }

    ghost function Input(): Reader
      reads this
    {
      Reader(line, unread, closed)
    }

    /** Polls for the next frame: reads up to a newline, at most one byte over the budget. The
        bytes read so far stay in `line` when the poll is abandoned. */
    method Next() returns (poll: Poll)
      requires ReaderOk(Input())
      modifies this`line, this`unread
      ensures (Input(), poll) == PollOnce(old(Input()))
    {
      var remaining := FRAME_BYTES + 1 - |line|;
      var read := 0;
      var found := false;
      while read < remaining && read < |unread| && !found
        invariant read <= |unread| && read <= remaining
        invariant forall i :: 0 <= i < read - 1 ==> unread[i] != NEWLINE
        invariant found == (read > 0 && unread[read - 1] == NEWLINE)
      {
        found := unread[read] == NEWLINE;
        read := read + 1;
      }
      TakenIs(old(Input()), read);
      line, unread := line + unread[..read], unread[read..];
      if |line| > FRAME_BYTES { return TooLong; }
      if line != [] && line[|line| - 1] == NEWLINE {
        poll := Frame(line);
        line := [];
        return;
      }
      if !closed { return Pending; }
      return if line == [] then End else Incomplete;
    }
  }

  // Scanning for a newline within the budget stops where the specification says.
  lemma TakenIs(r: Reader, read: nat)
    requires ReaderOk(r) && read <= |r.unread| && |r.line| + read <= FRAME_BYTES + 1
    requires forall i :: 0 <= i < read - 1 ==> r.unread[i] != NEWLINE
    requires |r.line| + read == FRAME_BYTES + 1 || read == |r.unread| || (read > 0 && r.unread[read - 1] == NEWLINE)
    ensures Taken(r) == read
  {
    var k := Reach(r.unread);
    if read > 0 && r.unread[read - 1] == NEWLINE {
      assert k >= read;
      assert k == read;
    }
  }

  // How a run over the given events ends: still open, complete, end of input, or an error.
  datatype Ending = Open | Done | Eof | Fail(why: Failure)

  ghost function OutcomeOf(e: Ending, s: State): Outcome {
    match e
    case Open => Running(s)
    case Done => Complete(s)
    case Eof => InputEnd(s)
    case Fail(why) => Failed(s, why)
  }

  class Exchange {
    const frames: Frames
    const enc: Encoder
    const active: Token
    const refusal: Option<int>
    var call: bool
    var writing: Option<Output>
    var ready: Option<Output>
    var controls: seq<Output>
    var finished: bool
    var now: nat
    var serial: nat
    ghost var wire: seq<Byte>
    ghost var done: seq<Output>
    ghost var owed: multiset<Token>
    ghost var finals: nat

    ghost function View(): State
      reads this, frames
    {
      State(active, refusal, call, writing, ready, controls, finished, frames.queued, now, wire, done, owed, finals, serial)
    }

    /** Starts the exchange for a request; `s` is the connection so far, idle, with the request taken. */
    constructor (frames: Frames, enc: Encoder, active: Token, refusal: Option<int>, now: nat, serial: nat, ghost s: State)
      requires s.queued == frames.queued && s.now == now && s.serial == serial && Idle(s)
      ensures this.frames == frames && this.enc == enc && View() == Begin(s, active, frames.queued, refusal)
    {
      this.frames, this.enc, this.active, this.refusal, this.now, this.serial := frames, enc, active, refusal, now, serial;
      call, writing, ready, controls, finished := true, None, None, [], false;
      wire, done, owed, finals := s.wire, s.done, s.owed, 0;
    }

    method Respond(r: Response, token: Token) returns (end: Ending)
      modifies this`controls
      ensures OutcomeOf(end, View()) == Reply(enc, old(View()), r, token)
    {
      if |controls| == PENDING_REQUESTS { return Fail(Backpressure); }
      controls := controls + [NewOutput(enc, r, false, now, token)];
      end := Open;
    }

    method Owes(id: Id) returns (token: Token)
      modifies this`owed, this`serial
      ensures (View(), token) == Owe(old(View()), id)
    {
      token := Token(serial, id);
      owed := owed + multiset{token};
      serial := serial + 1;
    }

    method Finish(r: Response)
      modifies this`call, this`ready, this`finals
      ensures View() == old(View()).(call := false, finals := old(finals) + 1, ready := Some(NewOutput(enc, r, true, now, active)))
    {
      call := false;
      ready := Some(NewOutput(enc, r, true, now, active));
      finals := finals + 1;
    }

    method CancelRequest(target: Option<Id>) returns (end: Ending)
      modifies this, frames
      ensures OutcomeOf(end, View()) == OnCancel(enc, old(View()), target)
    {
      if target.None? { return Open; }
      if call && target.value == active.id {
        Finish(Error(active.id, -32800));
        return Open;
      }
      var k := Position(frames.queued, target.value);
      if k == |frames.queued| { return Open; }
      var q := frames.queued[k];
      frames.queued := frames.queued[..k] + frames.queued[k + 1..];
      end := Respond(Error(q.id, -32800), Token(q.serial, q.id));
    }

    method IsDuplicate(id: Id) returns (dup: bool)
      ensures dup == Duplicate(View(), id)
      ensures Inv(View()) ==> (dup <==> LiveIds(View())[id] > 0)
    {
      DuplicateIsLive(View(), id);
      dup := (!finished && id == active.id)
        || (exists i :: 0 <= i < |frames.queued| && frames.queued[i].id == id)
        || (writing.Some? && writing.value.id == id)
        || (exists i :: 0 <= i < |controls| && controls[i].id == id);
    }

    method Receive(line: seq<Byte>, d: Decoded) returns (end: Ending)
      modifies this, frames
      ensures OutcomeOf(end, View()) == OnInput(enc, old(View()), line, d)
    {
      hide Duplicate, NewOutput, OnCancel;
      match d {
        case Blank => end := Open;
        case Notification => end := Open;
        case Cancel(target) => end := CancelRequest(target);
        case Bad(code) =>
          var token := Owes(Null);
          end := Respond(Error(Null, code), token);
        case Request(id, ping) =>
          var dup := IsDuplicate(id);
          var token := Owes(id);
          if dup {
            end := Respond(Error(Null, -32600), token);
          } else if ping {
            end := Respond(Pong(id), token);
          } else if |frames.queued| < PENDING_REQUESTS && QueuedBytes(frames.queued) + |line| <= PENDING_BYTES {
            frames.queued := frames.queued + [Queued(line, id, now + ADMISSION_TIMEOUT, token.serial)];
            end := Open;
          } else {
            end := Respond(Error(id, -32000), token);
          }
      }
    }

    /** One write step of the current frame; the offset outlives the attempt, so no byte is
        written twice. */
    method Write(count: nat) returns (end: Ending)
      requires writing.Some?
      modifies this`writing, this`wire, this`done, this`finished
      ensures OutcomeOf(end, View()) == OnWrite(old(View()), count)
    {
      var f := writing.value;
      if now >= f.deadline { return Fail(OutputTimeout); }
      if f.offset >= |f.bytes| {
        writing := None;
        done := done + [f];
        finished := finished || f.final;
        return Open;
      }
      if count == 0 { return Fail(OutputError); }
      var n := if f.offset + count <= |f.bytes| then count else |f.bytes| - f.offset;
      writing := Some(f.(offset := f.offset + n));
      wire := wire + f.bytes[f.offset..f.offset + n];
      end := Open;
    }

    method Expire() returns (end: Ending)
      modifies this, frames
      ensures OutcomeOf(end, View()) == Arm(enc, old(View()), AdmissionExpires)
    {
      if frames.queued == [] || now < frames.queued[0].deadline { return Open; }
      if |controls| == PENDING_REQUESTS { return Fail(Backpressure); }
      var q := frames.queued[0];
      frames.queued := frames.queued[1..];
      end := Respond(Error(q.id, -32000), Token(q.serial, q.id));
    }

    method Select(e: Event) returns (end: Ending)
      modifies this, frames
      ensures OutcomeOf(end, View()) == Arm(enc, old(View()), e)
    {
      hide OnInput, OnWrite, NewOutput;
      match e {
        case Tick(delay) => now := now + delay; end := Open;
        case CallDone(payload) =>
          if call { Finish(if refusal.Some? then Error(active.id, refusal.value) else Result(active.id, payload)); }
          end := Open;
        case Wrote(count) =>
          end := Open;
          if writing.Some? { end := Write(count); }
        case WriteFails => end := if writing.Some? then Fail(OutputError) else Open;
        case ReadyExpires => end := if ready.Some? && now >= ready.value.deadline then Fail(OutputTimeout) else Open;
        case AdmissionExpires => end := Expire();
        case Input(line, decoded) => end := Receive(line, decoded);
        case InputCloses => end := Eof;
        case InputFails => end := Fail(InputError);
      }
    }

    method LoopHead() returns (end: Ending)
      modifies this`writing, this`controls, this`ready
      ensures OutcomeOf(end, View()) == Head(old(View()))
    {
      if writing.None? {
        if controls != [] {
          writing, controls := Some(controls[0]), controls[1..];
        } else {
          writing, ready := ready, None;
        }
      }
      end := if finished && writing.None? then Done else Open;
    }

    /** Runs the exchange until it is over or the events are used up. */
    method Run(events: seq<Event>) returns (end: Ending)
      modifies this, frames
      ensures OutcomeOf(end, View()) == Drive(enc, old(View()), events)
    {
      hide Arm, Head;
      end := Open;
      var i := 0;
      while i < |events| && end.Open?
        invariant i <= |events|
        invariant (match OutcomeOf(end, View())
                   case Running(s) => Drive(enc, s, events[i..])
                   case other => other) == Drive(enc, old(View()), events)
      {
        assert events[i..][0] == events[i] && events[i..][1..] == events[i + 1..];
        end := Select(events[i]);
        if end.Open? { end := LoopHead(); }
        i := i + 1;
      }
    }
  }
}
