// Newline framing of the request stream: frames, byte budget and the partial line that
// survives abandoned reads.
module McpFraming {

  type Byte = b: nat | b < 256

  const NEWLINE: Byte := 10
  const FRAME_BYTES: nat := 64 * 1024

  // ----- the stream as a whole -----

  // What is left once the complete frames are taken: a partial line still growing, a
  // clean end, a line over budget, or an end inside a line.
  datatype Rest = Waiting(partial: seq<Byte>) | Ended | Overlong | Unterminated

  datatype Parsed = Parsed(frames: seq<seq<Byte>>, rest: Rest)

  // Position of the first newline, or the length.
  function LineEnd(s: seq<Byte>): (k: nat)
    ensures k <= |s|
    ensures k < |s| ==> s[k] == NEWLINE
    ensures forall i :: 0 <= i < k ==> s[i] != NEWLINE
  {
    if s == [] || s[0] == NEWLINE then 0 else 1 + LineEnd(s[1..])
  }

  // How far reading a line goes: past the first newline, or to the end.
  function Reach(s: seq<Byte>): (n: nat)
    ensures n <= |s|
    ensures forall i :: 0 <= i < n - 1 ==> s[i] != NEWLINE
    ensures n == |s| || (n > 0 && s[n - 1] == NEWLINE)
    ensures n == 0 <==> s == []
  {
    var k := LineEnd(s);
    if k < |s| then k + 1 else k
  }

  // The frames of a byte stream, each ending in a newline and at most FRAME_BYTES long.
  ghost function Parse(stream: seq<Byte>, closed: bool): Parsed {
    var k := Reach(stream);
    if k > FRAME_BYTES then Parsed([], Overlong)
    else if k > 0 && stream[k - 1] == NEWLINE then
      var p := Parse(stream[k..], closed);
      Parsed([stream[..k]] + p.frames, p.rest)
    else if !closed then Parsed([], Waiting(stream))
    else if stream == [] then Parsed([], Ended)
    else Parsed([], Unterminated)
  }

  // ----- one poll of the reader -----

  // The retained line, the bytes that arrived and were not read, and whether input closed.
  datatype Reader = Reader(line: seq<Byte>, unread: seq<Byte>, closed: bool)

  datatype Poll = Pending | Frame(line: seq<Byte>) | End | TooLong | Incomplete

  // The reader between polls: the retained line is unfinished and within budget.
  ghost predicate ReaderOk(r: Reader) { |r.line| <= FRAME_BYTES && NEWLINE !in r.line }

  // How many unread bytes a poll takes: one line, cut at the budget.
  function Taken(r: Reader): (n: nat)
    ensures n <= |r.unread|
  {
    if |r.line| <= FRAME_BYTES && |r.line| + Reach(r.unread) > FRAME_BYTES + 1 then FRAME_BYTES + 1 - |r.line| else Reach(r.unread)
  }

  ghost function PollOnce(r: Reader): (Reader, Poll) {
    var n := Taken(r);
    var line := r.line + r.unread[..n];
    var next := r.(line := line, unread := r.unread[n..]);
    if |line| > FRAME_BYTES then (next, TooLong)
    else if line != [] && line[|line| - 1] == NEWLINE then (next.(line := []), Frame(line))
    else if !r.closed then (next, Pending)
    else if line == [] then (next, End)
    else (next, Incomplete)
  }

  lemma {:induction false} LineEndAfter(line: seq<Byte>, s: seq<Byte>)
    requires NEWLINE !in line
    ensures LineEnd(line + s) == |line| + LineEnd(s)
  {
    if line == [] {
      assert line + s == s;
    } else {
      assert (line + s)[1..] == line[1..] + s;
      LineEndAfter(line[1..], s);
    }
  }

  lemma ReachAfter(line: seq<Byte>, s: seq<Byte>)
    requires NEWLINE !in line
    ensures Reach(line + s) == |line| + Reach(s)
  {
    LineEndAfter(line, s);
  }

  // Where the first line of the stream ends, as the poll sees it.
  lemma PollLine(r: Reader)
    requires ReaderOk(r)
    ensures var all, k := r.line + r.unread, |r.line| + Reach(r.unread);
            && Reach(all) == k
            && (k > FRAME_BYTES <==> PollOnce(r).1 == TooLong)
            && (k <= FRAME_BYTES ==> Taken(r) == Reach(r.unread) && r.line + r.unread[..Taken(r)] == all[..k] && r.unread[Taken(r)..] == all[k..])
  {
    ReachAfter(r.line, r.unread);
    var n, all := Reach(r.unread), r.line + r.unread;
    assert all[..|r.line| + n] == r.line + r.unread[..n];
    assert all[|r.line| + n..] == r.unread[n..];
  }

  lemma ParseLine(s: seq<Byte>, closed: bool)
    ensures var k, p := Reach(s), Parse(s, closed);
            if k > FRAME_BYTES then p == Parsed([], Overlong)
            else if k > 0 && s[k - 1] == NEWLINE then
              p == Parsed([s[..k]] + Parse(s[k..], closed).frames, Parse(s[k..], closed).rest)
            else k == |s| && NEWLINE !in s
                 && p == Parsed([], if !closed then Waiting(s) else if s == [] then Ended else Unterminated)
  {
  }

  // What a poll does, by where the first line of the stream ends.
  lemma PollCases(r: Reader)
    requires ReaderOk(r)
    ensures var (next, poll) := PollOnce(r);
            var all, k := r.line + r.unread, |r.line| + Reach(r.unread);
            && k <= |all| && next.closed == r.closed
            && (if k > FRAME_BYTES then poll == TooLong
                else if k > 0 && all[k - 1] == NEWLINE then
                  poll == Frame(all[..k]) && next.line == [] && next.unread == all[k..] && next.line + next.unread == all[k..]
                else if k == |all| then
                  next.line == all && next.unread == [] && next.line + next.unread == all
                  && poll == (if !r.closed then Pending else if all == [] then End else Incomplete)
                else true)
  {
    hide Reach, Parse, Taken;
    PollLine(r);
    var all, k := r.line + r.unread, |r.line| + Reach(r.unread);
    assert k == |all| ==> all[..k] == all && all[k..] == [] && all + [] == all;
  }

  /** A poll delivers exactly the next frame of what was retained and arrived, stays pending
      exactly while the next frame is unfinished, and fails exactly when it is over budget or
      cut off. */
  lemma PollExact(r: Reader)
    requires ReaderOk(r)
    ensures var (next, poll) := PollOnce(r);
            var here, there := Parse(r.line + r.unread, r.closed), Parse(next.line + next.unread, r.closed);
            && next.closed == r.closed
            && (poll.Frame? ==> ReaderOk(next) && here == Parsed([poll.line] + there.frames, there.rest))
            && (poll.Pending? <==> here.frames == [] && here.rest.Waiting?)
            && (poll.Pending? ==> ReaderOk(next) && here == there)
            && (poll.End? <==> here == Parsed([], Ended))
            && (poll.TooLong? <==> here == Parsed([], Overlong))
            && (poll.Incomplete? <==> here == Parsed([], Unterminated))
  {
    hide Reach, Parse, PollOnce;
    PollCases(r);
    PollLine(r);
    ParseLine(r.line + r.unread, r.closed);
  }

  // ----- whole schedules of arrivals and reads -----

  // Bytes arrive in chunks, input closes, or the reader is polled; an abandoned read is a
  // poll whose pending result nobody waits for.
  datatype InputEvent = Arrive(chunk: seq<Byte>) | Close | Read

  // Everything that arrived, the frames delivered, and the last poll.
  datatype Intake = Intake(reader: Reader, arrived: seq<Byte>, frames: seq<seq<Byte>>, last: Poll)

  const START: Intake := Intake(Reader([], [], false), [], [], Pending)

  // A read that ended or failed closes the connection.
  predicate Over(poll: Poll) { poll.End? || poll.TooLong? || poll.Incomplete? }

  ghost function Feed(s: Intake, e: InputEvent): Intake {
    if Over(s.last) then s else
      match e
      case Arrive(chunk) =>
        if s.reader.closed then s
        else s.(reader := s.reader.(unread := s.reader.unread + chunk), arrived := s.arrived + chunk, last := Pending)
      case Close => s.(reader := s.reader.(closed := true), last := Pending)
      case Read =>
        var (reader, poll) := PollOnce(s.reader);
        s.(reader := reader, last := poll, frames := if poll.Frame? then s.frames + [poll.line] else s.frames)
  }

  ghost function FeedAll(events: seq<InputEvent>): Intake {
    if events == [] then START else Feed(FeedAll(events[..|events| - 1]), events[|events| - 1])
  }

  ghost predicate ProperFrame(f: seq<Byte>) {
    0 < |f| <= FRAME_BYTES && f[|f| - 1] == NEWLINE && forall i :: 0 <= i < |f| - 1 ==> f[i] != NEWLINE
  }

  ghost function Flatten(frames: seq<seq<Byte>>): seq<Byte> {
    if frames == [] then [] else Flatten(frames[..|frames| - 1]) + frames[|frames| - 1]
  }

  // No byte is lost or repeated: delivered frames, the retained line and the unread bytes
  // are exactly what arrived.
  ghost predicate IntakeOk(s: Intake) {
    && (forall i :: 0 <= i < |s.frames| ==> ProperFrame(s.frames[i]))
    && Flatten(s.frames) + (s.reader.line + s.reader.unread) == s.arrived
    && (!Over(s.last) ==> ReaderOk(s.reader))
    && (s.last.End? ==> Parse(s.reader.line + s.reader.unread, true) == Parsed([], Ended) && s.reader.closed)
    && (s.last.TooLong? ==> Parse(s.reader.line + s.reader.unread, s.reader.closed) == Parsed([], Overlong))
    && (s.last.Incomplete? ==> Parse(s.reader.line + s.reader.unread, true) == Parsed([], Unterminated) && s.reader.closed)
  }

  lemma PollBytes(r: Reader)
    ensures var (next, poll) := PollOnce(r);
            (if poll.Frame? then poll.line + (next.line + next.unread) else next.line + next.unread) == r.line + r.unread
  {
    hide Taken;
    var n := Taken(r);
    assert r.unread[..n] + r.unread[n..] == r.unread;
    assert r.line + (r.unread[..n] + r.unread[n..]) == (r.line + r.unread[..n]) + r.unread[n..];
    assert [] + r.unread[n..] == r.unread[n..];
  }

  // A poll neither loses nor repeats bytes, and what it delivers is one proper line.
  lemma PollKeepsBytes(r: Reader)
    requires ReaderOk(r)
    ensures var (next, poll) := PollOnce(r);
            && (if poll.Frame? then poll.line + (next.line + next.unread) else next.line + next.unread) == r.line + r.unread
            && (poll.Frame? ==> ProperFrame(poll.line))
            && ((poll.End? || poll.Incomplete?) ==> r.closed)
  {
    hide Parse, Taken;
    PollBytes(r);
    PollLine(r);
    var all, k := r.line + r.unread, |r.line| + Reach(r.unread);
    if k <= FRAME_BYTES {
      assert forall i :: 0 <= i < k ==> all[..k][i] == all[i];
    }
  }

  lemma ArriveKeeps(s: Intake, chunk: seq<Byte>)
    requires IntakeOk(s) && !Over(s.last)
    ensures IntakeOk(Feed(s, Arrive(chunk)))
  {
    hide Parse, Flatten;
    assert s.reader.line + (s.reader.unread + chunk) == (s.reader.line + s.reader.unread) + chunk;
    assert Flatten(s.frames) + ((s.reader.line + s.reader.unread) + chunk) == (Flatten(s.frames) + (s.reader.line + s.reader.unread)) + chunk;
  }

  lemma FlattenOneMore(frames: seq<seq<Byte>>, f: seq<Byte>, tail: seq<Byte>)
    ensures Flatten(frames + [f]) + tail == Flatten(frames) + (f + tail)
  {
    assert (frames + [f])[..|frames|] == frames;
  }

  lemma ReadKeeps(s: Intake)
    requires IntakeOk(s) && !Over(s.last)
    ensures IntakeOk(Feed(s, Read))
  {
    hide Parse, PollOnce, Flatten, ProperFrame;
    PollExact(s.reader);
    PollKeepsBytes(s.reader);
    var (next, poll) := PollOnce(s.reader);
    if poll.Frame? { FlattenOneMore(s.frames, poll.line, next.line + next.unread); }
  }

  lemma FeedKeeps(s: Intake, e: InputEvent)
    requires IntakeOk(s)
    ensures IntakeOk(Feed(s, e))
  {
    hide Parse, PollOnce, Flatten;
    if !Over(s.last) {
      match e
      case Arrive(chunk) => ArriveKeeps(s, chunk);
      case Close =>
      case Read => ReadKeeps(s);
    }
  }

  lemma {:induction false} FeedAllKeeps(events: seq<InputEvent>)
    ensures IntakeOk(FeedAll(events))
  {
    hide Feed, IntakeOk;
    if events == [] {
      StartKeeps();
    } else {
      FeedAllKeeps(events[..|events| - 1]);
      FeedKeeps(FeedAll(events[..|events| - 1]), events[|events| - 1]);
    }
  }

  lemma StartKeeps()
    ensures IntakeOk(START)
  {
    assert Flatten([]) + ([] + []) == [];
  }

  lemma LineEndProper(f: seq<Byte>, s: seq<Byte>)
    requires ProperFrame(f)
    ensures Reach(f + s) == |f|
  {
    var body := f[..|f| - 1];
    assert f + s == body + ([NEWLINE] + s);
    LineEndAfter(body, [NEWLINE] + s);
  }

  lemma {:induction false} ParseFlatten(frames: seq<seq<Byte>>, tail: seq<Byte>, closed: bool)
    requires forall i :: 0 <= i < |frames| ==> ProperFrame(frames[i])
    ensures Parse(Flatten(frames) + tail, closed) == Parsed(frames + Parse(tail, closed).frames, Parse(tail, closed).rest)
  {
    hide Parse, ProperFrame;
    if frames == [] {
      assert Flatten(frames) + tail == tail;
    } else {
      var k := |frames| - 1;
      var f := frames[k];
      assert Flatten(frames) + tail == Flatten(frames[..k]) + (f + tail);
      ParseFlatten(frames[..k], f + tail, closed);
      ParseProper(f, tail, closed);
      assert frames == frames[..k] + [f];
    }
  }

  lemma ParseProper(f: seq<Byte>, tail: seq<Byte>, closed: bool)
    requires ProperFrame(f)
    ensures Parse(f + tail, closed) == Parsed([f] + Parse(tail, closed).frames, Parse(tail, closed).rest)
  {
    hide Parse, Reach;
    LineEndProper(f, tail);
    ParseLine(f + tail, closed);
    assert (f + tail)[..|f|] == f && (f + tail)[|f|..] == tail;
  }

  /** The frames of a stream in plain terms: lines of at most 64 KiB, newline included, are taken
      one by one, up to a first line or rest that is longer; what is left without a newline is
      waited for while input is open, and cut off once it closes. */
  lemma ParseExact(frames: seq<seq<Byte>>, tail: seq<Byte>, closed: bool)
    requires forall i :: 0 <= i < |frames| ==>
               0 < |frames[i]| <= 65536 && frames[i][|frames[i]| - 1] == 10 && forall j :: 0 <= j < |frames[i]| - 1 ==> frames[i][j] != 10
    requires forall j :: 0 <= j < |tail| && j < 65536 ==> tail[j] != 10
    ensures Parse(Flatten(frames) + tail, closed) ==
              Parsed(frames, if |tail| > 65536 then Overlong else if !closed then Waiting(tail) else if |tail| == 0 then Ended else Unterminated)
  {
    hide Parse, Reach;
    ParseFlatten(frames, tail, closed);
    ParseLine(tail, closed);
    if |tail| > 65536 { ReachPast(tail); }
    assert frames + [] == frames;
  }

  lemma ReachPast(s: seq<Byte>)
    requires |s| > FRAME_BYTES && forall j :: 0 <= j < FRAME_BYTES ==> s[j] != NEWLINE
    ensures Reach(s) > FRAME_BYTES
  {
  }

  /** For every chunking of the input and every abandoned read, the frames delivered are
      exactly the leading newline-delimited frames of what arrived. A pending reader has
      delivered all of them; a reader that stopped did so exactly at a clean end, an
      over-budget line or a cut-off one. */
  lemma FramingExact(events: seq<InputEvent>)
    ensures var s := FeedAll(events);
            var all := Parse(s.arrived, s.reader.closed);
            && s.frames <= all.frames
            && (s.last.End? ==> all == Parsed(s.frames, Ended))
            && (s.last.TooLong? ==> all == Parsed(s.frames, Overlong))
            && (s.last.Incomplete? ==> all == Parsed(s.frames, Unterminated))
    ensures events != [] && events[|events| - 1] == Read ==>
              var s := FeedAll(events);
              var all := Parse(s.arrived, s.reader.closed);
              s.last.Pending? ==> all.frames == s.frames && all.rest == Waiting(s.reader.line)
  {
    hide Parse;
    var s := FeedAll(events);
    FeedAllKeeps(events);
    ParseFlatten(s.frames, s.reader.line + s.reader.unread, s.reader.closed);
    assert s.frames + [] == s.frames;
    if events != [] && events[|events| - 1] == Read && s.last.Pending? {
      var before := FeedAll(events[..|events| - 1]);
      FeedAllKeeps(events[..|events| - 1]);
      PollExact(before.reader);
      PollPending(before.reader);
    }
  }

  // A pending poll leaves nothing unread.
  lemma PollPending(r: Reader)
    requires ReaderOk(r) && PollOnce(r).1.Pending?
    ensures var next := PollOnce(r).0; next.unread == [] && Parse(next.line + next.unread, r.closed) == Parsed([], Waiting(next.line))
  {
    hide Parse, Taken;
    PollLine(r);
    ParseLine(r.line + r.unread, r.closed);
    assert r.unread[..|r.unread|] == r.unread;
    var next := PollOnce(r).0;
    assert next.line + [] == next.line;
  }

  /** Two schedules that brought the same bytes and drained them delivered the same frames. */
  lemma ChunkingIrrelevant(a: seq<InputEvent>, b: seq<InputEvent>)
    requires a != [] && b != [] && a[|a| - 1] == Read && b[|b| - 1] == Read
    requires FeedAll(a).arrived == FeedAll(b).arrived && FeedAll(a).reader.closed == FeedAll(b).reader.closed
    requires !FeedAll(a).last.Frame? && !FeedAll(b).last.Frame?
    ensures FeedAll(a).frames == FeedAll(b).frames && FeedAll(a).last == FeedAll(b).last
  {
    hide Parse, FeedAll;
    FramingExact(a);
    FramingExact(b);
  }
}
