/**
 One streaming client (app/daemon/http_server.c): the send loop, the multipart
 parts, and what a reader makes of the bytes that arrived.

 A char stands for one byte on the wire.
 */
module ClientStream {
  import opened CTypes
  import opened Decimal
  import opened EventLog
  import opened SharedState

  // ------------------------------------------------------------- the wire format

  const STREAM_HEADER :=
    "HTTP/1.1 200 OK\r\nContent-Type: multipart/x-mixed-replace; boundary=frame\r\n"
    + "Cache-Control: no-store, no-cache, must-revalidate\r\nPragma: no-cache\r\nConnection: close\r\n\r\n"
  const PART_START := "--frame\r\nContent-Type: image/jpeg\r\nContent-Length: "
  const HEADER_END := "\r\n\r\n"
  const PART_END := "\r\n"
  const PART_HEADER_BUFFER := 160

  function AsText(bytes: seq<Byte>): (text: string)
    ensures |text| == |bytes| && forall i :: 0 <= i < |bytes| ==> text[i] == bytes[i] as char
  {
    seq(|bytes|, i requires 0 <= i < |bytes| => bytes[i] as char)
  }

  function PartHeader(size: nat): string {
    PART_START + Numeral(size) + HEADER_END
  }

  function Part(frame: string): string {
    PartHeader(|frame|) + frame + PART_END
  }

  function Parts(frames: seq<string>): string {
    if frames == [] then "" else Part(frames[0]) + Parts(frames[1..])
  }

  // ---------------------------------------------------------- reading the stream

  datatype PartRead = PartRead(frame: string, rest: string)

  /** The part a text starts with, if it is complete; the length decides where it ends. */
  function ReadPart(s: string): (r: Option<PartRead>)
    ensures r.Some? ==> |r.value.rest| < |s|
  {
    if !(PART_START <= s) then None
    else
      var t := s[|PART_START|..];
      var k := DigitRun(t);
      if k == 0 || !(HEADER_END <= t[k..]) then None
      else ReadContent(t[k..][|HEADER_END|..], ValueOf(t[..k]))
  }

  function ReadContent(u: string, n: nat): (r: Option<PartRead>)
    ensures r.Some? ==> |r.value.rest| <= |u|
  {
    if |u| < n + |PART_END| || u[n..n + |PART_END|] != PART_END then None
    else Some(PartRead(u[..n], u[n + |PART_END|..]))
  }

  function ReadParts(s: string): seq<string>
    decreases |s|
  {
    match ReadPart(s)
    case None => []
    case Some(PartRead(frame, rest)) => [frame] + ReadParts(rest)
  }

  lemma ReadContentBack(frame: string, rest: string)
    ensures ReadContent(frame + PART_END + rest, |frame|) == Some(PartRead(frame, rest))
  {
    var u := frame + PART_END + rest;
    Joined(frame, PART_END, rest);
    assert u[..|frame|] == frame && u[|frame|..|frame| + |PART_END|] == PART_END;
    assert u[|frame| + |PART_END|..] == rest;
  }

  lemma HeaderEndIsNoDigit()
    ensures HEADER_END != "" && !IsDigit(HEADER_END[0])
  {
  }

  /** A header is a fixed start, digits, and an end that is no digit. */
  lemma ReadHeaderBack(digits: string, u: string)
    requires digits != "" && AllDigits(digits)
    ensures ReadPart(PART_START + digits + HEADER_END + u) == ReadContent(u, ValueOf(digits))
  {
    var start, end := PART_START, HEADER_END;
    var s, t := start + digits + end + u, digits + (end + u);
    Joined(start + digits, end, u);
    Joined(start, digits, end + u);
    assert s[|start|..] == t && start <= s;
    HeaderEndIsNoDigit();
    DigitRunOf(digits, end + u);
    assert t[..|digits|] == digits && t[|digits|..] == end + u;
    assert (end + u)[|end|..] == u;
  }

  lemma PartLayout(frame: string, rest: string)
    ensures Part(frame) + rest == PART_START + Numeral(|frame|) + HEADER_END + (frame + PART_END + rest)
  {
    var header := PartHeader(|frame|);
    Joined(header, frame, PART_END);
    Joined(header, frame + PART_END, rest);
  }

  /** Whatever a frame contains, the boundary included, it reads back as itself. */
  lemma ReadPartBack(frame: string, rest: string)
    ensures ReadPart(Part(frame) + rest) == Some(PartRead(frame, rest))
  {
    PartLayout(frame, rest);
    ReadHeaderBack(Numeral(|frame|), frame + PART_END + rest);
    NumeralValue(|frame|);
    ReadContentBack(frame, rest);
  }

  lemma ReadContentStable(u: string, n: nat, more: string)
    requires ReadContent(u, n).Some?
    ensures var r := ReadContent(u, n).value;
            ReadContent(u + more, n) == Some(PartRead(r.frame, r.rest + more))
  {
    var m := n + |PART_END|;
    assert (u + more)[..n] == u[..n] && (u + more)[n..m] == u[n..m] && (u + more)[m..] == u[m..] + more;
  }

  lemma StartsWith(s: string, start: string)
    requires start <= s
    ensures s == start + s[|start|..]
  {
  }

  /** What a text that starts with a part looks like. */
  lemma PartShape(s: string) returns (digits: string, u: string)
    requires ReadPart(s).Some?
    ensures digits != "" && AllDigits(digits) && s == PART_START + digits + HEADER_END + u
    ensures ReadPart(s) == ReadContent(u, ValueOf(digits))
  {
    var start, end := PART_START, HEADER_END;
    var t := s[|start|..];
    var k := DigitRun(t);
    digits, u := t[..k], t[k..][|end|..];
    StartsWith(s, start);
    StartsWith(t, digits);
    StartsWith(t[k..], end);
    Joined(start, digits, end + u);
    Joined(start + digits, end, u);
  }

  /** Bytes that arrive later never change a part already read. */
  lemma ReadPartStable(s: string, more: string)
    requires ReadPart(s).Some?
    ensures var r := ReadPart(s).value;
            ReadPart(s + more) == Some(PartRead(r.frame, r.rest + more))
  {
    var digits, u := PartShape(s);
    Joined(PART_START + digits + HEADER_END, u, more);
    ReadHeaderBack(digits, u + more);
    ReadContentStable(u, ValueOf(digits), more);
  }

  lemma NotEmpty(a: string, b: string)
    requires b != ""
    ensures a + b != ""
  {
    assert |a + b| > 0;
  }

  /** A part that was cut off anywhere is not read. */
  lemma CutPartIsNotRead(frame: string, cut: string)
    requires cut < Part(frame)
    ensures ReadPart(cut) == None
  {
    var more := Part(frame)[|cut|..];
    assert cut + more == Part(frame) == Part(frame) + "";
    ReadPartBack(frame, "");
    if ReadPart(cut).Some? {
      NotEmpty(ReadPart(cut).value.rest, more);
      ReadPartStable(cut, more);
    }
  }

  lemma ReadPartsStep(s: string, frame: string, rest: string)
    requires ReadPart(s) == Some(PartRead(frame, rest))
    ensures ReadParts(s) == [frame] + ReadParts(rest)
  {
  }

  /**
   A reader that goes by Content-Length gets exactly the frames whose parts were
   sent whole, in order and byte for byte, and nothing of a part cut short.
   */
  lemma {:induction false} StreamDecodes(frames: seq<string>, last: string, cut: string)
    requires cut < Part(last)
    ensures ReadParts(Parts(frames) + cut) == frames
  {
    if frames == [] {
      assert "" + cut == cut;
      CutPartIsNotRead(last, cut);
    } else {
      Joined(Part(frames[0]), Parts(frames[1..]), cut);
      ReadPartBack(frames[0], Parts(frames[1..]) + cut);
      ReadPartsStep(Parts(frames) + cut, frames[0], Parts(frames[1..]) + cut);
      StreamDecodes(frames[1..], last, cut);
      assert frames == [frames[0]] + frames[1..];
    }
  }

  lemma {:induction false} PartsSnoc(frames: seq<string>, frame: string)
    ensures Parts(frames + [frame]) == Parts(frames) + Part(frame)
  {
    if frames == [] {
      assert frames + [frame] == [frame] && [frame][1..] == [];
      assert "" + Part(frame) == Part(frame) == Part(frame) + "";
    } else {
      PartsSnoc(frames[1..], frame);
      assert (frames + [frame])[0] == frames[0] && (frames + [frame])[1..] == frames[1..] + [frame];
      Joined(Part(frames[0]), Parts(frames[1..]), Part(frame));
    }
  }

  /** The response declares a boundary, and every part starts with it and says what it is. */
  lemma BoundaryIsDeclared(frame: string)
    ensures "HTTP/1.1 200 OK\r\nContent-Type: multipart/x-mixed-replace; boundary=frame\r\n" <= STREAM_HEADER
    ensures STREAM_HEADER[|STREAM_HEADER| - 4..] == "\r\n\r\n"
    ensures Part(frame)
         == "--frame\r\nContent-Type: image/jpeg\r\nContent-Length: " + Numeral(|frame|) + "\r\n\r\n"
            + (frame + "\r\n")
  {
    PartLayout(frame, "");
    assert Part(frame) + "" == Part(frame) && frame + PART_END + "" == frame + PART_END;
  }

  /** The 160-byte buffer holds the header of every frame a 64-bit size_t can measure. */
  lemma PartHeaderFits(size: nat)
    requires size <= UINT64_MAX
    ensures |PartHeader(size)| < PART_HEADER_BUFFER
  {
    assert Pow10(10) == 10000000000;
    assert Pow10(20) == 100000000000000000000;
    NumeralLength(size, 20);
  }

  // ------------------------------------------------------------------- the client

  /** The kernel's answers to the three sends of one part. */
  datatype PartAnswers = PartAnswers(header: seq<WriteOutcome>, body: seq<WriteOutcome>, end: seq<WriteOutcome>)

  /** The kernel takes all of a part, in whatever pieces. */
  predicate Accepts(answers: PartAnswers, frame: string) {
    && |PartHeader(|frame|)| < PART_HEADER_BUFFER && TakenInAll(answers.header) >= |PartHeader(|frame|)|
    && TakenInAll(answers.body) >= |frame| && TakenInAll(answers.end) >= |PART_END|
  }

  /** The buffer never decides: a part of any 64-bit size gets through exactly if the kernel takes its bytes. */
  lemma KernelDecides(answers: PartAnswers, frame: string)
    requires |frame| <= UINT64_MAX
    ensures Accepts(answers, frame) <==>
              && !(TakenInAll(answers.header) < |PartHeader(|frame|)|)
              && !(TakenInAll(answers.body) < |frame|) && !(TakenInAll(answers.end) < 2)
  {
    PartHeaderFits(|frame|);
  }

  /** One round of the stream loop: what others do first, the wait, memory, the sends. */
  datatype Round = Round(changes: seq<Change>, wakes: seq<Wake>, memory: bool, answers: PartAnswers)

  const NO_COPY := StreamCopy([], 0, 0)

  /** The course of a round: the wakes its wait saw, the state it left, what it answered. */
  datatype Visit = Visit(wakes: nat, after: AppView, take: StreamTake)

  /** What the stop check and the wait make of a round that finds state `a` and the client's copy `c`. */
  predicate Visits(a: AppView, c: StreamCopy, round: Round, v: Visit) {
    var checked := AllChanged(a, round.changes);
    if Stopping(checked.slot) then v == Visit(0, checked, StreamTake(StreamEnd, c))
    else
      && v.wakes <= |round.wakes| && v.after == AllChanged(checked, Seen(round.wakes, v.wakes))
      && StreamWaited(checked, round.wakes, v.wakes, c.sequence)
      && v.take == StreamAnswer(v.after.slot, c, round.wakes, v.wakes, round.memory)
  }

  function StateAfter(a: AppView, visits: seq<Visit>): AppView {
    if visits == [] then a else visits[|visits| - 1].after
  }

  function CopyAfter(visits: seq<Visit>): StreamCopy {
    if visits == [] then NO_COPY else visits[|visits| - 1].take.copy
  }

  /** The loop has not been told to end. */
  predicate GoesOn(visits: seq<Visit>) {
    visits != [] ==> visits[|visits| - 1].take.code in {StreamTimeout, StreamFrame}
  }

  /** The loop's rounds, one after the other. */
  predicate Course(a: AppView, rounds: seq<Round>, visits: seq<Visit>) {
    && |visits| <= |rounds|
    && (visits != [] ==>
          var n := |visits| - 1;
          && Course(a, rounds, visits[..n]) && GoesOn(visits[..n])
          && Visits(StateAfter(a, visits[..n]), CopyAfter(visits[..n]), rounds[n], visits[n]))
  }

  /** The copies taken in a course. */
  function Taken(visits: seq<Visit>): seq<StreamCopy> {
    if visits == [] then []
    else
      var n := |visits| - 1;
      Taken(visits[..n]) + if visits[n].take.code == StreamFrame then [visits[n].take.copy] else []
  }

  lemma CourseSnoc(a: AppView, rounds: seq<Round>, visits: seq<Visit>, v: Visit)
    requires Course(a, rounds, visits) && GoesOn(visits) && |visits| < |rounds|
    requires Visits(StateAfter(a, visits), CopyAfter(visits), rounds[|visits|], v)
    ensures Course(a, rounds, visits + [v])
    ensures Taken(visits + [v]) == Taken(visits) + if v.take.code == StreamFrame then [v.take.copy] else []
  {
    OneMore(visits, v);
    CourseOf(a, rounds, visits, v, visits + [v]);
    TakenOf(visits, v, visits + [v]);
  }

  /** One more item behind a sequence. */
  predicate Extends(all: seq<Visit>, visits: seq<Visit>, v: Visit) {
    |all| == |visits| + 1 && all[..|visits|] == visits && all[|visits|] == v
  }

  lemma OneMore(visits: seq<Visit>, v: Visit)
    ensures Extends(visits + [v], visits, v)
  {
  }

  lemma CourseOf(a: AppView, rounds: seq<Round>, visits: seq<Visit>, v: Visit, all: seq<Visit>)
    requires Extends(all, visits, v) && |visits| < |rounds|
    requires Course(a, rounds, visits) && GoesOn(visits)
    requires Visits(StateAfter(a, visits), CopyAfter(visits), rounds[|visits|], v)
    ensures Course(a, rounds, all)
  {
  }

  lemma TakenOf(visits: seq<Visit>, v: Visit, all: seq<Visit>)
    requires Extends(all, visits, v)
    ensures Taken(all) == Taken(visits) + if v.take.code == StreamFrame then [v.take.copy] else []
  {
  }

  class Connection {
    var received: string

    constructor ()
      ensures received == ""
    {
      received := "";
    }

    /** send_all: EINTR is retried, an error or a send of nothing ends it. */
    method SendAll(data: string, answers: seq<WriteOutcome>) returns (ok: bool)
      modifies this
      ensures received == old(received) + data[..Min(|data|, TakenInAll(answers))]
      ensures ok == (TakenInAll(answers) >= |data|)
    {
      ShortWritesAddUp(|data|, answers);
      var cursor, length, next := 0, |data|, 0;
      while length > 0
        invariant 0 <= cursor && 0 <= length && cursor + length == |data| && next <= |answers|
        invariant received == old(received) + data[..cursor]
        invariant Appended(|data|, answers) == cursor + Appended(length, answers[next..])
        decreases |answers| - next
      {
        if next == |answers| {
          return false;
        }
        var answer := answers[next];
        next := next + 1;
        assert answers[next - 1..][1..] == answers[next..];
        match answer {
          case Interrupted =>
          case Fails => return false;
          case Takes(count) =>
            if count == 0 {
              return false;
            }
            var sent := Min(count, length);
            assert data[..cursor] + data[cursor..cursor + sent] == data[..cursor + sent];
            received := received + data[cursor..cursor + sent];
            cursor, length := cursor + sent, length - sent;
        }
      }
      return true;
    }

    /** Header, frame, line end; what arrived is the part, or a beginning of it if the kernel takes no more. */
    method SendPart(frame: string, answers: PartAnswers) returns (ok: bool, ghost cut: string)
      modifies this
      ensures received == old(received) + cut
      ensures if ok then cut == Part(frame) else cut < Part(frame)
      ensures ok <==> Accepts(answers, frame)
    {
      var header := PartHeader(|frame|);
      cut := "";
      assert PART_START <= header + frame + PART_END && |PART_START| > 0;
      assert received == old(received) + cut;
      if |header| >= PART_HEADER_BUFFER {
        return false, cut;
      }
      ok := SendAll(header, answers.header);
      cut := header[..Min(|header|, TakenInAll(answers.header))];
      if !ok {
        assert cut < header + frame + PART_END;
        return false, cut;
      }
      assert cut == header;
      ok := SendAll(frame, answers.body);
      ghost var sent := frame[..Min(|frame|, TakenInAll(answers.body))];
      Joined(old(received), header, sent);
      cut := header + sent;
      if !ok {
        assert cut < header + frame + PART_END;
        return false, cut;
      }
      assert sent == frame;
      ok := SendAll(PART_END, answers.end);
      sent := PART_END[..Min(|PART_END|, TakenInAll(answers.end))];
      Joined(old(received), header + frame, sent);
      cut := header + frame + sent;
    }
  }

  /** The frames of the delivered copies, as they go over the wire. */
  function Frames(delivered: seq<StreamCopy>): (frames: seq<string>)
    ensures |frames| == |delivered|
  {
    if delivered == [] then []
    else Frames(delivered[..|delivered| - 1]) + [AsText(delivered[|delivered| - 1].bytes)]
  }

  predicate Ascending(delivered: seq<StreamCopy>, last: Uint64) {
    && (forall i, j :: 0 <= i < j < |delivered| ==> delivered[i].sequence < delivered[j].sequence)
    && (forall i :: 0 <= i < |delivered| ==> delivered[i].sequence <= last)
  }

  /** What a client that was sent `delivered` has received, up to a part cut short. */
  predicate Arrived(received: string, before: string, delivered: seq<StreamCopy>, last: string, cut: string) {
    cut < Part(last) && received == before + STREAM_HEADER + (Parts(Frames(delivered)) + cut)
  }

  lemma AscendingSnoc(delivered: seq<StreamCopy>, copy: StreamCopy)
    requires Ascending(delivered, UINT64_MAX)
    requires forall i :: 0 <= i < |delivered| ==> delivered[i].sequence < copy.sequence
    ensures Ascending(delivered, copy.sequence) && Ascending(delivered + [copy], copy.sequence)
  {
  }

  lemma NothingArrived(before: string)
    ensures Arrived(before + STREAM_HEADER, before, [], "", "")
  {
    assert |Part("")| > 0;
    assert Parts(Frames([])) + "" == "";
    assert before + STREAM_HEADER + "" == before + STREAM_HEADER;
  }

  lemma PartArrived(received: string, before: string, delivered: seq<StreamCopy>, last: string, copy: StreamCopy,
                    cut: string)
    requires Arrived(received, before, delivered, last, "")
    ensures cut < Part(AsText(copy.bytes)) ==> Arrived(received + cut, before, delivered, AsText(copy.bytes), cut)
    ensures Arrived(received + Part(AsText(copy.bytes)), before, delivered + [copy], last, "")
  {
    var frame, parts, start := AsText(copy.bytes), Parts(Frames(delivered)), before + STREAM_HEADER;
    assert parts + "" == parts;
    Joined(start, parts, cut);
    Joined(start, parts, Part(frame));
    assert (delivered + [copy])[..|delivered|] == delivered;
    assert Frames(delivered + [copy]) == Frames(delivered) + [frame];
    PartsSnoc(Frames(delivered), frame);
    assert parts + Part(frame) + "" == parts + Part(frame);
  }

  /** The stop check and the wait; a frame that is taken is newer than the one before. */
  method NextFrame(app: AppState, client: StreamBuffer, round: Round) returns (code: StreamCode, ghost visit: Visit)
    requires app.Valid() && client.Valid() && client.data != app.frame
    modifies app, app.frame, client, client.data
    ensures app.Valid() && client.Valid() && client.data != app.frame
    ensures app.frame == old(app.frame) || fresh(app.frame)
    ensures client.data == old(client.data) || fresh(client.data)
    ensures if code == StreamFrame
            then client.sequence > old(client.sequence) && client.View().bytes == app.View().slot.frame
                 && client.sequence == app.View().slot.sequence
            else client.View() == old(client.View())
    ensures Visits(old(app.View()), old(client.View()), round, visit)
    ensures visit.after == app.View() && visit.take == StreamTake(code, client.View())
  {
    app.ApplyAll(round.changes);
    var stopping := app.ShouldStop();
    if stopping {
      return StreamEnd, Visit(0, app.View(), StreamTake(StreamEnd, client.View()));
    }
    ghost var n;
    code, n := app.WaitFrame(client, round.wakes, round.memory);
    visit := Visit(n, app.View(), StreamTake(code, client.View()));
  }

  /** The next round of a course. */
  method FollowRound(app: AppState, client: StreamBuffer, rounds: seq<Round>, next: nat, ghost start: AppView,
                     ghost visits: seq<Visit>)
    returns (code: StreamCode, ghost visits': seq<Visit>)
    requires app.Valid() && client.Valid() && client.data != app.frame
    requires next == |visits| < |rounds| && Course(start, rounds, visits) && GoesOn(visits)
    requires app.View() == StateAfter(start, visits) && client.View() == CopyAfter(visits)
    modifies app, app.frame, client, client.data
    ensures app.Valid() && client.Valid() && client.data != app.frame
    ensures app.frame == old(app.frame) || fresh(app.frame)
    ensures client.data == old(client.data) || fresh(client.data)
    ensures |visits'| == next + 1 && Course(start, rounds, visits')
    ensures app.View() == StateAfter(start, visits') && client.View() == CopyAfter(visits')
    ensures GoesOn(visits') <==> code in {StreamTimeout, StreamFrame}
    ensures visits'[next].take.code == code
    ensures Taken(visits') == Taken(visits) + if code == StreamFrame then [client.View()] else []
    ensures if code == StreamFrame then client.sequence > old(client.sequence)
            else client.sequence == old(client.sequence)
  {
    ghost var visit;
    code, visit := NextFrame(app, client, rounds[next]);
    CourseSnoc(start, rounds, visits, visit);
    visits' := visits + [visit];
  }

  /** Send the copy just taken. */
  method SendCopy(client: StreamBuffer, conn: Connection, answers: PartAnswers, ghost before: string,
                  ghost delivered: seq<StreamCopy>, ghost last: string)
    returns (ok: bool, ghost delivered': seq<StreamCopy>, ghost last': string, ghost cut: string)
    requires client.Valid() && Arrived(conn.received, before, delivered, last, "")
    requires Ascending(delivered, UINT64_MAX)
    requires forall i :: 0 <= i < |delivered| ==> delivered[i].sequence < client.sequence
    modifies conn
    ensures Arrived(conn.received, before, delivered', last', cut)
    ensures delivered' == if ok then delivered + [client.View()] else delivered
    ensures if ok then cut == "" else last' == AsText(client.View().bytes)
    ensures ok <==> Accepts(answers, AsText(client.View().bytes))
    ensures Ascending(delivered', client.sequence)
  {
    ghost var copy, received := client.View(), conn.received;
    AscendingSnoc(delivered, copy);
    ok, cut := conn.SendPart(AsText(client.data[..client.size]), answers);
    PartArrived(received, before, delivered, last, copy, cut);
    last' := if ok then last else AsText(copy.bytes);
    delivered' := if ok then delivered + [copy] else delivered;
    cut := if ok then "" else cut;
  }

  /** Every copy taken was sent, but for the last if its part was cut short. */
  predicate SentOf(delivered: seq<StreamCopy>, taken: seq<StreamCopy>, last: string, cut: string) {
    || (taken == delivered && cut == "")
    || (taken != [] && delivered == taken[..|taken| - 1] && last == AsText(taken[|taken| - 1].bytes))
  }

  lemma LastIsCut(delivered: seq<StreamCopy>, copy: StreamCopy, cut: string)
    ensures SentOf(delivered, delivered + [copy], AsText(copy.bytes), cut)
  {
  }

  /** Where the loop stands between two rounds: all that was taken has been sent. */
  predicate Serving(start: AppView, rounds: seq<Round>, visits: seq<Visit>, view: AppView, copy: StreamCopy,
                    delivered: seq<StreamCopy>)
  {
    && Course(start, rounds, visits) && GoesOn(visits) && view == StateAfter(start, visits)
    && copy == CopyAfter(visits) && Taken(visits) == delivered && Ascending(delivered, copy.sequence)
  }

  /** Where it can end. */
  predicate Served(start: AppView, rounds: seq<Round>, visits: seq<Visit>, view: AppView, delivered: seq<StreamCopy>,
                   last: string, cut: string)
  {
    && Course(start, rounds, visits) && view == StateAfter(start, visits)
    && SentOf(delivered, Taken(visits), last, cut) && Ascending(delivered, UINT64_MAX)
  }

  /** The wait or the kernel ended the stream: the stop, an error, no memory, or a part not taken whole. */
  predicate EndsStream(round: Round, v: Visit) {
    || v.take.code == StreamEnd || v.take.code == StreamNoMemory
    || (v.take.code == StreamFrame && !Accepts(round.answers, AsText(v.take.copy.bytes)))
  }

  /** The loop goes through all its rounds unless one ends the stream. */
  predicate RanOut(rounds: seq<Round>, visits: seq<Visit>) {
    || |visits| == |rounds|
    || (0 < |visits| < |rounds| && EndsStream(rounds[|visits| - 1], visits[|visits| - 1]))
  }

  /** The part of the frame just taken. */
  method SendTaken(app: AppState, client: StreamBuffer, conn: Connection, answers: PartAnswers, rounds: seq<Round>,
                   ghost start: AppView, ghost visits: seq<Visit>, ghost before: string,
                   ghost delivered: seq<StreamCopy>, ghost last: string)
    returns (more: bool, ghost delivered': seq<StreamCopy>, ghost last': string, ghost cut: string)
    requires app.Valid() && client.Valid() && Arrived(conn.received, before, delivered, last, "")
    requires Course(start, rounds, visits) && GoesOn(visits) && app.View() == StateAfter(start, visits)
    requires client.View() == CopyAfter(visits) && Taken(visits) == delivered + [client.View()]
    requires Ascending(delivered, UINT64_MAX)
    requires forall i :: 0 <= i < |delivered| ==> delivered[i].sequence < client.sequence
    modifies conn
    ensures Arrived(conn.received, before, delivered', last', cut)
    ensures more <==> Accepts(answers, AsText(CopyAfter(visits).bytes))
    ensures more ==> cut == "" && Serving(start, rounds, visits, app.View(), client.View(), delivered')
    ensures Served(start, rounds, visits, app.View(), delivered', last', cut)
  {
    more, delivered', last', cut := SendCopy(client, conn, answers, before, delivered, last);
    CopyServed(start, rounds, visits, app.View(), client.View(), delivered, last', cut);
  }

  /** One round: the wait, and the part if a frame was taken. */
  method ServeRound(app: AppState, client: StreamBuffer, conn: Connection, rounds: seq<Round>, next: nat,
                    ghost start: AppView, ghost visits: seq<Visit>, ghost before: string,
                    ghost delivered: seq<StreamCopy>, ghost last: string)
    returns (more: bool, ghost visits': seq<Visit>, ghost delivered': seq<StreamCopy>, ghost last': string,
             ghost cut: string)
    requires app.Valid() && client.Valid() && client.data != app.frame && next == |visits| < |rounds|
    requires Serving(start, rounds, visits, app.View(), client.View(), delivered)
    requires Arrived(conn.received, before, delivered, last, "")
    modifies app, app.frame, client, client.data, conn
    ensures app.Valid() && client.Valid() && client.data != app.frame && |visits'| == next + 1
    ensures app.frame == old(app.frame) || fresh(app.frame)
    ensures client.data == old(client.data) || fresh(client.data)
    ensures Arrived(conn.received, before, delivered', last', cut)
    ensures more <==> !EndsStream(rounds[next], visits'[next])
    ensures more ==> cut == "" && Serving(start, rounds, visits', app.View(), client.View(), delivered')
    ensures Served(start, rounds, visits', app.View(), delivered', last', cut)
  {
    delivered', last', cut := delivered, last, "";
    var code;
    code, visits' := FollowRound(app, client, rounds, next, start, visits);
    if code == StreamFrame {
      more, delivered', last', cut := SendTaken(app, client, conn, rounds[next].answers, rounds, start, visits', before,
                                                delivered, last);
    } else {
      more := code == StreamTimeout;
      NothingTaken(start, rounds, visits', app.View(), client.View(), delivered, last);
    }
    RoundEnds(rounds[next], visits', code, more);
  }

  lemma RoundEnds(round: Round, visits: seq<Visit>, code: StreamCode, more: bool)
    requires visits != [] && visits[|visits| - 1].take.code == code
    requires more == if code == StreamFrame then Accepts(round.answers, AsText(CopyAfter(visits).bytes))
                     else code == StreamTimeout
    ensures more <==> !EndsStream(round, visits[|visits| - 1])
  {
  }

  lemma NothingTaken(start: AppView, rounds: seq<Round>, visits: seq<Visit>, view: AppView, copy: StreamCopy,
                     delivered: seq<StreamCopy>, last: string)
    requires Course(start, rounds, visits) && view == StateAfter(start, visits) && copy == CopyAfter(visits)
    requires Taken(visits) == delivered && Ascending(delivered, copy.sequence)
    ensures Served(start, rounds, visits, view, delivered, last, "")
    ensures GoesOn(visits) ==> Serving(start, rounds, visits, view, copy, delivered)
  {
  }

  lemma CopyServed(start: AppView, rounds: seq<Round>, visits: seq<Visit>, view: AppView, copy: StreamCopy,
                   delivered: seq<StreamCopy>, last: string, cut: string)
    requires Course(start, rounds, visits) && view == StateAfter(start, visits) && copy == CopyAfter(visits)
    requires Taken(visits) == delivered + [copy] && GoesOn(visits)
    requires Ascending(delivered, UINT64_MAX)
    requires forall i :: 0 <= i < |delivered| ==> delivered[i].sequence < copy.sequence
    ensures Serving(start, rounds, visits, view, copy, delivered + [copy])
    ensures Served(start, rounds, visits, view, delivered + [copy], last, "")
    ensures last == AsText(copy.bytes) ==> Served(start, rounds, visits, view, delivered, last, cut)
  {
    AscendingSnoc(delivered, copy);
    LastIsCut(delivered, copy, cut);
  }

  /** The loop of handle_stream, behind the stream header. */
  method StreamLoop(app: AppState, conn: Connection, rounds: seq<Round>, ghost before: string)
    returns (ghost delivered: seq<StreamCopy>, ghost last: string, ghost cut: string, ghost visits: seq<Visit>)
    requires app.Valid() && Arrived(conn.received, before, [], "", "")
    modifies app, app.frame, conn
    ensures app.Valid() && (app.frame == old(app.frame) || fresh(app.frame))
    ensures Arrived(conn.received, before, delivered, last, cut)
    ensures Served(old(app.View()), rounds, visits, app.View(), delivered, last, cut) && RanOut(rounds, visits)
  {
    delivered, last, cut, visits := [], "", "", [];
    ghost var start := app.View();
    var client := new StreamBuffer();
    var next, more := 0, true;
    while more && next < |rounds|
      invariant app.Valid() && (app.frame == old(app.frame) || fresh(app.frame))
      invariant client.Valid() && fresh(client) && fresh(client.data) && client.data != app.frame
      invariant |visits| == next <= |rounds| && Arrived(conn.received, before, delivered, last, cut)
      invariant more ==> cut == "" && Serving(start, rounds, visits, app.View(), client.View(), delivered)
      invariant Served(start, rounds, visits, app.View(), delivered, last, cut)
      invariant !more ==> visits != [] && EndsStream(rounds[|visits| - 1], visits[|visits| - 1])
      decreases |rounds| - next
    {
      more, visits, delivered, last, cut :=
        ServeRound(app, client, conn, rounds, next, start, visits, before, delivered, last);
      next := next + 1;
    }
  }

  /**
   handle_stream.  `delivered` are the copies whose parts were sent whole; their
   sequence numbers ascend, and what arrived is their parts in that order and at
   most a beginning of one more.  The rounds take their course, and what they take
   is what was delivered and at most that one more.
   */
  method HandleStream(app: AppState, conn: Connection, headerAnswers: seq<WriteOutcome>, rounds: seq<Round>)
    returns (ghost delivered: seq<StreamCopy>, ghost last: string, ghost cut: string, ghost visits: seq<Visit>)
    requires app.Valid()
    modifies app, app.frame, conn
    ensures app.Valid() && (app.frame == old(app.frame) || fresh(app.frame))
    ensures Ascending(delivered, UINT64_MAX)
    ensures Arrived(conn.received, old(conn.received), delivered, last, cut)
         || (delivered == [] &&
             exists n: nat :: n < |STREAM_HEADER| && conn.received == old(conn.received) + STREAM_HEADER[..n])
    ensures Course(ClientsCounted(old(app.View()), 1), rounds, visits)
    ensures SentOf(delivered, Taken(visits), last, cut)
    ensures if TakenInAll(headerAnswers) < |STREAM_HEADER| then visits == [] && app.View() == old(app.View())
            else
              && RanOut(rounds, visits) && Arrived(conn.received, old(conn.received), delivered, last, cut)
              && app.View() == ClientsCounted(StateAfter(ClientsCounted(old(app.View()), 1), visits), -1)
  {
    delivered, last, cut, visits := [], "", "", [];
    var ok := conn.SendAll(STREAM_HEADER, headerAnswers);
    if !ok {
      return;
    }
    ghost var before := old(conn.received);
    NothingArrived(before);
    app.StreamClientDelta(1);
    delivered, last, cut, visits := StreamLoop(app, conn, rounds, before);
    app.StreamClientDelta(-1);
  }
}
