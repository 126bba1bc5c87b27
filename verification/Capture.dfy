/**
 A capture session (app/daemon/capture_v4l2.c).  The kernel's answers are
 arbitrary; what the program asks of it is recorded as a trace, and a session is
 judged by an automaton that knows which buffer belongs to whom.
 */
module Capture {
  import opened CTypes
  import opened SharedState

  const BUFFER_COUNT := 4

  /** What the program did, as seen from outside. */
  datatype Event =
    | Opened(device: string)
    | Mapped(index: nat)
    | Queued(index: nat)
    | StreamedOn
    | Activated(generation: Uint64, shown: string)
    | Dequeued(index: nat, bytes: seq<Byte>)
    | Published(index: nat, bytes: seq<Byte>, generation: Uint64, camera: CameraState)
    | StreamedOff
    | Unmapped(index: nat)
    | Closed

  /**
   The resources held; `queued` are the mapped buffers the driver owns,
   `delivered` is what it left in the buffer that was dequeued; `device` is the
   node that was selected.
   */
  datatype Session = Session(open: bool, mapped: set<nat>, queued: set<nat>, streaming: bool, active: Option<Uint64>,
                             delivered: seq<Byte>, device: string)

  const NO_SESSION := Session(false, {}, {}, false, None, [], "")

  function OpenSession(device: string): Session {
    NO_SESSION.(open := true, device := device)
  }

  /** The buffers the program owns. */
  function Held(s: Session): set<nat> {
    s.mapped - s.queued
  }

  /** The protocol: when an event is in order, and what it leads to. */
  function After(s: Session, e: Event): Option<Session> {
    match e
    case Opened(device) => if s == NO_SESSION then Some(OpenSession(device)) else None
    case Mapped(i) =>
      if s.open && !s.streaming && i < BUFFER_COUNT && i !in s.mapped then Some(s.(mapped := s.mapped + {i})) else None
    case Queued(i) => if s.open && i in Held(s) then Some(s.(queued := s.queued + {i}, delivered := [])) else None
    case StreamedOn =>
      if s.open && !s.streaming && Held(s) == {} && s.active.None? then Some(s.(streaming := true)) else None
    case Activated(g, shown) =>
      if s.streaming && s.active.None? && shown == CopyText(DEVICE_MAX, s.device)
      then Some(s.(active := Some(g))) else None
    case Dequeued(i, bytes) =>
      if s.streaming && s.active.Some? && i in s.queued && Held(s) == {}
      then Some(s.(queued := s.queued - {i}, delivered := bytes)) else None
    case Published(i, bytes, g, camera) =>
      if s.streaming && s.active == Some(g) && camera == CameraActive
         && i in Held(s) && bytes == s.delivered && LooksLikeJpeg(bytes) then Some(s) else None
    case StreamedOff =>
      if s.streaming then Some(s.(streaming := false, queued := {}, active := None, delivered := [])) else None
    case Unmapped(i) =>
      if s.open && !s.streaming && i in s.mapped
      then Some(s.(mapped := s.mapped - {i}, queued := s.queued - {i})) else None
    case Closed => if s.open && !s.streaming && s.mapped == {} then Some(NO_SESSION) else None
  }

  function Play(trace: seq<Event>): Option<Session> {
    if trace == [] then Some(NO_SESSION)
    else
      match Play(trace[..|trace| - 1])
      case None => None
      case Some(s) => After(s, trace[|trace| - 1])
  }

  /** The frames a trace hands over, with their sessions. */
  function Handed(trace: seq<Event>): seq<Picture> {
    if trace == [] then []
    else
      var n := |trace| - 1;
      Handed(trace[..n]) + if trace[n].Published? then [Picture(trace[n].bytes, trace[n].generation)] else []
  }

  lemma HandedSnoc(trace: seq<Event>, e: Event)
    ensures Handed(trace + [e]) == Handed(trace) + if e.Published? then [Picture(e.bytes, e.generation)] else []
  {
    assert (trace + [e])[..|trace|] == trace;
  }

  /** Something was recorded, but no frame handed over. */
  predicate Quiet(before: seq<Event>, after: seq<Event>) {
    before <= after && Handed(after) == Handed(before)
  }

  // -------------------------------------------------- what the automaton promises

  predicate Orderly(s: Session) {
    && s.queued <= s.mapped
    && (forall i :: i in s.mapped ==> i < BUFFER_COUNT)
    && (s.streaming ==> s.open && |Held(s)| <= 1)
    && (!s.open ==> s.mapped == {})
  }

  lemma {:induction false} PlayedIsOrderly(trace: seq<Event>)
    requires Play(trace).Some?
    ensures Orderly(Play(trace).value)
  {
    if trace != [] {
      var n := |trace| - 1;
      PlayedIsOrderly(trace[..n]);
      StaysOrderly(Play(trace[..n]).value, trace[n]);
    }
  }

  lemma StaysOrderly(s: Session, e: Event)
    requires Orderly(s) && After(s, e).Some?
    ensures Orderly(After(s, e).value)
  {
    match e
    case Dequeued(i, _) => HoldsOne(s, After(s, e).value, i);
    case Queued(_) => SubsetSize(Held(After(s, e).value), Held(s));
    case StreamedOn => assert Held(After(s, e).value) == {};
    case _ =>
  }

  lemma HoldsOne(s: Session, s': Session, i: nat)
    requires Held(s) == {} && i in s.mapped && s'.mapped == s.mapped && s'.queued == s.queued - {i}
    ensures Held(s') == {i}
  {
  }

  lemma {:induction false} PlayPrefix(trace: seq<Event>, n: nat)
    requires Play(trace).Some? && n <= |trace|
    ensures Play(trace[..n]).Some?
  {
    if n == |trace| {
      assert trace[..n] == trace;
    } else {
      var m := |trace| - 1;
      PlayPrefix(trace[..m], n);
      assert trace[..m][..n] == trace[..n];
    }
  }

  /** At every moment of a session, while streaming, the program owns at most one buffer; the driver the rest. */
  lemma HoldsAtMostOne(trace: seq<Event>, n: nat)
    requires Play(trace).Some? && n <= |trace|
    ensures Play(trace[..n]).Some?
    ensures Play(trace[..n]).value.streaming ==> |Held(Play(trace[..n]).value)| <= 1
  {
    PlayPrefix(trace, n);
    PlayedIsOrderly(trace[..n]);
  }

  lemma OnlyMember(s: set<nat>, a: nat, b: nat)
    requires |s| <= 1 && a in s && b in s
    ensures a == b
  {
    SubsetSize({a, b}, s);
  }

  /** A held buffer was dequeued since, and not given back. */
  lemma {:induction false} HeldWasDequeued(trace: seq<Event>, i: nat) returns (d: nat)
    requires Play(trace).Some? && Play(trace).value.streaming && Play(trace).value.active.Some?
    requires i in Held(Play(trace).value)
    ensures d < |trace| && trace[d] == Dequeued(i, Play(trace).value.delivered)
    ensures forall k :: d < k < |trace| ==> trace[k] != Queued(i) && !trace[k].StreamedOff?
  {
    var n := |trace| - 1;
    PlayPrefix(trace, n);
    var s := Play(trace[..n]).value;
    if trace[n].Dequeued? && trace[n].index == i {
      d := n;
    } else {
      if s.active.None? {
        // Only activation comes between: nothing is held then.
        HeldBeforeActivation(trace[..n]);
        assert false;
      }
      if trace[n].Queued? {
        PlayedIsOrderly(trace[..n]);
        OnlyMember(Held(s), i, trace[n].index);
      }
      d := HeldWasDequeued(trace[..n], i);
      assert forall k :: 0 <= k < n ==> trace[..n][k] == trace[k];
    }
  }

  lemma {:induction false} HeldBeforeActivation(trace: seq<Event>)
    requires Play(trace).Some? && Play(trace).value.streaming && Play(trace).value.active.None?
    ensures Held(Play(trace).value) == {}
  {
    var n := |trace| - 1;
    PlayPrefix(trace, n);
    if !trace[n].StreamedOn? {
      HeldBeforeActivation(trace[..n]);
    }
  }

  /**
   A published frame is what the driver left in a buffer dequeued before and not
   given back since, it starts like a JPEG, and the camera is active in the
   session's generation.
   */
  lemma PublishedFromHeldBuffer(trace: seq<Event>, p: nat) returns (d: nat)
    requires Play(trace).Some? && p < |trace| && trace[p].Published?
    ensures d < p && trace[d] == Dequeued(trace[p].index, trace[p].bytes) && LooksLikeJpeg(trace[p].bytes)
    ensures forall k :: d < k < p ==> trace[k] != Queued(trace[p].index) && !trace[k].StreamedOff?
    ensures trace[p].camera == CameraActive
    ensures exists a: nat :: a < p && trace[a].Activated? && trace[a].generation == trace[p].generation
  {
    PlayPrefix(trace, p + 1);
    assert trace[..p + 1][..p] == trace[..p];
    d := HeldWasDequeued(trace[..p], trace[p].index);
    assert forall k :: 0 <= k < p ==> trace[..p][k] == trace[k];
    var a := ActivationFound(trace[..p]);
    assert trace[a].Activated? && trace[a].generation == trace[p].generation;
  }

  lemma {:induction false} ActivationFound(trace: seq<Event>) returns (a: nat)
    requires Play(trace).Some? && Play(trace).value.active.Some?
    ensures a < |trace| && trace[a].Activated? && trace[a].generation == Play(trace).value.active.value
  {
    var n := |trace| - 1;
    PlayPrefix(trace, n);
    if trace[n].Activated? {
      a := n;
    } else {
      a := ActivationFound(trace[..n]);
    }
  }

  /** When a session is over, every mapping made was released after it was made. */
  lemma {:induction false} MappingsAreReleased(trace: seq<Event>, m: nat) returns (k: nat)
    requires Play(trace).Some? && m < |trace| && trace[m].Mapped?
    requires trace[m].index !in Play(trace).value.mapped
    ensures m < k < |trace| && trace[k] == Unmapped(trace[m].index)
  {
    var n := |trace| - 1;
    PlayPrefix(trace, n);
    if m == n {
      assert false;
    } else if trace[n] == Unmapped(trace[m].index) {
      k := n;
    } else {
      StaysMapped(Play(trace[..n]).value, trace[n], trace[m].index);
      assert trace[..n][m] == trace[m];
      k := MappingsAreReleased(trace[..n], m);
      assert trace[..n][k] == trace[k];
    }
  }

  lemma StaysMapped(s: Session, e: Event, i: nat)
    requires After(s, e).Some? && e != Unmapped(i)
    ensures i in s.mapped ==> i in After(s, e).value.mapped
  {
  }

  /** Each frame handed over was recorded as published. */
  lemma {:induction false} HandedWasPublished(trace: seq<Event>, k: nat) returns (p: nat)
    requires k < |Handed(trace)|
    ensures p < |trace| && trace[p].Published? && Picture(trace[p].bytes, trace[p].generation) == Handed(trace)[k]
  {
    var n := |trace| - 1;
    if k < |Handed(trace[..n])| {
      p := HandedWasPublished(trace[..n], k);
    } else {
      p := n;
    }
  }

  // ------------------------------------------------------------------- the kernel

  datatype SelectAnswer = Ready | Silent | Interrupted | SelectFails

  datatype DequeueAnswer = Got | Again | DequeueFails

  /** One turn of the frame loop: what select, the driver, its buffer, memory and the clock come up with. */
  datatype Turn = Turn(select: SelectAnswer, dequeue: DequeueAnswer, index: nat, bytesUsed: nat, content: seq<Byte>,
                       memory: bool, nowNs: Uint64, requeues: bool)

  /** QUERYBUF and mmap of one buffer. */
  datatype Mapping = Mapping(queried: bool, mapped: bool, length: nat)

  /** The answers to the set-up of a session; one that is missing is a failure. */
  datatype SetUpAnswers = SetUpAnswers(format: bool, mjpeg: bool, requested: bool, count: nat, maps: seq<Mapping>,
                                       queues: seq<bool>, streams: bool)

  datatype Attempt = Attempt(opens: bool, node: string, setUp: SetUpAnswers, width: Uint32, height: Uint32,
                             startNs: Uint64, turns: seq<Turn>, lostMs: Uint64)

  // When things go on, and when they end.

  /** Enough buffers, every one of them mapped and queued, and the stream switched on. */
  predicate SetsUp(a: SetUpAnswers) {
    && a.format && a.mjpeg && a.requested && a.count >= 2
    && var n := Min(a.count, BUFFER_COUNT);
       && |a.maps| >= n && |a.queues| >= n && a.streams
       && forall i :: 0 <= i < n ==> a.maps[i].queried && a.maps[i].mapped && a.queues[i]
  }

  function Lengths(a: SetUpAnswers): (lengths: seq<nat>)
    requires SetsUp(a)
    ensures |lengths| == Min(a.count, BUFFER_COUNT)
    ensures forall i :: 0 <= i < |lengths| ==> lengths[i] == a.maps[i].length
  {
    var n := Min(a.count, BUFFER_COUNT);
    seq(n, i requires 0 <= i < n && SetsUp(a) => a.maps[i].length)
  }

  /** What a buffer of some length shows of its content. */
  function Shown(content: seq<Byte>, length: nat): (bytes: seq<Byte>)
    ensures |bytes| == length && forall i :: 0 <= i < length && i < |content| ==> bytes[i] == content[i]
  {
    if |content| >= length then content[..length] else content + seq(length - |content|, _ => 0)
  }

  /** A dequeued buffer worth handing over: a known one, of a size it can have, that starts like a JPEG. */
  predicate GoodBuffer(t: Turn, lengths: seq<nat>) {
    && t.dequeue == Got && t.index < |lengths| && 2 <= t.bytesUsed <= lengths[t.index]
    && var bytes := Shown(t.content, lengths[t.index]); bytes[0] == 0xFF && bytes[1] == 0xD8
  }

  /** The slot can take it. */
  predicate Affordable(t: Turn, capacity: nat) {
    t.memory || t.bytesUsed <= capacity
  }

  /**
   A turn keeps the session going: the select was interrupted, the driver has
   nothing yet, or a good buffer is published and queued again.
   */
  predicate Survives(t: Turn, lengths: seq<nat>, capacity: nat) {
    || t.select == Interrupted
    || (t.select == Ready && TakesOne(t, lengths, capacity))
  }

  predicate TakesOne(t: Turn, lengths: seq<nat>, capacity: nat) {
    t.dequeue == Again || (GoodBuffer(t, lengths) && Affordable(t, capacity) && t.requeues)
  }

  /** The slot's capacity after the first n turns. */
  function CapacityAt(turns: seq<Turn>, lengths: seq<nat>, capacity: nat, n: nat): nat
    requires n <= |turns|
  {
    if n == 0 then capacity
    else CapacityAfter(turns[n - 1], lengths, CapacityAt(turns, lengths, capacity, n - 1))
  }

  function CapacityAfter(t: Turn, lengths: seq<nat>, capacity: nat): nat {
    if t.select == Ready && GoodBuffer(t, lengths) && Affordable(t, capacity) then Max(capacity, t.bytesUsed)
    else capacity
  }

  predicate AllSurvive(turns: seq<Turn>, lengths: seq<nat>, capacity: nat, n: nat)
    requires n <= |turns|
  {
    n > 0 ==>
      && AllSurvive(turns, lengths, capacity, n - 1)
      && Survives(turns[n - 1], lengths, CapacityAt(turns, lengths, capacity, n - 1))
  }

  /** The loop lived through so many turns, and ended because of the stop or of the next one. */
  predicate Lived(turns: seq<Turn>, lengths: seq<nat>, capacity: nat, lived: nat, stopped: bool) {
    && lived <= |turns| && AllSurvive(turns, lengths, capacity, lived)
    && (!stopped && lived < |turns| ==> !Survives(turns[lived], lengths, CapacityAt(turns, lengths, capacity, lived)))
  }

  lemma LivesOn(turns: seq<Turn>, lengths: seq<nat>, capacity: nat, lived: nat)
    requires Lived(turns, lengths, capacity, lived, true) && lived < |turns|
    ensures var now := CapacityAt(turns, lengths, capacity, lived);
            && CapacityAt(turns, lengths, capacity, lived + 1) == CapacityAfter(turns[lived], lengths, now)
            && Lived(turns, lengths, capacity, if Survives(turns[lived], lengths, now) then lived + 1 else lived,
                     Survives(turns[lived], lengths, now))
  {
  }

  /** One buffer is mapped and queued. */
  predicate BufferIsReady(a: SetUpAnswers, i: nat) {
    i < |a.maps| && i < |a.queues| && a.maps[i].queried && a.maps[i].mapped && a.queues[i]
  }

  /** The camera is usable: every answer of the set-up is good, for at least two and at most four buffers. */
  lemma SetUpNeeds(a: SetUpAnswers)
    ensures SetsUp(a) <==>
              && a.format && a.mjpeg && a.requested && a.streams && a.count > 1
              && forall i :: 0 <= i < a.count && i < 4 ==> BufferIsReady(a, i)
  {
    if a.count > 1 && forall i :: 0 <= i < a.count && i < 4 ==> BufferIsReady(a, i) {
      assert BufferIsReady(a, Min(a.count, 4) - 1);
      forall i | 0 <= i < Min(a.count, 4)
        ensures a.maps[i].queried && a.maps[i].mapped && a.queues[i]
      {
        assert BufferIsReady(a, i);
      }
    }
  }

  /** A turn brings a JPEG of a size its buffer can have. */
  predicate BringsJpeg(t: Turn, lengths: seq<nat>) {
    && t.select == Ready && t.dequeue == Got && t.index < |lengths|
    && 1 < t.bytesUsed && t.bytesUsed <= lengths[t.index]
    && |t.content| > 1 && t.content[0] == 0xFF && t.content[1] == 0xD8
  }

  /** The slot takes the frame of turn k: there is memory, or it is no larger than the slot was or has become. */
  predicate Fitting(turns: seq<Turn>, lengths: seq<nat>, capacity: nat, k: nat)
    requires k < |turns|
  {
    || turns[k].memory || turns[k].bytesUsed <= capacity
    || exists j :: 0 <= j < k && BringsJpeg(turns[j], lengths) && turns[j].bytesUsed >= turns[k].bytesUsed
  }

  /** What a turn must be for the session to go on. */
  predicate Harmless(turns: seq<Turn>, lengths: seq<nat>, capacity: nat, k: nat)
    requires k < |turns|
  {
    || turns[k].select == Interrupted
    || (turns[k].select == Ready && turns[k].dequeue == Again)
    || (BringsJpeg(turns[k], lengths) && Fitting(turns, lengths, capacity, k) && turns[k].requeues)
  }

  lemma GoodBufferBringsJpeg(t: Turn, lengths: seq<nat>)
    ensures t.select == Ready && GoodBuffer(t, lengths) <==> BringsJpeg(t, lengths)
  {
    if t.index < |lengths| {
      var shown := Shown(t.content, lengths[t.index]);
    }
  }

  /** While a session goes on the slot is as large as it was, or as the largest frame it was given. */
  lemma {:induction false} SlotHasGrown(turns: seq<Turn>, lengths: seq<nat>, capacity: nat, n: nat, size: nat)
    requires n <= |turns| && AllSurvive(turns, lengths, capacity, n)
    ensures size <= CapacityAt(turns, lengths, capacity, n) <==>
              || size <= capacity
              || exists j :: 0 <= j < n && BringsJpeg(turns[j], lengths) && turns[j].bytesUsed >= size
  {
    if n > 0 {
      SlotHasGrown(turns, lengths, capacity, n - 1, size);
      GoodBufferBringsJpeg(turns[n - 1], lengths);
    }
  }

  /** The session goes on through so many turns if and only if each of them is harmless. */
  lemma {:induction false} HarmlessTurnsSurvive(turns: seq<Turn>, lengths: seq<nat>, capacity: nat, n: nat)
    requires n <= |turns|
    ensures AllSurvive(turns, lengths, capacity, n) <==>
              forall k :: 0 <= k < n ==> Harmless(turns, lengths, capacity, k)
  {
    if n > 0 {
      HarmlessTurnsSurvive(turns, lengths, capacity, n - 1);
      if AllSurvive(turns, lengths, capacity, n - 1) {
        HarmlessTurnSurvives(turns, lengths, capacity, n - 1);
      }
    }
  }

  lemma HarmlessTurnSurvives(turns: seq<Turn>, lengths: seq<nat>, capacity: nat, k: nat)
    requires k < |turns| && AllSurvive(turns, lengths, capacity, k)
    ensures Survives(turns[k], lengths, CapacityAt(turns, lengths, capacity, k))
       <==> Harmless(turns, lengths, capacity, k)
  {
    SlotHasGrown(turns, lengths, capacity, k, turns[k].bytesUsed);
    GoodBufferBringsJpeg(turns[k], lengths);
  }

  /** How an attempt ends: without a node or a set-up at once, otherwise as its turns go. */
  predicate Ended(a: Attempt, capacity: nat, lived: nat, ok: bool) {
    if a.opens && SetsUp(a.setUp) then Lived(a.turns, Lengths(a.setUp), capacity, lived, ok) else !ok && lived == 0
  }

  /** The video node.  Its answers are arbitrary; it keeps the record. */
  class Camera {
    ghost var trace: seq<Event>

    ghost predicate Valid()
      reads this
    {
      Play(trace).Some?
    }

    ghost function State(): Session
      requires Valid()
      reads this
    {
      Play(trace).value
    }

    constructor ()
      ensures Valid() && State() == NO_SESSION && trace == []
    {
      trace := [];
    }

    ghost method Record(e: Event)
      requires Valid() && After(State(), e).Some?
      modifies this
      ensures Valid() && trace == old(trace) + [e] && State() == After(old(State()), e).value
      ensures old(trace) <= trace && (!e.Published? ==> Quiet(old(trace), trace))
    {
      HandedSnoc(trace, e);
      assert (trace + [e])[..|trace|] == trace;
      trace := trace + [e];
    }

    /** select_camera: any node, or none. */
    method Open(ok: bool, selected: string)
      requires Valid() && State() == NO_SESSION
      modifies this
      ensures Valid() && State() == if ok then OpenSession(selected) else NO_SESSION
      ensures Quiet(old(trace), trace)
    {
      if ok {
        Record(Opened(selected));
      }
    }

    method Map(index: nat, ok: bool)
      requires Valid() && State().open && !State().streaming && index < BUFFER_COUNT && index !in State().mapped
      modifies this
      ensures Valid() && State() == if ok then old(State()).(mapped := old(State()).mapped + {index}) else old(State())
      ensures Quiet(old(trace), trace)
    {
      if ok {
        Record(Mapped(index));
      }
    }

    method Queue(index: nat, ok: bool)
      requires Valid() && State().open && index in Held(State())
      modifies this
      ensures Valid() && State() == if ok then old(State()).(queued := old(State()).queued + {index}, delivered := [])
                                    else old(State())
      ensures trace == old(trace) + if ok then [Queued(index)] else []
      ensures Quiet(old(trace), trace)
    {
      if ok {
        Record(Queued(index));
      }
    }

    method StreamOn(ok: bool)
      requires Valid() && State().open && !State().streaming && Held(State()) == {} && State().active.None?
      modifies this
      ensures Valid() && State() == if ok then old(State()).(streaming := true) else old(State())
      ensures Quiet(old(trace), trace)
    {
      if ok {
        Record(StreamedOn);
      }
    }

    /** The camera is where it was, but for one dequeued buffer. */
    ghost predicate Took(before: Session, history: seq<Event>, index: nat, bytes: seq<Byte>)
      requires Valid()
      reads this
    {
      && State() == before.(queued := before.queued - {index}, delivered := bytes)
      && trace == history + [Dequeued(index, bytes)]
    }

    /**
     VIDIOC_DQBUF: any index and size may come back, and anything may be in the
     mapping of that index; a mapped buffer changes hands.
     */
    method Dequeue(buffers: array<MappedBuffer>, t: Turn) returns (frame: array<Byte>)
      requires Valid() && State().streaming && State().active.Some? && Held(State()) == {}
      modifies this
      ensures Valid() && fresh(frame)
      ensures frame[..] == Shown(t.content, if t.index < buffers.Length then buffers[t.index].length else 0)
      ensures if t.dequeue == Got && t.index in old(State()).queued
              then Took(old(State()), old(trace), t.index, frame[..Min(t.bytesUsed, frame.Length)])
              else State() == old(State()) && trace == old(trace)
      ensures Quiet(old(trace), trace)
    {
      var bytes := Shown(t.content, if t.index < buffers.Length then buffers[t.index].length else 0);
      frame := new Byte[|bytes|](i requires 0 <= i < |bytes| => bytes[i]);
      assert frame[..] == bytes;
      if t.dequeue == Got && t.index in State().queued {
        Record(Dequeued(t.index, frame[..Min(t.bytesUsed, frame.Length)]));
      }
    }

    method StreamOff()
      requires Valid() && State().streaming
      modifies this
      ensures Valid() && State() == old(State()).(streaming := false, queued := {}, active := None, delivered := [])
      ensures Quiet(old(trace), trace)
    {
      Record(StreamedOff);
    }

    method Unmap(index: nat)
      requires Valid() && State().open && !State().streaming && index in State().mapped
      modifies this
      ensures Valid()
      ensures State() == old(State()).(mapped := old(State()).mapped - {index}, queued := old(State()).queued - {index})
      ensures Quiet(old(trace), trace)
    {
      Record(Unmapped(index));
    }

    method Close()
      requires Valid() && State().open && !State().streaming && State().mapped == {}
      modifies this
      ensures Valid() && State() == NO_SESSION
      ensures Quiet(old(trace), trace)
    {
      Record(Closed);
    }
  }

  // ------------------------------------------------- the capture thread's sections

  /** What the capture thread does to the shared state, and what others leave it in meanwhile. */
  datatype Section = Own(change: Change) | SessionOver | Theirs(after: AppView)

  /** The shared state, whether a session is active, and the frames handed over so far. */
  datatype Standing = Standing(app: AppView, active: bool, frames: seq<Picture>)

  /** Sections in order: activate, publish while active, lose the camera whenever. */
  function Moved(t: Standing, e: Section): Option<Standing> {
    match e
    case Own(Activates(_, _, _, _)) =>
      if t.active then None else Some(t.(app := Changed(t.app, e.change), active := true))
    case Own(Publishes(bytes, memory, _)) =>
      if !t.active || !LooksLikeJpeg(bytes) then None
      else if !Fits(t.app.slot.capacity, |bytes|, memory) then Some(t.(active := false))
      else
        var picture := Picture(bytes, t.app.slot.captureGeneration);
        Some(t.(app := Changed(t.app, e.change), frames := t.frames + [picture]))
    case Own(Loses(_, _, _)) => Some(t.(app := Changed(t.app, e.change), active := false))
    case Own(_) => None
    case SessionOver => Some(t.(active := false))
    case Theirs(after) => Some(t.(app := after))
  }

  function Moves(t: Standing, sections: seq<Section>): Option<Standing> {
    if sections == [] then Some(t)
    else
      match Moves(t, sections[..|sections| - 1])
      case None => None
      case Some(moved) => Moved(moved, sections[|sections| - 1])
  }

  lemma MovesSnoc(t: Standing, sections: seq<Section>, e: Section)
    requires Moves(t, sections).Some?
    ensures Moves(t, sections + [e]) == Moved(Moves(t, sections).value, e)
  {
    assert (sections + [e])[..|sections|] == sections;
  }

  /** Where the sections have led, and that the frames handed over are the recorded ones. */
  predicate Stands(start: Standing, sections: seq<Section>, view: AppView, trace: seq<Event>) {
    && Moves(start, sections).Some? && Moves(start, sections).value.app == view
    && Moves(start, sections).value.frames == Handed(trace)
  }

  predicate InSession(start: Standing, sections: seq<Section>) {
    Moves(start, sections).Some? && Moves(start, sections).value.active
  }

  lemma OthersMove(start: Standing, sections: seq<Section>, view: AppView, view': AppView, trace: seq<Event>)
    requires Stands(start, sections, view, trace)
    ensures Stands(start, sections + [Theirs(view')], view', trace)
    ensures InSession(start, sections + [Theirs(view')]) == InSession(start, sections)
  {
    MovesSnoc(start, sections, Theirs(view'));
  }

  /** Activating, losing the camera: the frames stay. */
  lemma ChangeMoves(start: Standing, sections: seq<Section>, view: AppView, c: Change, trace: seq<Event>,
                    trace': seq<Event>)
    requires Stands(start, sections, view, trace) && Quiet(trace, trace')
    requires c.Loses? || (c.Activates? && !InSession(start, sections))
    ensures Stands(start, sections + [Own(c)], Changed(view, c), trace')
    ensures InSession(start, sections + [Own(c)]) == c.Activates?
  {
    MovesSnoc(start, sections, Own(c));
  }

  lemma SessionEnds(start: Standing, sections: seq<Section>, view: AppView, trace: seq<Event>, trace': seq<Event>)
    requires Stands(start, sections, view, trace) && Quiet(trace, trace')
    ensures Stands(start, sections + [SessionOver], view, trace') && !InSession(start, sections + [SessionOver])
  {
    MovesSnoc(start, sections, SessionOver);
  }

  /** Handing over: the frame is recorded exactly if it was published. */
  lemma PublishMoves(start: Standing, sections: seq<Section>, view: AppView, c: Change, trace: seq<Event>,
                     trace': seq<Event>)
    requires Stands(start, sections, view, trace) && InSession(start, sections)
    requires c.Publishes? && LooksLikeJpeg(c.bytes)
    requires Handed(trace') == Handed(trace) + if Fits(view.slot.capacity, |c.bytes|, c.memory)
                                               then [Picture(c.bytes, view.slot.captureGeneration)] else []
    ensures Stands(start, sections + [Own(c)], Changed(view, c), trace')
    ensures InSession(start, sections + [Own(c)]) == Fits(view.slot.capacity, |c.bytes|, c.memory)
  {
    MovesSnoc(start, sections, Own(c));
  }

  // ---------------------------------------------------------------- capture_once

  datatype MappedBuffer = MappedBuffer(start: bool, length: nat)

  /** The program's own table says exactly what is mapped. */
  ghost predicate TableMatches(buffers: array<MappedBuffer>, count: nat, s: Session)
    reads buffers
  {
    && buffers.Length == BUFFER_COUNT && count <= BUFFER_COUNT
    && (forall i: nat :: i in s.mapped <==> i < BUFFER_COUNT && buffers[i].start)
    && (forall i: nat :: i < BUFFER_COUNT && buffers[i].start ==> i < count)
  }

  /** Format, parameters, buffer request, mapping, queueing, STREAMON. */
  method SetUp(camera: Camera, buffers: array<MappedBuffer>, a: SetUpAnswers)
    returns (streaming: bool, mappedCount: nat, error: string)
    requires camera.Valid() && camera.State() == OpenSession(camera.State().device)
    requires TableMatches(buffers, 0, camera.State())
    modifies camera, buffers
    ensures camera.Valid() && camera.State().open && camera.State().active.None? && camera.State().delivered == []
    ensures camera.State().device == old(camera.State().device)
    ensures TableMatches(buffers, mappedCount, camera.State())
    ensures streaming == camera.State().streaming == SetsUp(a)
    ensures streaming ==> mappedCount == |Lengths(a)| && HasLengths(buffers, Lengths(a))
    ensures streaming ==> mappedCount >= 2 && Held(camera.State()) == {}
    ensures streaming ==> forall i: nat :: i < mappedCount ==> buffers[i].start
    ensures !streaming ==> error != ""
    ensures Quiet(old(camera.trace), camera.trace)
  {
    streaming, mappedCount, error := false, 0, "";
    if !a.format {
      return false, 0, "VIDIOC_S_FMT failed";
    }
    if !a.mjpeg {
      return false, 0, "did not accept MJPG";
    }
    if !a.requested {
      return false, 0, "VIDIOC_REQBUFS failed";
    }
    if a.count < 2 {
      return false, 0, "returned fewer than two mmap buffers";
    }
    mappedCount := Min(a.count, BUFFER_COUNT);

    var ok := MapBuffers(camera, buffers, mappedCount, a.maps);
    if !ok {
      return false, mappedCount, "mmap failed";
    }
    ok := QueueBuffers(camera, buffers, mappedCount, a.queues);
    if !ok {
      return false, mappedCount, "VIDIOC_QBUF failed";
    }
    camera.StreamOn(a.streams);
    streaming := a.streams;
    if !streaming {
      error := "VIDIOC_STREAMON failed";
    }
  }

  /** The table knows the lengths the kernel gave. */
  ghost predicate HasLengths(buffers: array<MappedBuffer>, lengths: seq<nat>)
    reads buffers
  {
    |lengths| <= buffers.Length && forall i :: 0 <= i < |lengths| ==> buffers[i].length == lengths[i]
  }

  method MapBuffers(camera: Camera, buffers: array<MappedBuffer>, count: nat, maps: seq<Mapping>) returns (ok: bool)
    requires camera.Valid() && camera.State() == OpenSession(camera.State().device)
    requires TableMatches(buffers, 0, camera.State()) && count <= BUFFER_COUNT
    modifies camera, buffers
    ensures camera.Valid() && TableMatches(buffers, count, camera.State())
    ensures camera.State().device == old(camera.State().device)
    ensures camera.State() == OpenSession(camera.State().device).(mapped := camera.State().mapped)
    ensures ok ==> forall i: nat :: i < count ==> i in camera.State().mapped
    ensures ok <==> |maps| >= count && forall i :: 0 <= i < count ==> maps[i].queried && maps[i].mapped
    ensures ok ==> forall i :: 0 <= i < count ==> buffers[i].length == maps[i].length
    ensures Quiet(old(camera.trace), camera.trace)
  {
    for index := 0 to count
      invariant camera.Valid() && TableMatches(buffers, index, camera.State())
      invariant camera.State().device == old(camera.State().device)
      invariant camera.State() == OpenSession(camera.State().device).(mapped := camera.State().mapped)
      invariant forall i: nat :: i < index ==> i in camera.State().mapped
      invariant index <= |maps| && forall i :: 0 <= i < index ==> maps[i].queried && maps[i].mapped
      invariant forall i :: 0 <= i < index ==> buffers[i].length == maps[i].length
      invariant Quiet(old(camera.trace), camera.trace)
    {
      if index >= |maps| || !maps[index].queried {
        return false;
      }
      camera.Map(index, maps[index].mapped);
      if !maps[index].mapped {
        return false;
      }
      buffers[index] := MappedBuffer(true, maps[index].length);
    }
    return true;
  }

  method QueueBuffers(camera: Camera, buffers: array<MappedBuffer>, count: nat, answers: seq<bool>)
    returns (ok: bool)
    requires camera.Valid() && TableMatches(buffers, count, camera.State())
    requires camera.State() == OpenSession(camera.State().device).(mapped := camera.State().mapped)
    requires forall i: nat :: i < count ==> i in camera.State().mapped
    modifies camera
    ensures camera.Valid()
    ensures camera.State() == old(camera.State()).(queued := camera.State().queued)
    ensures ok ==> Held(camera.State()) == {}
    ensures ok <==> |answers| >= count && forall i :: 0 <= i < count ==> answers[i]
    ensures Quiet(old(camera.trace), camera.trace)
  {
    for index := 0 to count
      invariant camera.Valid()
      invariant camera.State() == old(camera.State()).(queued := camera.State().queued)
      invariant forall i: nat :: i in camera.State().queued <==> i < index
      invariant index <= |answers| && forall i :: 0 <= i < index ==> answers[i]
      invariant Quiet(old(camera.trace), camera.trace)
    {
      if index >= |answers| {
        return false;
      }
      camera.Queue(index, answers[index]);
      if !answers[index] {
        return false;
      }
    }
    return true;
  }

  /** Sections of other threads: anything but the capture thread's own. */
  method OtherThreads(app: AppState)
    requires app.Valid()
    modifies app`stop, app`signalled, app`workers, app`clients, app`motion, app`health
    ensures app.Valid()
  {
    var stops: bool, signals: bool, resets: bool := *, *, *;
    if stops {
      app.RequestStop();
    }
    if signals {
      app.signalled := true;
    }
    if resets {
      app.ResetMotionSample();
    }
    var delta: int := *;
    app.WorkerDelta(delta);
    app.StreamClientDelta(delta);
  }

  /** A gap between two of the capture thread's sections. */
  method OthersAct(app: AppState, camera: Camera, ghost start: Standing, ghost sections: seq<Section>)
    returns (ghost sections': seq<Section>)
    requires app.Valid() && Stands(start, sections, app.View(), camera.trace)
    modifies app`stop, app`signalled, app`workers, app`clients, app`motion, app`health
    ensures app.Valid() && Stands(start, sections', app.View(), camera.trace)
    ensures InSession(start, sections') == InSession(start, sections)
  {
    ghost var before := app.View();
    OtherThreads(app);
    OthersMove(start, sections, before, app.View(), camera.trace);
    sections' := sections + [Theirs(app.View())];
  }

  /**
   Wait for a frame, publish it, give the buffer back, until told to stop or
   something fails; when `turns` run out the camera falls silent.
   */
  method StreamFrames(app: AppState, camera: Camera, buffers: array<MappedBuffer>, mappedCount: nat, turns: seq<Turn>,
                      ghost lengths: seq<nat>, ghost start: Standing, ghost sections: seq<Section>)
    returns (ok: bool, error: string, ghost sections': seq<Section>, ghost lived: nat)
    requires app.Valid() && camera.Valid() && TableMatches(buffers, mappedCount, camera.State())
    requires camera.State().open && camera.State().streaming && Held(camera.State()) == {}
    requires forall i: nat :: i < mappedCount ==> buffers[i].start
    requires mappedCount == |lengths| && HasLengths(buffers, lengths)
    requires camera.State().active == Some(app.captureGeneration) && app.camera == CameraActive
    requires camera.State().delivered == []
    requires Stands(start, sections, app.View(), camera.trace) && InSession(start, sections)
    modifies app, app.frame, camera
    ensures app.Valid() && camera.Valid() && (app.frame == old(app.frame) || fresh(app.frame))
    ensures camera.State()
         == old(camera.State()).(queued := camera.State().queued, delivered := camera.State().delivered)
    ensures old(camera.trace) <= camera.trace && Stands(start, sections', app.View(), camera.trace)
    ensures ok ==> Stopping(app.View().slot)
    ensures Lived(turns, lengths, old(app.frame.Length), lived, ok)
    ensures !ok ==> error != ""
  {
    sections', lived := sections, 0;
    ghost var generation, capacity := app.captureGeneration, app.frame.Length;
    ghost var session := camera.State();
    for turn := 0 to |turns|
      invariant app.Valid() && camera.Valid() && (app.frame == old(app.frame) || fresh(app.frame))
      invariant camera.State() == session && app.captureGeneration == generation && app.camera == CameraActive
      invariant old(camera.trace) <= camera.trace
      invariant Stands(start, sections', app.View(), camera.trace) && InSession(start, sections')
      invariant lived == turn && Lived(turns, lengths, capacity, lived, true)
      invariant app.frame.Length == CapacityAt(turns, lengths, capacity, lived)
    {
      LivesOn(turns, lengths, capacity, lived);
      var stopping, goesOn;
      stopping, goesOn, error, sections' :=
        NextTurn(app, camera, buffers, mappedCount, turns[turn], lengths, start, sections');
      if stopping || !goesOn {
        return stopping, error, sections', lived;
      }
      lived := lived + 1;
    }
    return false, "frame timeout", sections', lived;
  }

  /** The gap before a turn, the stop check, and the turn if there was no stop. */
  method NextTurn(app: AppState, camera: Camera, buffers: array<MappedBuffer>, mappedCount: nat, t: Turn,
                  ghost lengths: seq<nat>, ghost start: Standing, ghost sections: seq<Section>)
    returns (stopping: bool, goesOn: bool, error: string, ghost sections': seq<Section>)
    requires app.Valid() && camera.Valid() && TableMatches(buffers, mappedCount, camera.State())
    requires camera.State().open && camera.State().streaming && Held(camera.State()) == {}
    requires forall i: nat :: i < mappedCount ==> buffers[i].start
    requires mappedCount == |lengths| && HasLengths(buffers, lengths)
    requires camera.State().active == Some(app.captureGeneration) && app.camera == CameraActive
    requires camera.State().delivered == []
    requires Stands(start, sections, app.View(), camera.trace) && InSession(start, sections)
    modifies app, app.frame, camera
    ensures app.Valid() && camera.Valid() && (app.frame == old(app.frame) || fresh(app.frame))
    ensures old(camera.trace) <= camera.trace && Stands(start, sections', app.View(), camera.trace)
    ensures camera.State()
         == old(camera.State()).(queued := camera.State().queued, delivered := camera.State().delivered)
    ensures stopping ==> Stopping(app.View().slot)
    ensures !stopping && goesOn ==>
              && InSession(start, sections') && camera.State() == old(camera.State())
              && app.captureGeneration == old(app.captureGeneration) && app.camera == CameraActive
    ensures !stopping ==>
              && (goesOn <==> Survives(t, lengths, old(app.frame.Length)))
              && app.frame.Length == CapacityAfter(t, lengths, old(app.frame.Length))
              && (!goesOn ==> error != "")
  {
    goesOn, error := true, "";
    sections' := OthersAct(app, camera, start, sections);
    stopping := app.ShouldStop();
    if !stopping {
      goesOn, error, sections' := RunTurn(app, camera, buffers, mappedCount, t, lengths, start, sections');
    }
  }

  /** What select makes of one turn. */
  method RunTurn(app: AppState, camera: Camera, buffers: array<MappedBuffer>, mappedCount: nat, t: Turn,
                 ghost lengths: seq<nat>, ghost start: Standing, ghost sections: seq<Section>)
    returns (goesOn: bool, error: string, ghost sections': seq<Section>)
    requires app.Valid() && camera.Valid() && TableMatches(buffers, mappedCount, camera.State())
    requires camera.State().open && camera.State().streaming && Held(camera.State()) == {}
    requires forall i: nat :: i < mappedCount ==> buffers[i].start
    requires mappedCount == |lengths| && HasLengths(buffers, lengths)
    requires camera.State().active == Some(app.captureGeneration) && app.camera == CameraActive
    requires camera.State().delivered == []
    requires Stands(start, sections, app.View(), camera.trace) && InSession(start, sections)
    modifies app, app.frame, camera
    ensures app.Valid() && camera.Valid() && (app.frame == old(app.frame) || fresh(app.frame))
    ensures old(camera.trace) <= camera.trace && Stands(start, sections', app.View(), camera.trace)
    ensures app.captureGeneration == old(app.captureGeneration) && app.camera == CameraActive
    ensures camera.State()
         == old(camera.State()).(queued := camera.State().queued, delivered := camera.State().delivered)
    ensures goesOn ==> InSession(start, sections') && camera.State() == old(camera.State())
    ensures goesOn <==> Survives(t, lengths, old(app.frame.Length))
    ensures app.frame.Length == CapacityAfter(t, lengths, old(app.frame.Length))
    ensures !goesOn ==> error != ""
  {
    goesOn, error, sections' := false, "", sections;
    match t.select {
      case Silent => error := "frame timeout";
      case SelectFails => error := "select failed";
      case Interrupted => goesOn := true;
      case Ready =>
        goesOn, error, sections' := PublishOne(app, camera, buffers, mappedCount, t, lengths, start, sections);
    }
  }

  /** Take one frame from the driver and hand it over, unless there is none yet. */
  method PublishOne(app: AppState, camera: Camera, buffers: array<MappedBuffer>, mappedCount: nat, t: Turn,
                    ghost lengths: seq<nat>, ghost start: Standing, ghost sections: seq<Section>)
    returns (ok: bool, error: string, ghost sections': seq<Section>)
    requires app.Valid() && camera.Valid() && TableMatches(buffers, mappedCount, camera.State())
    requires camera.State().open && camera.State().streaming && Held(camera.State()) == {}
    requires forall i: nat :: i < mappedCount ==> buffers[i].start
    requires mappedCount == |lengths| && HasLengths(buffers, lengths)
    requires t.select == Ready
    requires camera.State().active == Some(app.captureGeneration) && app.camera == CameraActive
    requires camera.State().delivered == []
    requires Stands(start, sections, app.View(), camera.trace) && InSession(start, sections)
    modifies app, app.frame, camera
    ensures app.Valid() && camera.Valid() && (app.frame == old(app.frame) || fresh(app.frame))
    ensures old(camera.trace) <= camera.trace && Stands(start, sections', app.View(), camera.trace)
    ensures ok ==> InSession(start, sections')
    ensures app.captureGeneration == old(app.captureGeneration) && app.camera == CameraActive
    ensures camera.State()
         == old(camera.State()).(queued := camera.State().queued, delivered := camera.State().delivered)
    ensures ok ==> camera.State() == old(camera.State())
    ensures ok <==> TakesOne(t, lengths, old(app.frame.Length))
    ensures app.frame.Length == CapacityAfter(t, lengths, old(app.frame.Length))
    ensures ok && t.dequeue != Got ==> camera.trace == old(camera.trace) && app.View() == old(app.View())
    ensures ok && t.dequeue == Got ==>
              && t.index < |lengths| && t.bytesUsed <= lengths[t.index]
              && HandedOver(old(camera.trace), camera.trace, t.index,
                            Shown(t.content, lengths[t.index])[..t.bytesUsed], old(app.View()), app.View())
    ensures !ok ==> error != ""
  {
    error, sections' := "", sections;
    ghost var history, view := camera.trace, app.View();
    var frame := camera.Dequeue(buffers, t);
    if t.dequeue == Again {
      return true, error, sections';
    }
    if t.dequeue == DequeueFails {
      return false, "VIDIOC_DQBUF failed", sections';
    }
    error := Examine(buffers, mappedCount, t, frame, lengths);
    if error != "" {
      return false, error, sections';
    }
    ok, error, sections' := HandOver(app, camera, t, frame, start, sections);
  }

  /** The checks on a dequeued buffer. */
  method Examine(buffers: array<MappedBuffer>, mappedCount: nat, t: Turn, frame: array<Byte>, ghost lengths: seq<nat>)
    returns (error: string)
    requires mappedCount == |lengths| <= buffers.Length && HasLengths(buffers, lengths) && t.dequeue == Got
    requires t.index < buffers.Length ==> frame[..] == Shown(t.content, buffers[t.index].length)
    ensures error == "" <==> GoodBuffer(t, lengths)
    ensures error == "" ==>
              && t.bytesUsed <= frame.Length && LooksLikeJpeg(frame[..t.bytesUsed])
              && frame[..t.bytesUsed] == Shown(t.content, lengths[t.index])[..t.bytesUsed]
  {
    error := "";
    if t.index >= mappedCount || t.bytesUsed > buffers[t.index].length {
      return "returned an invalid buffer";
    }
    assert frame[..] == Shown(t.content, lengths[t.index]);
    if t.bytesUsed < 2 || frame[0] != 0xFF || frame[1] != 0xD8 {
      return "returned a non-JPEG frame while configured for MJPG";
    }
    assert frame[..t.bytesUsed] == frame[..][..t.bytesUsed];
  }

  /** Dequeued, published, given back: the frame is now the slot's, one number on. */
  ghost predicate HandedOver(history: seq<Event>, trace: seq<Event>, index: nat, bytes: seq<Byte>,
                             before: AppView, after: AppView)
  {
    && trace == history + [Dequeued(index, bytes),
                           Published(index, bytes, before.slot.captureGeneration, before.slot.camera), Queued(index)]
    && after.slot.frame == bytes && after.slot.sequence == Next(before.slot.sequence)
    && after.slot.frameGeneration == before.slot.captureGeneration
  }

  /** Publish a held buffer: the record gets the frame exactly if the slot does. */
  method PublishHeld(app: AppState, camera: Camera, t: Turn, frame: array<Byte>,
                     ghost start: Standing, ghost sections: seq<Section>)
    returns (ok: bool, ghost sections': seq<Section>)
    requires app.Valid() && camera.Valid() && t.bytesUsed <= frame.Length && frame != app.frame
    requires camera.State().streaming && t.index in Held(camera.State())
    requires camera.State().active == Some(app.captureGeneration) && app.camera == CameraActive
    requires camera.State().delivered == frame[..t.bytesUsed] && LooksLikeJpeg(frame[..t.bytesUsed])
    requires Stands(start, sections, app.View(), camera.trace) && InSession(start, sections)
    modifies app, app.frame, camera
    ensures app.Valid() && camera.Valid() && (app.frame == old(app.frame) || fresh(app.frame))
    ensures frame[..t.bytesUsed] == old(frame[..t.bytesUsed])
    ensures app.captureGeneration == old(app.captureGeneration) && app.camera == CameraActive
    ensures camera.State() == old(camera.State())
    ensures ok == Affordable(t, old(app.frame.Length))
    ensures app.frame.Length == if ok then Max(old(app.frame.Length), t.bytesUsed) else old(app.frame.Length)
    ensures Stands(start, sections', app.View(), camera.trace) && (ok ==> InSession(start, sections'))
    ensures var recorded := Published(t.index, frame[..t.bytesUsed], app.captureGeneration, app.camera);
            camera.trace == old(camera.trace) + if ok then [recorded] else []
    ensures ok ==> var slot := app.View().slot;
                   slot.frame == frame[..t.bytesUsed] && slot.sequence == Next(old(app.View()).slot.sequence)
                   && slot.frameGeneration == app.captureGeneration
  {
    ghost var view, history, change := app.View(), camera.trace, Publishes(frame[..t.bytesUsed], t.memory, t.nowNs);
    ok := app.PublishFrame(frame, t.bytesUsed, t.memory, t.nowNs);
    if ok {
      assert app.View().slot.frame == frame[..t.bytesUsed] == app.frame[..app.frameSize];
      HandedSnoc(history, Published(t.index, app.frame[..app.frameSize], app.captureGeneration, app.camera));
      camera.Record(Published(t.index, app.frame[..app.frameSize], app.captureGeneration, app.camera));
    }
    PublishMoves(start, sections, view, change, history, camera.trace);
    sections' := sections + [Own(change)];
  }

  lemma StillStands(start: Standing, sections: seq<Section>, view: AppView, trace: seq<Event>, trace': seq<Event>)
    requires Stands(start, sections, view, trace) && Quiet(trace, trace')
    ensures Stands(start, sections, view, trace')
  {
  }

  /** Publish a held buffer and queue it again. */
  method HandOver(app: AppState, camera: Camera, t: Turn, frame: array<Byte>,
                  ghost start: Standing, ghost sections: seq<Section>)
    returns (ok: bool, error: string, ghost sections': seq<Section>)
    requires app.Valid() && camera.Valid() && t.bytesUsed <= frame.Length && frame != app.frame
    requires camera.State().open && camera.State().streaming && t.index in Held(camera.State())
    requires camera.State().active == Some(app.captureGeneration) && app.camera == CameraActive
    requires camera.State().delivered == frame[..t.bytesUsed] && LooksLikeJpeg(frame[..t.bytesUsed])
    requires Stands(start, sections, app.View(), camera.trace) && InSession(start, sections)
    modifies app, app.frame, camera
    ensures app.Valid() && camera.Valid() && (app.frame == old(app.frame) || fresh(app.frame))
    ensures old(camera.trace) <= camera.trace && Stands(start, sections', app.View(), camera.trace)
    ensures ok ==> InSession(start, sections')
    ensures ok <==> Affordable(t, old(app.frame.Length)) && t.requeues
    ensures app.frame.Length == if Affordable(t, old(app.frame.Length)) then Max(old(app.frame.Length), t.bytesUsed)
                                else old(app.frame.Length)
    ensures frame[..t.bytesUsed] == old(frame[..t.bytesUsed])
    ensures app.captureGeneration == old(app.captureGeneration) && app.camera == CameraActive
    ensures var s := old(camera.State());
            camera.State() == if ok then s.(queued := s.queued + {t.index}, delivered := []) else s
    ensures ok ==>
              camera.trace == old(camera.trace)
                              + [Published(t.index, frame[..t.bytesUsed], app.captureGeneration, app.camera)]
                              + [Queued(t.index)]
    ensures ok ==> var slot := app.View().slot;
                   slot.frame == frame[..t.bytesUsed] && slot.sequence == Next(old(app.View()).slot.sequence)
                   && slot.frameGeneration == app.captureGeneration
    ensures !ok ==> error != ""
  {
    error := "";
    sections' := OthersAct(app, camera, start, sections);
    ok, sections' := PublishHeld(app, camera, t, frame, start, sections');
    if !ok {
      return false, "out of memory copying camera frame", sections';
    }
    ghost var view, history := app.View(), camera.trace;
    camera.Queue(t.index, t.requeues);
    ok := t.requeues;
    StillStands(start, sections', view, history, camera.trace);
    if !ok {
      return false, "requeue failed", sections';
    }
  }

  /** The cleanup section: every exit path comes through here. */
  method CleanUp(camera: Camera, buffers: array<MappedBuffer>, mappedCount: nat, streaming: bool)
    requires camera.Valid() && camera.State().open && streaming == camera.State().streaming
    requires !streaming ==> camera.State().active.None?
    requires TableMatches(buffers, mappedCount, camera.State())
    modifies camera
    ensures camera.Valid() && camera.State() == NO_SESSION
    ensures Quiet(old(camera.trace), camera.trace)
  {
    if streaming {
      camera.StreamOff();
    }
    for index := 0 to mappedCount
      invariant camera.Valid() && camera.State().open && !camera.State().streaming && camera.State().active.None?
      invariant forall i: nat :: i in camera.State().mapped <==> index <= i < BUFFER_COUNT && buffers[i].start
      invariant Quiet(old(camera.trace), camera.trace)
    {
      if buffers[index].start {
        camera.Unmap(index);
      }
    }
    camera.Close();
  }

  /**
   One attempt.  Whatever the kernel answers, the recorded trace obeys the
   protocol and ends with nothing held; a failure leaves the camera marked
   unavailable unless a stop was under way.  Its sections on the shared state are
   in order, and hand over exactly the frames recorded as published.  It ends when
   the stop is seen, or exactly where the kernel or memory lets it down.
   */
  method CaptureOnce(app: AppState, camera: Camera, a: Attempt, ghost start: Standing, ghost sections: seq<Section>)
    returns (ok: bool, selected: string, ghost sections': seq<Section>, ghost lived: nat)
    requires app.Valid() && camera.Valid() && camera.State() == NO_SESSION
    requires Stands(start, sections, app.View(), camera.trace) && !InSession(start, sections)
    modifies app, app.frame, camera
    ensures app.Valid() && (app.frame == old(app.frame) || fresh(app.frame))
    ensures camera.Valid() && camera.State() == NO_SESSION && old(camera.trace) <= camera.trace
    ensures Stands(start, sections', app.View(), camera.trace) && !InSession(start, sections')
    ensures Ended(a, old(app.frame.Length), lived, ok) && selected == if a.opens then a.node else "none"
    ensures ok ==> Stopping(app.View().slot)
    ensures !ok ==> Stopping(app.View().slot) || (app.camera == CameraUnavailable && app.health.cameraError != "")
    ensures !ok && !Stopping(app.View().slot) && selected != "" ==> app.meter.device == CopyText(DEVICE_MAX, selected)
  {
    var buffers := new MappedBuffer[BUFFER_COUNT](_ => MappedBuffer(false, 0));
    ok, sections', lived := false, sections, 0;
    selected := if a.opens then a.node else "none";
    camera.Open(a.opens, a.node);
    if !a.opens {
      var reason := "no UVC Video Capture node matched selector";
      sections' := MarkUnavailable(app, camera, selected, reason, a.lostMs, start, sections');
      return;
    }
    var error;
    ok, error, sections', lived := RunSession(app, camera, buffers, a, start, sections');
    var stopping := app.ShouldStop();
    if !ok && !stopping {
      sections' := MarkUnavailable(app, camera, selected, error, a.lostMs, start, sections');
    }
  }

  /** From the open node to the closed one. */
  method RunSession(app: AppState, camera: Camera, buffers: array<MappedBuffer>, a: Attempt,
                    ghost start: Standing, ghost sections: seq<Section>)
    returns (ok: bool, error: string, ghost sections': seq<Section>, ghost lived: nat)
    requires app.Valid() && camera.Valid() && a.opens && camera.State() == OpenSession(a.node)
    requires TableMatches(buffers, 0, camera.State())
    requires Stands(start, sections, app.View(), camera.trace) && !InSession(start, sections)
    modifies app, app.frame, camera, buffers
    ensures app.Valid() && (app.frame == old(app.frame) || fresh(app.frame))
    ensures camera.Valid() && camera.State() == NO_SESSION && old(camera.trace) <= camera.trace
    ensures Stands(start, sections', app.View(), camera.trace) && !InSession(start, sections')
    ensures Ended(a, old(app.frame.Length), lived, ok)
    ensures ok ==> Stopping(app.View().slot)
    ensures !ok ==> error != ""
  {
    ok, sections', lived := false, sections, 0;
    var streaming, mappedCount;
    streaming, mappedCount, error := SetUp(camera, buffers, a.setUp);
    if streaming {
      sections' := Activate(app, camera, a, start, sections');
      ok, error, sections', lived :=
        StreamFrames(app, camera, buffers, mappedCount, a.turns, Lengths(a.setUp), start, sections');
    }
    ghost var history := camera.trace;
    CleanUp(camera, buffers, mappedCount, streaming);
    SessionEnds(start, sections', app.View(), history, camera.trace);
    sections' := sections' + [SessionOver];
  }

  /** After whatever others did since: the camera is gone. */
  method MarkUnavailable(app: AppState, camera: Camera, selected: string, error: string, nowMs: Uint64,
                         ghost start: Standing, ghost sections: seq<Section>)
    returns (ghost sections': seq<Section>)
    requires app.Valid() && Stands(start, sections, app.View(), camera.trace)
    modifies app
    ensures app.Valid() && app.frame == old(app.frame)
    ensures Stands(start, sections', app.View(), camera.trace) && !InSession(start, sections')
    ensures app.camera == CameraUnavailable && app.health.cameraError == CopyText(ERROR_MAX, error)
    ensures app.health.cameraErrorAtMs == nowMs
    ensures selected != "" ==> app.meter.device == CopyText(DEVICE_MAX, selected)
  {
    sections' := OthersAct(app, camera, start, sections);
    ChangeMoves(start, sections', app.View(), Loses(selected, error, nowMs), camera.trace, camera.trace);
    sections' := sections' + [Own(Loses(selected, error, nowMs))];
    app.SetCameraUnavailable(selected, error, nowMs);
  }

  /** The session starts: a new generation, shown under the selected node's name. */
  method Activate(app: AppState, camera: Camera, a: Attempt, ghost start: Standing, ghost sections: seq<Section>)
    returns (ghost sections': seq<Section>)
    requires app.Valid() && camera.Valid()
    requires Stands(start, sections, app.View(), camera.trace) && !InSession(start, sections)
    requires camera.State().streaming && camera.State().active.None? && a.node == camera.State().device
    modifies app, camera
    ensures app.Valid() && camera.Valid() && app.frame == old(app.frame) && Quiet(old(camera.trace), camera.trace)
    ensures Stands(start, sections', app.View(), camera.trace) && InSession(start, sections')
    ensures camera.State() == old(camera.State()).(active := Some(app.captureGeneration))
    ensures app.camera == CameraActive && app.captureGeneration == Next(old(app.captureGeneration))
    ensures app.meter.device == CopyText(DEVICE_MAX, a.node) && app.meter.width == a.width
    ensures app.meter.height == a.height && app.meter.captureStartedNs == a.startNs
  {
    sections' := OthersAct(app, camera, start, sections);
    ghost var view, history, change := app.View(), camera.trace, Activates(a.node, a.width, a.height, a.startNs);
    app.SetCaptureActive(a.node, a.width, a.height, a.startNs);
    camera.Record(Activated(app.captureGeneration, app.meter.device));
    ChangeMoves(start, sections', view, change, history, camera.trace);
    sections' := sections' + [Own(change)];
  }

  /** The capture thread: sessions until one ends because of a stop. */
  method CaptureThread(app: AppState, camera: Camera, attempts: seq<Attempt>)
    returns (ghost sections: seq<Section>, ghost tried: nat)
    requires app.Valid() && camera.Valid() && camera.State() == NO_SESSION
    modifies app, app.frame, camera
    ensures app.Valid() && camera.Valid() && camera.State() == NO_SESSION && old(camera.trace) <= camera.trace
    ensures Stands(Standing(old(app.View()), false, Handed(old(camera.trace))), sections, app.View(), camera.trace)
    ensures tried <= |attempts| && (tried < |attempts| ==> Stopping(app.View().slot))
  {
    ghost var start := Standing(app.View(), false, Handed(camera.trace));
    sections, tried := [], 0;
    for attempt := 0 to |attempts|
      invariant tried == attempt
      invariant app.Valid() && camera.Valid() && camera.State() == NO_SESSION
      invariant app.frame == old(app.frame) || fresh(app.frame)
      invariant old(camera.trace) <= camera.trace
      invariant Stands(start, sections, app.View(), camera.trace) && !InSession(start, sections)
    {
      sections := OthersAct(app, camera, start, sections);
      var stopping := app.ShouldStop();
      if stopping {
        return;
      }
      var ok, selected;
      ghost var lived;
      ok, selected, sections, lived := CaptureOnce(app, camera, attempts[attempt], start, sections);
      if ok {
        return;
      }
      tried := tried + 1;
    }
  }
}
