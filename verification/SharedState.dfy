/**
 The state all threads share (app/daemon/state.c): the latest-frame slot, the
 health record, the motion fields and the thread counters.

 Every method of `AppState` is one section under the mutex.  The functions say
 what such a section does to the state as a value, so that interleavings of
 sections can be reasoned about; each method is proved to do exactly that.
 A wait on the condition variable hands the state to the other threads: the
 sections they execute meanwhile are the `changes` of a `Wake`.
 */
module SharedState {
  import opened CTypes

  const DEVICE_MAX := 64
  const ERROR_MAX := 256

  datatype CameraState = CameraInitializing | CameraActive | CameraUnavailable

  datatype EventLogState = LogInitializing | LogDisabled | LogHealthy | LogUnavailable

  /** The latest-frame slot, the camera state that guards it, and the two stop flags. */
  datatype Slot = Slot(frame: seq<Byte>, capacity: nat, sequence: Uint64, frameGeneration: Uint64,
                       captureGeneration: Uint64, camera: CameraState, stop: bool, signalled: bool)

  datatype Meter = Meter(frameCount: Uint64, captureBaseCount: Uint64, captureStartedNs: Uint64, fps: real,
                         width: Uint32, height: Uint32, device: string, startedNs: Uint64)

  datatype Health = Health(log: EventLogState, logError: string, logErrorAtMs: Uint64,
                           cameraError: string, cameraErrorAtMs: Uint64)

  datatype Motion = Motion(enabled: bool, detected: bool, score: real, sampleFps: real, eventCount: Uint64)

  datatype AppView = AppView(slot: Slot, meter: Meter, health: Health, motion: Motion, workers: nat, clients: nat)

  /** A published frame and the capture session it came from. */
  datatype Picture = Picture(bytes: seq<Byte>, generation: Uint64)

  /** ++ on a uint64_t. */
  function Next(n: Uint64): (r: Uint64)
    ensures r == (n + 1) % 0x1_0000_0000_0000_0000
  {
    if n == UINT64_MAX then 0 else n + 1
  }

  /** Subtraction on uint64_t. */
  function Minus(a: Uint64, b: Uint64): (r: Uint64)
    ensures r == (a - b) % 0x1_0000_0000_0000_0000
  {
    if a >= b then a - b else UINT64_MAX - b + a + 1
  }

  /** copy_text: what fits before the terminator. */
  function CopyText(size: nat, source: string): (text: string)
    requires size > 0
    ensures |text| < size && text <= source
    ensures |text| == Min(|source|, size - 1)
  {
    source[..Min(|source|, size - 1)]
  }

  /** What a frame must start with to be handed over. */
  predicate LooksLikeJpeg(bytes: seq<Byte>) {
    |bytes| >= 2 && bytes[0] == 0xFF && bytes[1] == 0xD8
  }

  predicate Stopping(s: Slot) {
    s.stop || s.signalled
  }

  // ------------------------------------------------- sections, on values

  function InitialState(nowMs: Uint64, nowNs: Uint64): AppView {
    AppView(Slot([], 0, 0, 0, 0, CameraInitializing, false, false),
            Meter(0, 0, 0, 0.0, 0, 0, "none", nowNs),
            Health(LogInitializing, "", 0, "camera not initialized", nowMs),
            Motion(false, false, 0.0, 0.0, 0), 0, 0)
  }

  function MotionConfigured(a: AppView, enabled: bool): AppView {
    a.(motion := Motion(enabled, false, 0.0, 0.0, 0),
       health := a.health.(log := if enabled then LogHealthy else LogDisabled, logError := "", logErrorAtMs := 0))
  }

  function CaptureActivated(a: AppView, device: string, width: Uint32, height: Uint32, nowNs: Uint64): AppView {
    a.(slot := a.slot.(captureGeneration := Next(a.slot.captureGeneration), camera := CameraActive),
       meter := a.meter.(captureBaseCount := a.meter.frameCount, captureStartedNs := nowNs, fps := 0.0,
                         width := width, height := height, device := CopyText(DEVICE_MAX, device)),
       health := a.health.(cameraError := "", cameraErrorAtMs := 0))
  }

  function CameraLost(a: AppView, device: string, error: string, nowMs: Uint64): AppView {
    a.(slot := a.slot.(camera := CameraUnavailable),
       meter := a.meter.(fps := 0.0, device := if device != "" then CopyText(DEVICE_MAX, device) else a.meter.device),
       motion := a.motion.(detected := false, score := 0.0, sampleFps := 0.0),
       health := a.health.(cameraError := CopyText(ERROR_MAX, error), cameraErrorAtMs := nowMs))
  }

  function EventLogHealed(a: AppView): AppView {
    if a.health.log == LogDisabled then a
    else a.(health := a.health.(log := LogHealthy, logError := "", logErrorAtMs := 0))
  }

  function EventLogLost(a: AppView, error: string, nowMs: Uint64): AppView {
    if a.health.log == LogDisabled then a
    else a.(health := a.health.(log := LogUnavailable, logError := CopyText(ERROR_MAX, error), logErrorAtMs := nowMs))
  }

  /** Whether the slot can hold `size` bytes, growing if memory allows. */
  predicate Fits(capacity: nat, size: nat, memory: bool) {
    size <= capacity || memory
  }

  function Max(a: nat, b: nat): nat {
    if a >= b then a else b
  }

  function FramePublished(a: AppView, bytes: seq<Byte>, memory: bool, nowNs: Uint64): AppView {
    if !Fits(a.slot.capacity, |bytes|, memory) then a
    else
      var count := Next(a.meter.frameCount);
      var elapsed := Minus(nowNs, a.meter.captureStartedNs);
      var captured := Minus(count, a.meter.captureBaseCount);
      a.(slot := a.slot.(frame := bytes, capacity := Max(a.slot.capacity, |bytes|), sequence := Next(a.slot.sequence),
                         frameGeneration := a.slot.captureGeneration),
         meter := a.meter.(frameCount := count,
                           fps := if elapsed > 0 then captured as real * 1000000000.0 / elapsed as real
                                  else a.meter.fps))
  }

  function StopRequested(a: AppView): AppView {
    a.(slot := a.slot.(stop := true))
  }

  /** The signal handler, which takes no lock. */
  function Signalled(a: AppView): AppView {
    a.(slot := a.slot.(signalled := true))
  }

  function WorkersCounted(a: AppView, delta: int): AppView {
    if delta > 0 then a.(workers := a.workers + delta)
    else if delta < 0 && a.workers > 0 then a.(workers := a.workers - 1)
    else a
  }

  function ClientsCounted(a: AppView, delta: int): AppView {
    if delta > 0 then a.(clients := a.clients + delta)
    else if delta < 0 && a.clients > 0 then a.(clients := a.clients - 1)
    else a
  }

  function MotionUpdated(a: AppView, detected: bool, score: real, sampleFps: real, eventCount: Uint64): AppView {
    if a.motion.enabled then a.(motion := Motion(true, detected, score, sampleFps, eventCount)) else a
  }

  function MotionSampleReset(a: AppView): AppView {
    a.(motion := a.motion.(detected := false, score := 0.0, sampleFps := 0.0))
  }

  // ---------------------------------------------------- taking the frame

  /** handle_stream's private copy. */
  datatype StreamCopy = StreamCopy(bytes: seq<Byte>, capacity: nat, sequence: Uint64)

  datatype StreamCode = StreamTimeout | StreamFrame | StreamEnd | StreamNoMemory

  predicate StreamMustWait(s: Slot, sequence: Uint64) {
    s.sequence <= sequence && !Stopping(s)
  }

  datatype StreamTake = StreamTake(code: StreamCode, copy: StreamCopy)

  /** What state_wait_frame does once it need not wait. */
  function TakeFrame(s: Slot, c: StreamCopy, memory: bool): StreamTake {
    if Stopping(s) then StreamTake(StreamEnd, c)
    else if !Fits(c.capacity, |s.frame|, memory) then StreamTake(StreamNoMemory, c)
    else StreamTake(StreamFrame, StreamCopy(s.frame, Max(c.capacity, |s.frame|), s.sequence))
  }

  /** The worker's private copy. */
  datatype JpegCopy = JpegCopy(bytes: seq<Byte>, capacity: nat, sequence: Uint64, generation: Uint64)

  datatype JpegStatus = JpegTimeout | JpegReady | JpegUnavailable | JpegStopped | JpegNoMemory | JpegError

  predicate JpegMustWait(s: Slot, sequence: Uint64) {
    s.sequence <= sequence && s.camera == CameraActive && !Stopping(s)
  }

  datatype JpegTake = JpegTake(status: JpegStatus, copy: JpegCopy)

  /** What state_wait_jpeg_snapshot does once it need not wait. */
  function TakeJpeg(s: Slot, c: JpegCopy, memory: bool): JpegTake {
    if Stopping(s) then JpegTake(JpegStopped, c)
    else if s.camera != CameraActive || s.frameGeneration != s.captureGeneration then
      JpegTake(JpegUnavailable, c.(sequence := s.sequence))
    else if !Fits(c.capacity, |s.frame|, memory) then JpegTake(JpegNoMemory, c)
    else JpegTake(JpegReady, JpegCopy(s.frame, Max(c.capacity, |s.frame|), s.sequence, s.frameGeneration))
  }

  // ------------------------------------------------------------- snapshot

  datatype StatusSnapshot = StatusSnapshot(
    degraded: bool, camera: CameraState, log: EventLogState, width: Uint32, height: Uint32, fps: real,
    frameCount: Uint64, clients: nat, motion: Motion, device: string, lastError: string, lastErrorAtMs: Uint64,
    uptime: real)

  predicate IsDegraded(a: AppView) {
    a.slot.camera != CameraActive || a.health.log == LogInitializing || a.health.log == LogUnavailable
  }

  /** Seconds between two readings of the clock, none if it went back. */
  function SecondsBetween(startedNs: Uint64, nowNs: Uint64): (seconds: real)
    ensures seconds >= 0.0
  {
    if nowNs >= startedNs then (nowNs - startedNs) as real / 1000000000.0 else 0.0
  }

  function Snapshot(a: AppView, nowNs: Uint64): StatusSnapshot {
    var h := a.health;
    var fault :=
      if h.log == LogUnavailable && h.logErrorAtMs >= h.cameraErrorAtMs then (h.logError, h.logErrorAtMs)
      else if a.slot.camera != CameraActive then (h.cameraError, h.cameraErrorAtMs)
      else ("", 0);
    StatusSnapshot(IsDegraded(a), a.slot.camera, h.log, a.meter.width, a.meter.height, a.meter.fps, a.meter.frameCount,
                   a.clients, a.motion, CopyText(DEVICE_MAX, a.meter.device), CopyText(ERROR_MAX, fault.0), fault.1,
                   SecondsBetween(a.meter.startedNs, nowNs))
  }

  // --------------------------------------------- other threads, while waiting

  /** A section some other thread executes. */
  datatype Change =
    | Activates(device: string, width: Uint32, height: Uint32, nowNs: Uint64)
    | Publishes(bytes: seq<Byte>, memory: bool, nowNs: Uint64)
    | Loses(lostDevice: string, error: string, nowMs: Uint64)
    | Stops
    | Signals
    | CountsWorker(workerDelta: int)
    | CountsClient(clientDelta: int)

  function Changed(a: AppView, c: Change): AppView {
    match c
    case Activates(device, width, height, nowNs) => CaptureActivated(a, device, width, height, nowNs)
    case Publishes(bytes, memory, nowNs) => FramePublished(a, bytes, memory, nowNs)
    case Loses(device, error, nowMs) => CameraLost(a, device, error, nowMs)
    case Stops => StopRequested(a)
    case Signals => Signalled(a)
    case CountsWorker(delta) => WorkersCounted(a, delta)
    case CountsClient(delta) => ClientsCounted(a, delta)
  }

  function AllChanged(a: AppView, changes: seq<Change>): AppView
    decreases |changes|
  {
    if changes == [] then a else AllChanged(Changed(a, changes[0]), changes[1..])
  }

  lemma {:induction false} AllChangedConcat(a: AppView, before: seq<Change>, after: seq<Change>)
    ensures AllChanged(AllChanged(a, before), after) == AllChanged(a, before + after)
    decreases |before|
  {
    if before == [] {
      assert before + after == after;
    } else {
      AllChangedConcat(Changed(a, before[0]), before[1..], after);
      assert (before + after)[1..] == before[1..] + after;
    }
  }

  /** How one pthread_cond_timedwait returns, and what others did before it got the lock back. */
  datatype Wake = Woken(changes: seq<Change>) | TimedOut(changes: seq<Change>) | WaitFails(changes: seq<Change>)

  /** All changes of the first n wakes. */
  function Seen(wakes: seq<Wake>, n: nat): seq<Change>
    requires n <= |wakes|
  {
    if n == 0 then [] else Seen(wakes, n - 1) + wakes[n - 1].changes
  }

  /** Waiting was necessary before each of n wakes, and only the last of them can have ended it. */
  predicate JpegWaited(a: AppView, wakes: seq<Wake>, n: nat, sequence: Uint64)
    requires n <= |wakes|
  {
    && (forall m :: 0 <= m < n ==> JpegMustWait(AllChanged(a, Seen(wakes, m)).slot, sequence))
    && (forall m :: 0 <= m < n - 1 ==> wakes[m].Woken?)
  }

  predicate StreamWaited(a: AppView, wakes: seq<Wake>, n: nat, sequence: Uint64)
    requires n <= |wakes|
  {
    && (forall m :: 0 <= m < n ==> StreamMustWait(AllChanged(a, Seen(wakes, m)).slot, sequence))
    && (forall m :: 0 <= m < n - 1 ==> wakes[m].Woken?)
  }

  /** How a wait ends: its condition is gone, its time is up, or pthread_cond_timedwait fails. */
  datatype WaitEnd = WaitOver | WaitLapsed | WaitBroken

  /** What n wakes, and the condition after them, make of the wait; wakes that run out are a timeout. */
  predicate EndedAs(end: WaitEnd, wakes: seq<Wake>, n: nat, mustWait: bool)
    requires n <= |wakes|
  {
    if n > 0 && wakes[n - 1].TimedOut? then end == WaitLapsed
    else if n > 0 && wakes[n - 1].WaitFails? then end == WaitBroken
    else if mustWait then end == WaitLapsed && n == |wakes|
    else end == WaitOver
  }

  lemma JpegWaitedOnce(a: AppView, wakes: seq<Wake>, n: nat, sequence: Uint64)
    requires n < |wakes| && JpegWaited(a, wakes, n, sequence) && (n > 0 ==> wakes[n - 1].Woken?)
    requires JpegMustWait(AllChanged(a, Seen(wakes, n)).slot, sequence)
    ensures JpegWaited(a, wakes, n + 1, sequence)
    ensures AllChanged(a, Seen(wakes, n + 1)) == AllChanged(AllChanged(a, Seen(wakes, n)), wakes[n].changes)
  {
    AllChangedConcat(a, Seen(wakes, n), wakes[n].changes);
  }

  lemma StreamWaitedOnce(a: AppView, wakes: seq<Wake>, n: nat, sequence: Uint64)
    requires n < |wakes| && StreamWaited(a, wakes, n, sequence) && (n > 0 ==> wakes[n - 1].Woken?)
    requires StreamMustWait(AllChanged(a, Seen(wakes, n)).slot, sequence)
    ensures StreamWaited(a, wakes, n + 1, sequence)
    ensures AllChanged(a, Seen(wakes, n + 1)) == AllChanged(AllChanged(a, Seen(wakes, n)), wakes[n].changes)
  {
    AllChangedConcat(a, Seen(wakes, n), wakes[n].changes);
  }

  /** The answer of state_wait_frame after n wakes, and the copy it leaves. */
  function StreamAnswer(slot: Slot, c: StreamCopy, wakes: seq<Wake>, n: nat, memory: bool): StreamTake
    requires n <= |wakes|
  {
    if n > 0 && wakes[n - 1].TimedOut? then StreamTake(StreamTimeout, c)
    else if n > 0 && wakes[n - 1].WaitFails? then StreamTake(StreamEnd, c)
    else if StreamMustWait(slot, c.sequence) then StreamTake(StreamTimeout, c)
    else TakeFrame(slot, c, memory)
  }

  /** The answer of state_wait_jpeg_snapshot after n wakes, and the copy it leaves. */
  function JpegAnswer(slot: Slot, c: JpegCopy, wakes: seq<Wake>, n: nat, memory: bool): JpegTake
    requires n <= |wakes|
  {
    if n > 0 && wakes[n - 1].TimedOut? then JpegTake(JpegTimeout, c)
    else if n > 0 && wakes[n - 1].WaitFails? then JpegTake(JpegError, c)
    else if JpegMustWait(slot, c.sequence) then JpegTake(JpegTimeout, c)
    else TakeJpeg(slot, c, memory)
  }

  /**
   What state_wait_frame promises: after a wait that neither time nor an error
   ended, the stop, a lack of memory for the frame, or the frame itself; else the
   timeout or the end, and the copy untouched.
   */
  predicate StreamAnswers(s: Slot, c: StreamCopy, wakes: seq<Wake>, n: nat, memory: bool, t: StreamTake)
    requires n <= |wakes|
  {
    var stopped := s.stop || s.signalled;
    if (n > 0 ==> wakes[n - 1].Woken?) && (s.sequence > c.sequence || stopped) then
      && (t.code == StreamEnd <==> stopped)
      && (t.code == StreamNoMemory <==> !stopped && !memory && |s.frame| > c.capacity)
      && (t.code == StreamFrame <==> !stopped && (memory || |s.frame| <= c.capacity))
      && (if t.code == StreamFrame then t.copy.bytes == s.frame && t.copy.sequence == s.sequence else t.copy == c)
    else t == StreamTake(if n > 0 && wakes[n - 1].WaitFails? then StreamEnd else StreamTimeout, c)
  }

  lemma StreamAnswerIs(s: Slot, c: StreamCopy, wakes: seq<Wake>, n: nat, memory: bool)
    requires n <= |wakes|
    ensures StreamAnswers(s, c, wakes, n, memory, StreamAnswer(s, c, wakes, n, memory))
  {
  }

  /** The same for state_wait_jpeg_snapshot; a refusal acknowledges the frame it finds. */
  predicate JpegAnswers(s: Slot, c: JpegCopy, wakes: seq<Wake>, n: nat, memory: bool, t: JpegTake)
    requires n <= |wakes|
  {
    var stopped, current := s.stop || s.signalled, s.camera == CameraActive && s.frameGeneration == s.captureGeneration;
    if (n > 0 ==> wakes[n - 1].Woken?) && (s.sequence > c.sequence || s.camera != CameraActive || stopped) then
      && (t.status == JpegStopped <==> stopped)
      && (t.status == JpegUnavailable <==> !stopped && !current)
      && (t.status == JpegNoMemory <==> !stopped && current && !memory && |s.frame| > c.capacity)
      && (t.status == JpegReady <==> !stopped && current && (memory || |s.frame| <= c.capacity))
      && (if t.status == JpegReady
          then t.copy == JpegCopy(s.frame, t.copy.capacity, s.sequence, s.frameGeneration)
          else t.copy == c.(sequence := if t.status == JpegUnavailable then s.sequence else c.sequence))
    else t == JpegTake(if n > 0 && wakes[n - 1].WaitFails? then JpegError else JpegTimeout, c)
  }

  lemma JpegAnswerIs(s: Slot, c: JpegCopy, wakes: seq<Wake>, n: nat, memory: bool)
    requires n <= |wakes|
    ensures JpegAnswers(s, c, wakes, n, memory, JpegAnswer(s, c, wakes, n, memory))
  {
  }

  class StreamBuffer {
    var data: array<Byte>
    var size: nat
    var sequence: Uint64

    ghost predicate Valid()
      reads this
    {
      size <= data.Length
    }

    ghost function View(): StreamCopy
      requires Valid()
      reads this, data
    {
      StreamCopy(data[..size], data.Length, sequence)
    }

    constructor ()
      ensures Valid() && View() == StreamCopy([], 0, 0) && fresh(data)
    {
      data := new Byte[0];
      size, sequence := 0, 0;
    }
  }

  class JpegSnapshot {
    var data: array<Byte>
    var size: nat
    var sequence: Uint64
    var generation: Uint64

    ghost predicate Valid()
      reads this
    {
      size <= data.Length
    }

    ghost function View(): JpegCopy
      requires Valid()
      reads this, data
    {
      JpegCopy(data[..size], data.Length, sequence, generation)
    }

    constructor ()
      ensures Valid() && View() == JpegCopy([], 0, 0, 0) && fresh(data)
    {
      data := new Byte[0];
      size, sequence, generation := 0, 0, 0;
    }
  }

  /** realloc of a buffer whose contents are about to be replaced. */
  method Grow(buffer: array<Byte>, size: nat) returns (resized: array<Byte>)
    requires size > buffer.Length
    ensures fresh(resized) && resized.Length == size
    ensures resized[..buffer.Length] == buffer[..]
  {
    resized := new Byte[size];
    forall i | 0 <= i < buffer.Length {
      resized[i] := buffer[i];
    }
  }

  /** memcpy to the front of a buffer. */
  method CopyInto(target: array<Byte>, source: array<Byte>, size: nat)
    requires target != source && size <= target.Length && size <= source.Length
    modifies target
    ensures target[..size] == source[..size]
    ensures target[size..] == old(target[size..])
  {
    for i := 0 to size
      invariant target[..i] == source[..i]
      invariant target[size..] == old(target[size..])
    {
      target[i] := source[i];
    }
  }

  class AppState {
    var frame: array<Byte>
    var frameSize: nat
    var frameSequence: Uint64
    var frameGeneration: Uint64
    var captureGeneration: Uint64
    var camera: CameraState
    var stop: bool
    var signalled: bool
    var meter: Meter
    var health: Health
    var motion: Motion
    var workers: nat
    var clients: nat

    /** The texts held are those copy_text lets in. */
    ghost predicate Valid()
      reads this
    {
      && frameSize <= frame.Length
      && |meter.device| < DEVICE_MAX && |health.cameraError| < ERROR_MAX && |health.logError| < ERROR_MAX
    }

    ghost function View(): AppView
      requires Valid()
      reads this, frame
    {
      AppView(Slot(frame[..frameSize], frame.Length, frameSequence, frameGeneration, captureGeneration,
                   camera, stop, signalled),
              meter, health, motion, workers, clients)
    }

    constructor (nowMs: Uint64, nowNs: Uint64)
      ensures Valid() && View() == InitialState(nowMs, nowNs) && fresh(frame)
    {
      frame := new Byte[0];
      frameSize, frameSequence, frameGeneration, captureGeneration := 0, 0, 0, 0;
      camera, stop, signalled := CameraInitializing, false, false;
      meter := Meter(0, 0, 0, 0.0, 0, 0, "none", nowNs);
      health := Health(LogInitializing, "", 0, "camera not initialized", nowMs);
      motion := Motion(false, false, 0.0, 0.0, 0);
      workers, clients := 0, 0;
    }

    method RequestStop()
      requires Valid()
      modifies this`stop
      ensures Valid() && View() == StopRequested(old(View()))
    {
      stop := true;
    }

    method ShouldStop() returns (stopping: bool)
      requires Valid()
      ensures stopping == Stopping(View().slot)
    {
      stopping := stop || signalled;
    }

    method SetCaptureActive(device: string, width: Uint32, height: Uint32, nowNs: Uint64)
      requires Valid()
      modifies this`captureGeneration, this`camera, this`meter, this`health
      ensures Valid() && View() == CaptureActivated(old(View()), device, width, height, nowNs)
    {
      captureGeneration := Next(captureGeneration);
      camera := CameraActive;
      meter := meter.(width := width, height := height, fps := 0.0, captureBaseCount := meter.frameCount,
                      captureStartedNs := nowNs, device := CopyText(DEVICE_MAX, device));
      health := health.(cameraError := "", cameraErrorAtMs := 0);
    }

    method SetCameraUnavailable(device: string, error: string, nowMs: Uint64)
      requires Valid()
      modifies this`camera, this`meter, this`health, this`motion
      ensures Valid() && View() == CameraLost(old(View()), device, error, nowMs)
    {
      camera := CameraUnavailable;
      meter := meter.(fps := 0.0);
      motion := motion.(detected := false, score := 0.0, sampleFps := 0.0);
      if device != "" {
        meter := meter.(device := CopyText(DEVICE_MAX, device));
      }
      health := health.(cameraError := CopyText(ERROR_MAX, error), cameraErrorAtMs := nowMs);
    }

    method SetEventLogOk()
      requires Valid()
      modifies this`health
      ensures Valid() && View() == EventLogHealed(old(View()))
    {
      if health.log != LogDisabled {
        health := health.(log := LogHealthy, logError := "", logErrorAtMs := 0);
      }
    }

    method SetEventLogUnavailable(error: string, nowMs: Uint64)
      requires Valid()
      modifies this`health
      ensures Valid() && View() == EventLogLost(old(View()), error, nowMs)
    {
      if health.log != LogDisabled {
        health := health.(log := LogUnavailable, logError := CopyText(ERROR_MAX, error), logErrorAtMs := nowMs);
      }
    }

    method PublishFrame(source: array<Byte>, size: nat, memory: bool, nowNs: Uint64) returns (ok: bool)
      requires Valid() && size <= source.Length && source != frame
      modifies this, frame
      ensures Valid() && (frame == old(frame) || fresh(frame))
      ensures ok == Fits(old(frame.Length), size, memory)
      ensures View() == FramePublished(old(View()), old(source[..size]), memory, nowNs)
      ensures stop == old(stop) && signalled == old(signalled)
    {
      if size > frame.Length {
        if !memory {
          return false;
        }
        frame := Grow(frame, size);
      }
      CopyInto(frame, source, size);
      frameSize := size;
      frameSequence := Next(frameSequence);
      frameGeneration := captureGeneration;
      meter := meter.(frameCount := Next(meter.frameCount));

      var elapsed := Minus(nowNs, meter.captureStartedNs);
      var captured := Minus(meter.frameCount, meter.captureBaseCount);
      if elapsed > 0 {
        meter := meter.(fps := captured as real * 1000000000.0 / elapsed as real);
      }
      return true;
    }

    method WorkerDelta(delta: int)
      requires Valid()
      modifies this`workers
      ensures Valid() && View() == WorkersCounted(old(View()), delta)
    {
      if delta > 0 {
        workers := workers + delta;
      } else if delta < 0 && workers > 0 {
        workers := workers - 1;
      }
    }

    method StreamClientDelta(delta: int)
      requires Valid()
      modifies this`clients
      ensures Valid() && View() == ClientsCounted(old(View()), delta)
    {
      if delta > 0 {
        clients := clients + delta;
      } else if delta < 0 && clients > 0 {
        clients := clients - 1;
      }
    }

    method ConfigureMotion(enabled: bool)
      requires Valid()
      modifies this`motion, this`health
      ensures Valid() && View() == MotionConfigured(old(View()), enabled)
    {
      motion := Motion(enabled, false, 0.0, 0.0, 0);
      health := health.(log := if enabled then LogHealthy else LogDisabled, logError := "", logErrorAtMs := 0);
    }

    method UpdateMotion(detected: bool, score: real, sampleFps: real, eventCount: Uint64)
      requires Valid()
      modifies this`motion
      ensures Valid() && View() == MotionUpdated(old(View()), detected, score, sampleFps, eventCount)
    {
      if motion.enabled {
        motion := motion.(detected := detected, score := score, sampleFps := sampleFps, eventCount := eventCount);
      }
    }

    method ResetMotionSample()
      requires Valid()
      modifies this`motion
      ensures Valid() && View() == MotionSampleReset(old(View()))
    {
      motion := motion.(detected := false, score := 0.0, sampleFps := 0.0);
    }

    method TakeSnapshot(nowNs: Uint64) returns (snapshot: StatusSnapshot)
      requires Valid()
      ensures snapshot == Snapshot(View(), nowNs)
    {
      var degraded := camera != CameraActive || health.log == LogInitializing || health.log == LogUnavailable;
      var lastError, lastErrorAtMs := "", 0;
      if health.log == LogUnavailable && health.logErrorAtMs >= health.cameraErrorAtMs {
        lastError := CopyText(ERROR_MAX, health.logError);
        lastErrorAtMs := health.logErrorAtMs;
      } else if camera != CameraActive {
        lastError := CopyText(ERROR_MAX, health.cameraError);
        lastErrorAtMs := health.cameraErrorAtMs;
      }
      var uptime := if nowNs >= meter.startedNs then (nowNs - meter.startedNs) as real / 1000000000.0 else 0.0;
      snapshot := StatusSnapshot(degraded, camera, health.log, meter.width, meter.height, meter.fps, meter.frameCount,
                                 clients, motion, CopyText(DEVICE_MAX, meter.device), lastError, lastErrorAtMs, uptime);
    }

    /** Another thread's section. */
    method Apply(c: Change)
      requires Valid()
      modifies this, frame
      ensures Valid() && View() == Changed(old(View()), c) && (frame == old(frame) || fresh(frame))
    {
      match c {
        case Activates(device, width, height, nowNs) => SetCaptureActive(device, width, height, nowNs);
        case Publishes(bytes, memory, nowNs) =>
          var source := new Byte[|bytes|];
          forall i | 0 <= i < |bytes| {
            source[i] := bytes[i];
          }
          assert source[..|bytes|] == bytes;
          var _ := PublishFrame(source, |bytes|, memory, nowNs);
        case Loses(device, error, nowMs) => SetCameraUnavailable(device, error, nowMs);
        case Stops => RequestStop();
        case Signals => signalled := true;
        case CountsWorker(delta) => WorkerDelta(delta);
        case CountsClient(delta) => StreamClientDelta(delta);
      }
    }

    method ApplyAll(changes: seq<Change>)
      requires Valid()
      modifies this, frame
      ensures Valid() && View() == AllChanged(old(View()), changes) && (frame == old(frame) || fresh(frame))
    {
      for n := 0 to |changes|
        invariant Valid() && (frame == old(frame) || fresh(frame))
        invariant AllChanged(old(View()), changes) == AllChanged(View(), changes[n..])
      {
        assert changes[n..][1..] == changes[n + 1..];
        Apply(changes[n]);
      }
    }

    /** What state_wait_frame does once the wait is over. */
    method CopyFrame(client: StreamBuffer, memory: bool) returns (code: StreamCode)
      requires Valid() && client.Valid() && client.data != frame
      modifies client, client.data
      ensures Valid() && client.Valid() && client.data != frame && View() == old(View())
      ensures client.data == old(client.data) || fresh(client.data)
      ensures StreamTake(code, client.View()) == TakeFrame(View().slot, old(client.View()), memory)
    {
      if stop || signalled {
        return StreamEnd;
      }
      if frameSize > client.data.Length {
        if !memory {
          return StreamNoMemory;
        }
        client.data := Grow(client.data, frameSize);
      }
      CopyInto(client.data, frame, frameSize);
      client.size := frameSize;
      client.sequence := frameSequence;
      return StreamFrame;
    }

    /** What state_wait_jpeg_snapshot does once the wait is over. */
    method CopyJpeg(snapshot: JpegSnapshot, memory: bool) returns (status: JpegStatus)
      requires Valid() && snapshot.Valid() && snapshot.data != frame
      modifies snapshot, snapshot.data
      ensures Valid() && snapshot.Valid() && snapshot.data != frame && View() == old(View())
      ensures snapshot.data == old(snapshot.data) || fresh(snapshot.data)
      ensures JpegTake(status, snapshot.View()) == TakeJpeg(View().slot, old(snapshot.View()), memory)
    {
      if stop || signalled {
        return JpegStopped;
      }
      if camera != CameraActive || frameGeneration != captureGeneration {
        snapshot.sequence := frameSequence;
        return JpegUnavailable;
      }
      if frameSize > snapshot.data.Length {
        if !memory {
          return JpegNoMemory;
        }
        snapshot.data := Grow(snapshot.data, frameSize);
      }
      CopyInto(snapshot.data, frame, frameSize);
      snapshot.size := frameSize;
      snapshot.sequence := frameSequence;
      snapshot.generation := frameGeneration;
      return JpegReady;
    }

    /** The wait of state_wait_frame. */
    method WhileStreamWaits(sequence: Uint64, wakes: seq<Wake>) returns (end: WaitEnd, ghost n: nat)
      requires Valid()
      modifies this, frame
      ensures Valid() && (frame == old(frame) || fresh(frame))
      ensures n <= |wakes| && View() == AllChanged(old(View()), Seen(wakes, n))
      ensures StreamWaited(old(View()), wakes, n, sequence)
      ensures EndedAs(end, wakes, n, StreamMustWait(View().slot, sequence))
    {
      n := 0;
      var next := 0;
      while frameSequence <= sequence && !stop && !signalled
        invariant Valid() && (frame == old(frame) || fresh(frame))
        invariant n == next <= |wakes| && View() == AllChanged(old(View()), Seen(wakes, n))
        invariant StreamWaited(old(View()), wakes, n, sequence) && (n > 0 ==> wakes[n - 1].Woken?)
        decreases |wakes| - next
      {
        if next == |wakes| {
          return WaitLapsed, n;
        }
        StreamWaitedOnce(old(View()), wakes, next, sequence);
        ApplyAll(wakes[next].changes);
        next := next + 1;
        n := next;
        if wakes[next - 1].TimedOut? {
          return WaitLapsed, n;
        }
        if wakes[next - 1].WaitFails? {
          return WaitBroken, n;
        }
      }
      return WaitOver, n;
    }

    /**
     state_wait_frame.  It waits exactly as long as it must; the answer is the one
     `TakeFrame` gives in the state the caller leaves behind, unless the wait
     itself ended first.
     */
    method WaitFrame(client: StreamBuffer, wakes: seq<Wake>, memory: bool) returns (code: StreamCode, ghost n: nat)
      requires Valid() && client.Valid() && client.data != frame
      modifies this, frame, client, client.data
      ensures Valid() && client.Valid() && client.data != frame
      ensures frame == old(frame) || fresh(frame)
      ensures client.data == old(client.data) || fresh(client.data)
      ensures n <= |wakes| && View() == AllChanged(old(View()), Seen(wakes, n))
      ensures StreamWaited(old(View()), wakes, n, old(client.sequence))
      ensures StreamTake(code, client.View()) == StreamAnswer(View().slot, old(client.View()), wakes, n, memory)
      ensures StreamAnswers(View().slot, old(client.View()), wakes, n, memory, StreamTake(code, client.View()))
    {
      ghost var before := client.View();
      var end: WaitEnd;
      end, n := WhileStreamWaits(client.sequence, wakes);
      match end {
        case WaitLapsed => code := StreamTimeout;
        case WaitBroken => code := StreamEnd;
        case WaitOver => code := CopyFrame(client, memory);
      }
      StreamAnswerIs(View().slot, before, wakes, n, memory);
    }

    /** The wait of state_wait_jpeg_snapshot. */
    method WhileJpegWaits(sequence: Uint64, wakes: seq<Wake>) returns (end: WaitEnd, ghost n: nat)
      requires Valid()
      modifies this, frame
      ensures Valid() && (frame == old(frame) || fresh(frame))
      ensures n <= |wakes| && View() == AllChanged(old(View()), Seen(wakes, n))
      ensures JpegWaited(old(View()), wakes, n, sequence)
      ensures EndedAs(end, wakes, n, JpegMustWait(View().slot, sequence))
    {
      n := 0;
      var next := 0;
      while frameSequence <= sequence && camera == CameraActive && !stop && !signalled
        invariant Valid() && (frame == old(frame) || fresh(frame))
        invariant n == next <= |wakes| && View() == AllChanged(old(View()), Seen(wakes, n))
        invariant JpegWaited(old(View()), wakes, n, sequence) && (n > 0 ==> wakes[n - 1].Woken?)
        decreases |wakes| - next
      {
        if next == |wakes| {
          return WaitLapsed, n;
        }
        JpegWaitedOnce(old(View()), wakes, next, sequence);
        ApplyAll(wakes[next].changes);
        next := next + 1;
        n := next;
        if wakes[next - 1].TimedOut? {
          return WaitLapsed, n;
        }
        if wakes[next - 1].WaitFails? {
          return WaitBroken, n;
        }
      }
      return WaitOver, n;
    }

    /** state_wait_jpeg_snapshot, in the same terms. */
    method WaitJpegSnapshot(snapshot: JpegSnapshot, wakes: seq<Wake>, memory: bool)
      returns (status: JpegStatus, ghost n: nat)
      requires Valid() && snapshot.Valid() && snapshot.data != frame
      modifies this, frame, snapshot, snapshot.data
      ensures Valid() && snapshot.Valid() && snapshot.data != frame
      ensures frame == old(frame) || fresh(frame)
      ensures snapshot.data == old(snapshot.data) || fresh(snapshot.data)
      ensures n <= |wakes| && View() == AllChanged(old(View()), Seen(wakes, n))
      ensures JpegWaited(old(View()), wakes, n, old(snapshot.sequence))
      ensures JpegTake(status, snapshot.View()) == JpegAnswer(View().slot, old(snapshot.View()), wakes, n, memory)
      ensures JpegAnswers(View().slot, old(snapshot.View()), wakes, n, memory, JpegTake(status, snapshot.View()))
    {
      ghost var before := snapshot.View();
      var end: WaitEnd;
      end, n := WhileJpegWaits(snapshot.sequence, wakes);
      match end {
        case WaitLapsed => status := JpegTimeout;
        case WaitBroken => status := JpegError;
        case WaitOver => status := CopyJpeg(snapshot, memory);
      }
      JpegAnswerIs(View().slot, before, wakes, n, memory);
    }
  }
}
