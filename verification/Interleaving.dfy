/**
 The daemon's threads interleaved: capture, stream clients, the motion worker and
 whoever requests the stop, each advancing by one section under the mutex.

 Actions carry what the world decides (bytes, memory, failures, time); the
 scheduler decides their order.  An action that its thread cannot take leaves
 everything as it is, so every sequence of actions is a run and every run of the
 threads is one of them.  Runs are bounded only by the 64-bit counters.
 */
module Interleaving {
  import opened CTypes
  import opened Pipeline
  import opened SharedState
  import opened Worker
  import opened WorkerLog

  /** Where the worker's loop stands. */
  datatype Stage =
    NotBegun | Sleeping | Checking | Waiting | Clearing(entry: Entry) | Holding | Reporting | Showing | Leaving | Gone

  /** One handle_stream: its copy, and every frame it has sent on. */
  datatype Stream = Stream(copy: StreamCopy, waiting: bool, open: bool, delivered: seq<StreamCopy>)

  /** `published` is the history of the slot: frame number n is published[n - 1]. */
  datatype Daemon = Daemon(app: AppView, capturing: bool, published: seq<Picture>,
                           worker: WorkerView, stage: Stage, log: seq<Entry>,
                           streams: map<nat, Stream>, clock: Clock)

  datatype CaptureAction =
    | Activate(device: string, width: Uint32, height: Uint32)
    | PublishNext(bytes: seq<Byte>, memory: bool)
    | Lose(lostDevice: string, error: string, nowMs: Uint64)
    | EndSession

  datatype StreamAction = Open | Check(memory: bool) | Lapse | Close

  datatype WorkerAction =
    | Begin
    | Wake
    | FailSleep
    | CheckSlot(memory: bool)
    | LapseWait
    | FailWait
    | ClearSample
    | Process(realMs: Uint64, world: World)
    | Report(error: string, nowMs: Uint64)
    | Show
    | Leave

  datatype Action =
    | TimePasses(delta: nat)
    | RequestStop
    | Signal
    | Capture(capture: CaptureAction)
    | Client(id: nat, client: StreamAction)
    | Work(work: WorkerAction)

  function Start(u: Setup, nowMs: Uint64, clock: Clock): Daemon
    requires ValidSetup(u)
  {
    Daemon(MotionConfigured(InitialState(nowMs, clock), u.config.motionEnabled), false, [],
           WorkerView(JpegCopy([], 0, 0, 0), 0, ZERO_PIPELINE, clock, NO_RATE),
           NotBegun, [], map[], clock)
  }

  predicate Sane(s: Daemon) {
    BaselineWellSized(s.worker.pipeline.detector)
  }

  // ---------------------------------------------------------------- transitions

  function CaptureStep(s: Daemon, a: CaptureAction): Daemon {
    match a
    case Activate(device, width, height) =>
      if s.capturing || s.app.slot.captureGeneration == UINT64_MAX then s
      else s.(app := CaptureActivated(s.app, device, width, height, s.clock), capturing := true)
    case PublishNext(bytes, memory) =>
      if !s.capturing || !LooksLikeJpeg(bytes) || s.app.slot.sequence == UINT64_MAX then s
      else if !Fits(s.app.slot.capacity, |bytes|, memory) then s.(capturing := false)
      else s.(app := FramePublished(s.app, bytes, memory, s.clock),
              published := s.published + [Picture(bytes, s.app.slot.captureGeneration)])
    case Lose(device, error, nowMs) =>
      s.(app := CameraLost(s.app, device, error, nowMs), capturing := false)
    case EndSession => s.(capturing := false)
  }

  const NEW_STREAM := Stream(StreamCopy([], 0, 0), false, true, [])

  /** What a client does with the slot as it is. */
  function StreamNext(slot: Slot, c: Stream, a: StreamAction): Stream {
    match a
    case Open => c
    case Check(memory) =>
      if !c.open then c
      else if StreamMustWait(slot, c.copy.sequence) then c.(waiting := true)
      else
        var t := TakeFrame(slot, c.copy, memory);
        if t.code == StreamFrame then Stream(t.copy, false, true, c.delivered + [t.copy]) else c.(open := false)
    case Lapse => c.(waiting := false)
    case Close => c.(open := false)
  }

  function StreamStep(s: Daemon, id: nat, a: StreamAction): Daemon {
    if id in s.streams then s.(streams := s.streams[id := StreamNext(s.app.slot, s.streams[id], a)])
    else if a.Open? then s.(streams := s.streams[id := NEW_STREAM])
    else s
  }

  function Last(log: seq<Entry>): Entry
    requires log != []
  {
    log[|log| - 1]
  }

  /** The worker checks the slot: it goes on waiting, or takes what it finds. */
  function Checked(s: Daemon, memory: bool): Daemon {
    if JpegMustWait(s.app.slot, s.worker.copy.sequence) then s.(stage := Waiting)
    else
      var t := TakeJpeg(s.app.slot, s.worker.copy, memory);
      s.(worker := s.worker.(copy := t.copy),
         stage := match t.status
                  case JpegReady => Holding
                  case JpegUnavailable => Clearing(Refused(t.copy.sequence))
                  case JpegStopped => Leaving
                  case _ => Clearing(Failed))
  }

  function Cleared(u: Setup, s: Daemon): Daemon
    requires ValidSetup(u) && s.stage.Clearing?
  {
    var w := if s.stage.entry.Failed? then s.worker else Forgotten(s.worker);
    s.(app := MotionSampleReset(s.app), worker := OnGrid(w, Interval(u.config), s.clock),
       stage := Sleeping, log := s.log + [s.stage.entry])
  }

  function EntryOf(u: Setup, s: Daemon, realMs: Uint64, world: World): Entry
    requires ValidSetup(u) && Sane(s) && DecoderContract(u.sizeMax, world.decoded)
  {
    var o := Processed(u.sizeMax, u.config, s.worker, s.clock, realMs, world);
    Sampled(SampleOf(s.worker, s.clock, realMs), s.worker.copy.generation, s.clock, world, o.status, o.result)
  }

  function ProcessedStep(u: Setup, s: Daemon, realMs: Uint64, world: World): Daemon
    requires ValidSetup(u) && Sane(s) && DecoderContract(u.sizeMax, world.decoded)
  {
    var o := Processed(u.sizeMax, u.config, s.worker, s.clock, realMs, world);
    s.(app := Entering(s.app, s.worker),
       worker := Counted(s.worker, o, s.clock), stage := Reporting, log := s.log + [EntryOf(u, s, realMs, world)])
  }

  function Shown(u: Setup, s: Daemon): Daemon
    requires ValidSetup(u) && s.log != [] && Last(s.log).Sampled?
  {
    var e := Last(s.log);
    s.(app := MotionPublished(s.app, e.status, e.result, ReportedFps(s.worker.rate, e.timeNs)),
       worker := OnGrid(s.worker, Interval(u.config), s.clock), stage := Sleeping)
  }

  function WorkerStep(u: Setup, s: Daemon, a: WorkerAction): (s': Daemon)
    requires ValidSetup(u) && Sane(s)
    ensures Sane(s')
  {
    match a
    case Begin =>
      if s.stage == NotBegun then
        s.(worker := s.worker.(nextSampleNs := s.clock), stage := if u.config.motionEnabled then Sleeping else Leaving)
      else s
    case FailSleep => if s.stage == Sleeping then s.(stage := Leaving) else s
    case Wake =>
      if s.stage == Sleeping && s.worker.nextSampleNs <= s.clock && !Stopping(s.app.slot)
      then s.(stage := Checking) else s
    case CheckSlot(memory) => if s.stage == Checking || s.stage == Waiting then Checked(s, memory) else s
    case LapseWait => if s.stage == Waiting then s.(stage := Clearing(Lapsed)) else s
    case FailWait => if s.stage == Waiting then s.(stage := Clearing(Failed)) else s
    case ClearSample => if s.stage.Clearing? then Cleared(u, s) else s
    case Process(realMs, world) =>
      if s.stage == Holding && DecoderContract(u.sizeMax, world.decoded) then
        StepKeepsSizes(u.sizeMax, Entered(s.worker).pipeline, MakePipelineConfig(u.config),
                       SampleOf(s.worker, s.clock, realMs), world);
        ProcessedStep(u, s, realMs, world)
      else s
    case Report(error, nowMs) =>
      if s.stage == Reporting && s.log != [] && Last(s.log).Sampled?
      then s.(app := HealthReported(s.app, Last(s.log).status, Last(s.log).result, error, nowMs), stage := Showing)
      else s
    case Show => if s.stage == Showing && s.log != [] && Last(s.log).Sampled? then Shown(u, s) else s
    case Leave =>
      if s.stage == Leaving || (s.stage == Sleeping && Stopping(s.app.slot))
      then s.(app := MotionSampleReset(s.app), stage := Gone) else s
  }

  function Step(u: Setup, s: Daemon, a: Action): (s': Daemon)
    requires ValidSetup(u) && Sane(s)
    ensures Sane(s')
  {
    match a
    case TimePasses(delta) => s.(clock := Later(s.clock, delta))
    case RequestStop => s.(app := StopRequested(s.app))
    case Signal => s.(app := Signalled(s.app))
    case Capture(c) => CaptureStep(s, c)
    case Client(id, c) => StreamStep(s, id, c)
    case Work(w) => WorkerStep(u, s, w)
  }

  function Run(u: Setup, s: Daemon, actions: seq<Action>): (s': Daemon)
    requires ValidSetup(u) && Sane(s)
    ensures Sane(s')
    decreases |actions|
  {
    if actions == [] then s else Run(u, Step(u, s, actions[0]), actions[1..])
  }

  lemma {:induction false} RunConcat(u: Setup, s: Daemon, a: seq<Action>, b: seq<Action>)
    requires ValidSetup(u) && Sane(s)
    ensures Run(u, s, a + b) == Run(u, Run(u, s, a), b)
    decreases |a|
  {
    if a == [] {
      assert a + b == b;
    } else {
      assert (a + b)[0] == a[0] && (a + b)[1..] == a[1..] + b;
      RunConcat(u, Step(u, s, a[0]), a[1..], b);
    }
  }

  lemma RunOne(u: Setup, s: Daemon, a: Action)
    requires ValidSetup(u) && Sane(s)
    ensures Run(u, s, [a]) == Step(u, s, a)
  {
    assert [a][1..] == [];
  }

  // ------------------------------------------------------------------ invariants

  /** The slot holds the newest published frame; sessions never go back. */
  ghost predicate SlotInv(s: Daemon) {
    var slot, n := s.app.slot, |s.published|;
    && slot.sequence == n && s.app.meter.frameCount == n && s.app.meter.captureBaseCount <= n
    && |slot.frame| <= slot.capacity && s.app.meter.startedNs <= s.clock
    && (n > 0 ==> slot.frame == s.published[n - 1].bytes && slot.frameGeneration == s.published[n - 1].generation)
    && (forall k :: 0 <= k < n ==>
          LooksLikeJpeg(s.published[k].bytes) && s.published[k].generation <= slot.captureGeneration)
    && (forall k :: 0 <= k < n ==>
          (s.published[k].generation == slot.captureGeneration <==> s.app.meter.captureBaseCount <= k))
    && (forall k, m :: 0 <= k < m < n ==> s.published[k].generation <= s.published[m].generation)
    && (s.capturing ==> slot.camera == CameraActive)
    && (slot.camera == CameraActive ==> slot.captureGeneration > 0)
    && (slot.captureGeneration == 0 ==> n == 0)
    && (forall k :: 0 <= k < n ==> s.published[k].generation > 0)
  }

  predicate DeliveredFrom(published: seq<Picture>, c: StreamCopy) {
    1 <= c.sequence <= |published| && c.bytes == published[c.sequence - 1].bytes
  }

  predicate Increasing(delivered: seq<StreamCopy>) {
    forall i, j :: 0 <= i < j < |delivered| ==> delivered[i].sequence < delivered[j].sequence
  }

  ghost predicate StreamOk(published: seq<Picture>, c: Stream) {
    && c.copy.sequence <= |published|
    && (forall i :: 0 <= i < |c.delivered| ==> DeliveredFrom(published, c.delivered[i]))
    && (forall i :: 0 <= i < |c.delivered| ==> c.delivered[i].sequence <= c.copy.sequence)
    && Increasing(c.delivered)
  }

  ghost predicate StreamInv(s: Daemon) {
    forall id :: id in s.streams ==> StreamOk(s.published, s.streams[id])
  }

  /** The newest frame number a pass has seen, taken or refused. */
  function Mark(e: Entry): nat {
    match e
    case Refused(n) => n
    case Sampled(sample, _, _, _, _, _) => sample.sequence
    case _ => 0
  }

  predicate TakenFrom(published: seq<Picture>, e: Entry)
    requires e.Sampled?
  {
    && 1 <= e.sample.sequence <= |published|
    && published[e.sample.sequence - 1] == Picture(e.sample.jpeg, e.generation)
    && e.sample.monotonicMs == e.timeNs / 1000000
  }

  ghost predicate TakenInv(u: Setup, s: Daemon) {
    && s.worker.copy.sequence <= |s.published|
    && WellFed(u, s.log)
    && (forall i :: 0 <= i < |s.log| ==> Mark(s.log[i]) <= s.worker.copy.sequence)
    && (forall i :: 0 <= i < |s.log| && s.log[i].Sampled? ==> TakenFrom(s.published, s.log[i]))
    && (forall i, j :: 0 <= i < j < |s.log| && s.log[j].Sampled? ==> Mark(s.log[i]) < s.log[j].sample.sequence)
    && (s.stage == Holding ==>
          && s.worker.copy.sequence >= 1
          && s.published[s.worker.copy.sequence - 1] == Picture(s.worker.copy.bytes, s.worker.copy.generation)
          && forall i :: 0 <= i < |s.log| ==> Mark(s.log[i]) < s.worker.copy.sequence)
    && (s.stage.Clearing? ==> !s.stage.entry.Sampled? && Mark(s.stage.entry) <= s.worker.copy.sequence)
  }

  /** The worker's memory is what its log says it is. */
  ghost predicate MemoryInv(u: Setup, s: Daemon)
    requires ValidSetup(u)
  {
    && WellFed(u, s.log) && Truthful(u, s.log)
    && Memory(s.worker.pipeline, s.worker.lastGeneration, s.worker.rate) == Replay(u, s.log)
  }

  predicate InPass(stage: Stage) {
    stage == Reporting || stage == Showing
  }

  /** The worker sits at, or has passed, its deadline. */
  predicate PastDeadline(stage: Stage) {
    stage in {Checking, Waiting, Holding} || stage.Clearing?
  }

  /** Passes completed, that is, followed by a move to the next deadline. */
  function PassesDone(s: Daemon): nat {
    if InPass(s.stage) && s.log != [] then |s.log| - 1 else |s.log|
  }

  predicate Apart(a: Entry, b: Entry, passes: int, interval: nat) {
    a.Sampled? && b.Sampled? ==> b.timeNs > a.timeNs + passes * interval
  }

  ghost predicate GridInv(u: Setup, s: Daemon)
    requires ValidSetup(u)
  {
    var interval, n := Interval(u.config), PassesDone(s);
    && AheadOf(s.log, n, s.worker.nextSampleNs, interval)
    && (forall i, j :: 0 <= i < j < |s.log| ==> Apart(s.log[i], s.log[j], j - i - 1, interval))
    && (forall i :: 0 <= i < |s.log| && s.log[i].Sampled? ==> s.log[i].timeNs <= s.clock)
    && (PastDeadline(s.stage) ==> s.worker.nextSampleNs <= s.clock)
    && (s.stage.Clearing? ==> !s.stage.entry.Sampled?) && (s.stage == NotBegun ==> s.log == [])
    && (InPass(s.stage) ==> s.log != [] && Last(s.log).Sampled? && s.worker.nextSampleNs <= Last(s.log).timeNs)
  }

  function ExpectedHealth(u: Setup, log: seq<Entry>): EventLogState {
    if !u.config.motionEnabled then LogDisabled else if LastAppendFailed(log) then LogUnavailable else LogHealthy
  }

  /** The log's health follows the last append; errors are recorded only while they last. */
  ghost predicate HealthInv(u: Setup, s: Daemon) {
    var h := s.app.health;
    && s.app.motion.enabled == u.config.motionEnabled
    && (!u.config.motionEnabled ==> s.log == [] && s.stage in {NotBegun, Leaving, Gone})
    && (s.stage == NotBegun ==> s.log == [] && !s.app.motion.detected)
    && (s.stage == Reporting ==> s.log != [])
    && h.log == ExpectedHealth(u, if s.stage == Reporting then s.log[..|s.log| - 1] else s.log)
    && (s.app.slot.camera == CameraActive ==> h.cameraError == "" && h.cameraErrorAtMs == 0)
    && (h.log != LogUnavailable ==> h.logError == "" && h.logErrorAtMs == 0)
    && |h.logError| < ERROR_MAX && |h.cameraError| < ERROR_MAX
  }

  ghost predicate Inv(u: Setup, s: Daemon)
    requires ValidSetup(u)
  {
    SlotInv(s) && StreamInv(s) && TakenInv(u, s) && MemoryInv(u, s) && GridInv(u, s) && HealthInv(u, s)
  }

  // ----------------------------------------------------------------- preservation

  lemma StartInv(u: Setup, nowMs: Uint64, clock: Clock)
    requires ValidSetup(u)
    ensures Sane(Start(u, nowMs, clock)) && Inv(u, Start(u, nowMs, clock))
  {
  }

  /** The worker never touches the slot, the meter or the streams. */
  lemma WorkerFrame(u: Setup, s: Daemon, a: WorkerAction)
    requires ValidSetup(u) && Sane(s)
    ensures var s' := WorkerStep(u, s, a);
            && s'.app.slot == s.app.slot && s'.app.meter == s.app.meter
            && s'.published == s.published && s'.capturing == s.capturing
            && s'.streams == s.streams && s'.clock == s.clock
  {
  }

  /** Capture touches neither the worker nor the streams, and only adds to the history. */
  lemma CaptureFrame(s: Daemon, a: CaptureAction)
    ensures var s' := CaptureStep(s, a);
            && s'.worker == s.worker && s'.stage == s.stage && s'.log == s.log
            && s'.streams == s.streams && s'.clock == s.clock
            && s.published <= s'.published
            && s'.app.health.log == s.app.health.log && s'.app.motion.enabled == s.app.motion.enabled
            && s'.app.health.logError == s.app.health.logError
            && s'.app.health.logErrorAtMs == s.app.health.logErrorAtMs
  {
  }

  /** Time, stops and clients touch neither the worker nor what capture writes. */
  lemma IdleFrame(u: Setup, s: Daemon, a: Action)
    requires ValidSetup(u) && Sane(s) && !a.Capture? && !a.Work?
    ensures var s' := Step(u, s, a);
            && s'.worker == s.worker && s'.stage == s.stage && s'.log == s.log && s.clock <= s'.clock
            && s'.published == s.published && s'.capturing == s.capturing
            && s'.app.meter == s.app.meter && s'.app.health == s.app.health && s'.app.motion == s.app.motion
            && s'.app.slot == s.app.slot.(stop := s'.app.slot.stop, signalled := s'.app.slot.signalled)
  {
  }

  /** All of the worker's steps but taking, clearing and processing leave it where and what it is, save its deadline. */
  lemma WorkerIdles(u: Setup, s: Daemon, a: WorkerAction)
    requires ValidSetup(u) && Sane(s) && !a.CheckSlot? && !a.ClearSample? && !a.Process?
    ensures var s' := WorkerStep(u, s, a);
            && s'.log == s.log && s'.worker == s.worker.(nextSampleNs := s'.worker.nextSampleNs)
            && (s'.stage == Holding ==> s.stage == Holding)
            && (s'.stage.Clearing? ==> s'.stage == s.stage || s'.stage.entry in {Lapsed, Failed})
  {
  }

  lemma SlotPreserved(u: Setup, s: Daemon, a: Action)
    requires ValidSetup(u) && Sane(s) && SlotInv(s)
    ensures SlotInv(Step(u, s, a))
  {
    if a.Capture? {
      SlotUnderCapture(s, a.capture);
    } else if a.Work? {
      WorkerFrame(u, s, a.work);
      SlotSame(s, WorkerStep(u, s, a.work));
    } else {
      IdleFrame(u, s, a);
      SlotSame(s, Step(u, s, a));
    }
  }

  lemma SlotSame(s: Daemon, s': Daemon)
    requires SlotInv(s) && s'.published == s.published && s'.capturing == s.capturing
    requires s'.app.meter == s.app.meter && s.clock <= s'.clock
    requires s'.app.slot == s.app.slot.(stop := s'.app.slot.stop, signalled := s'.app.slot.signalled)
    ensures SlotInv(s')
  {
  }

  lemma SlotUnderCapture(s: Daemon, a: CaptureAction)
    requires SlotInv(s)
    ensures SlotInv(CaptureStep(s, a))
  {
    if a.PublishNext? && CaptureStep(s, a).published != s.published {
      var s', n := CaptureStep(s, a), |s.published|;
      forall k | 0 <= k < n ensures s'.published[k] == s.published[k] {
      }
    }
  }

  lemma StreamStable(before: seq<Picture>, after: seq<Picture>, c: Stream)
    requires before <= after && StreamOk(before, c)
    ensures StreamOk(after, c)
  {
  }

  lemma StreamsPreserved(u: Setup, s: Daemon, a: Action)
    requires ValidSetup(u) && Sane(s) && SlotInv(s) && StreamInv(s)
    ensures StreamInv(Step(u, s, a))
  {
    match a
    case TimePasses(_) =>
    case RequestStop =>
    case Signal =>
    case Capture(c) =>
      CaptureFrame(s, c);
      forall id | id in s.streams ensures StreamOk(CaptureStep(s, c).published, s.streams[id]) {
        StreamStable(s.published, CaptureStep(s, c).published, s.streams[id]);
      }
    case Client(id, c) =>
      if id in s.streams {
        StreamTakes(s, s.streams[id], c);
      }
    case Work(w) => WorkerFrame(u, s, w);
  }

  /** A delivery is the newest published frame, and newer than all before it. */
  lemma StreamTakes(s: Daemon, c: Stream, a: StreamAction)
    requires SlotInv(s) && StreamOk(s.published, c)
    ensures var c' := StreamNext(s.app.slot, c, a);
            && StreamOk(s.published, c')
            && (c'.delivered == c.delivered ||
                (&& |c'.delivered| == |c.delivered| + 1
                 && c'.delivered[..|c.delivered|] == c.delivered
                 && s.published != []
                 && c'.delivered[|c.delivered|].sequence == |s.published| > c.copy.sequence
                 && c'.delivered[|c.delivered|].bytes == s.published[|s.published| - 1].bytes))
  {
    if a.Check? && c.open && !StreamMustWait(s.app.slot, c.copy.sequence) {
      var t := TakeFrame(s.app.slot, c.copy, a.memory);
      if t.code == StreamFrame { DeliveredOnce(s.published, c, t.copy); }
    }
  }

  lemma DeliveredOnce(published: seq<Picture>, c: Stream, copy: StreamCopy)
    requires StreamOk(published, c) && DeliveredFrom(published, copy) && copy.sequence > c.copy.sequence
    ensures StreamOk(published, Stream(copy, false, true, c.delivered + [copy]))
    ensures (c.delivered + [copy])[..|c.delivered|] == c.delivered
  {
  }

  lemma TakenStable(u: Setup, s: Daemon, published: seq<Picture>)
    requires TakenInv(u, s) && s.published <= published
    ensures TakenInv(u, s.(published := published))
  {
  }

  lemma TakenPreserved(u: Setup, s: Daemon, a: Action)
    requires ValidSetup(u) && Sane(s) && SlotInv(s) && TakenInv(u, s)
    ensures TakenInv(u, Step(u, s, a))
  {
    if a.Capture? {
      TakenUnderCapture(u, s, a.capture);
    } else if a.Work? {
      TakenUnderWork(u, s, a.work);
    } else {
      IdleFrame(u, s, a);
      TakenSame(u, s, Step(u, s, a));
    }
  }

  lemma TakenSame(u: Setup, s: Daemon, s': Daemon)
    requires TakenInv(u, s) && s'.published == s.published && s'.log == s.log && s'.worker.copy == s.worker.copy
    requires s'.stage == Holding ==> s.stage == Holding
    requires s'.stage.Clearing? ==> s'.stage == s.stage || s'.stage.entry in {Lapsed, Failed}
    ensures TakenInv(u, s')
  {
  }

  lemma TakenUnderCapture(u: Setup, s: Daemon, a: CaptureAction)
    requires TakenInv(u, s)
    ensures TakenInv(u, CaptureStep(s, a))
  {
    CaptureFrame(s, a);
    TakenStable(u, s, CaptureStep(s, a).published);
  }

  lemma TakenUnderWork(u: Setup, s: Daemon, a: WorkerAction)
    requires ValidSetup(u) && Sane(s) && SlotInv(s) && TakenInv(u, s)
    ensures TakenInv(u, WorkerStep(u, s, a))
  {
    match a
    case CheckSlot(memory) =>
      if s.stage == Checking || s.stage == Waiting { TakenUnderCheck(u, s, memory); }
    case ClearSample =>
      if s.stage.Clearing? { TakenUnderClear(u, s); }
    case Process(realMs, world) =>
      if s.stage == Holding && DecoderContract(u.sizeMax, world.decoded) { TakenUnderProcess(u, s, realMs, world); }
    case _ =>
      WorkerIdles(u, s, a);
      TakenSame(u, s, WorkerStep(u, s, a));
  }

  lemma TakenUnderClear(u: Setup, s: Daemon)
    requires ValidSetup(u) && TakenInv(u, s) && s.stage.Clearing?
    ensures TakenInv(u, Cleared(u, s))
  {
    TakenSnoc(u, s, s.stage.entry);
  }

  lemma TakenUnderProcess(u: Setup, s: Daemon, realMs: Uint64, world: World)
    requires ValidSetup(u) && Sane(s) && SlotInv(s) && TakenInv(u, s)
    requires s.stage == Holding && DecoderContract(u.sizeMax, world.decoded)
    ensures TakenInv(u, ProcessedStep(u, s, realMs, world))
  {
    TakenSnoc(u, s, EntryOf(u, s, realMs, world));
  }

  lemma TakenSnoc(u: Setup, s: Daemon, e: Entry)
    requires ValidSetup(u) && TakenInv(u, s) && Mark(e) <= s.worker.copy.sequence
    requires e.Sampled? ==> SampleIsValid(e.sample) && DecoderContract(u.sizeMax, e.world.decoded)
    requires e.Sampled? ==> TakenFrom(s.published, e)
    requires e.Sampled? ==> forall i :: 0 <= i < |s.log| ==> Mark(s.log[i]) < e.sample.sequence
    ensures TakenInv(u, s.(log := s.log + [e], stage := Sleeping))
  {
  }

  lemma TakenUnderCheck(u: Setup, s: Daemon, memory: bool)
    requires ValidSetup(u) && SlotInv(s) && TakenInv(u, s) && (s.stage == Checking || s.stage == Waiting)
    ensures TakenInv(u, Checked(s, memory))
  {
  }

  lemma MemoryPreserved(u: Setup, s: Daemon, a: Action)
    requires ValidSetup(u) && Sane(s) && SlotInv(s) && TakenInv(u, s) && MemoryInv(u, s)
    ensures MemoryInv(u, Step(u, s, a))
  {
    if a.Capture? {
      CaptureFrame(s, a.capture);
      MemorySame(u, s, CaptureStep(s, a.capture));
    } else if a.Work? {
      MemoryUnderWork(u, s, a.work);
    } else {
      IdleFrame(u, s, a);
      MemorySame(u, s, Step(u, s, a));
    }
  }

  lemma MemorySame(u: Setup, s: Daemon, s': Daemon)
    requires ValidSetup(u) && MemoryInv(u, s) && s'.log == s.log && s'.worker.pipeline == s.worker.pipeline
    requires s'.worker.lastGeneration == s.worker.lastGeneration && s'.worker.rate == s.worker.rate
    ensures MemoryInv(u, s')
  {
  }

  lemma MemoryUnderWork(u: Setup, s: Daemon, a: WorkerAction)
    requires ValidSetup(u) && Sane(s) && SlotInv(s) && TakenInv(u, s) && MemoryInv(u, s)
    ensures MemoryInv(u, WorkerStep(u, s, a))
  {
    match a
    case CheckSlot(memory) =>
      if s.stage == Checking || s.stage == Waiting { MemorySame(u, s, Checked(s, memory)); }
    case ClearSample =>
      if s.stage.Clearing? { MemoryUnderClear(u, s); }
    case Process(realMs, world) =>
      if s.stage == Holding && DecoderContract(u.sizeMax, world.decoded) { MemoryUnderProcess(u, s, realMs, world); }
    case _ =>
      WorkerIdles(u, s, a);
      MemorySame(u, s, WorkerStep(u, s, a));
  }

  lemma MemoryUnderClear(u: Setup, s: Daemon)
    requires ValidSetup(u) && MemoryInv(u, s) && s.stage.Clearing? && !s.stage.entry.Sampled?
    ensures MemoryInv(u, Cleared(u, s))
  {
    TruthfulSnoc(u, s.log, s.stage.entry);
  }

  /** Processing answers as the log demands, and remembers what the log remembers. */
  lemma MemoryUnderProcess(u: Setup, s: Daemon, realMs: Uint64, world: World)
    requires ValidSetup(u) && Sane(s) && SlotInv(s) && TakenInv(u, s) && MemoryInv(u, s)
    requires s.stage == Holding && DecoderContract(u.sizeMax, world.decoded)
    ensures Sane(ProcessedStep(u, s, realMs, world)) && MemoryInv(u, ProcessedStep(u, s, realMs, world))
  {
    var e, m := EntryOf(u, s, realMs, world), Replay(u, s.log);
    StepKeepsSizes(u.sizeMax, Entered(s.worker).pipeline, MakePipelineConfig(u.config),
                   SampleOf(s.worker, s.clock, realMs), world);
    assert Enter(m, e.generation)
        == Memory(Entered(s.worker).pipeline, Entered(s.worker).lastGeneration, Entered(s.worker).rate);
    TruthfulSnoc(u, s.log, e);
  }

  /** `next` lies more than the passes since behind it ahead of every sample among the first n entries. */
  ghost predicate AheadOf(log: seq<Entry>, n: nat, next: nat, interval: nat)
    requires n <= |log|
  {
    forall i :: 0 <= i < n && log[i].Sampled? ==> next > log[i].timeNs + (n - 1 - i) * interval
  }

  lemma DeadlineMoves(log: seq<Entry>, n: nat, next: nat, next': nat, interval: nat)
    requires n < |log| && AheadOf(log, n, next, interval)
    requires next' >= next + interval
    requires log[n].Sampled? ==> next' > log[n].timeNs
    ensures AheadOf(log, n + 1, next', interval)
  {
    forall i | 0 <= i < n + 1 && log[i].Sampled?
      ensures next' > log[i].timeNs + (n - i) * interval
    {
      if i < n {
        assert (n - i) * interval == (n - 1 - i) * interval + interval;
      }
    }
  }

  lemma GridPreserved(u: Setup, s: Daemon, a: Action)
    requires ValidSetup(u) && Sane(s) && GridInv(u, s)
    ensures GridInv(u, Step(u, s, a))
  {
    if a.Capture? {
      CaptureFrame(s, a.capture);
      GridRestaged(u, s, CaptureStep(s, a.capture));
    } else if a.Work? {
      GridUnderWork(u, s, a.work);
    } else {
      IdleFrame(u, s, a);
      GridRestaged(u, s, Step(u, s, a));
    }
  }

  lemma GridUnderWork(u: Setup, s: Daemon, a: WorkerAction)
    requires ValidSetup(u) && Sane(s) && GridInv(u, s)
    ensures GridInv(u, WorkerStep(u, s, a))
  {
    match a
    case ClearSample =>
      if s.stage.Clearing? { GridUnderClear(u, s); }
    case Process(realMs, world) =>
      if s.stage == Holding && DecoderContract(u.sizeMax, world.decoded) { GridUnderProcess(u, s, realMs, world); }
    case Show =>
      if s.stage == Showing { GridUnderShow(u, s); }
    case Begin =>
      if s.stage == NotBegun { GridUnderBegin(u, s); }
    case _ =>
      QuietStep(u, s, a);
      GridRestaged(u, s, WorkerStep(u, s, a));
  }

  /** The steps that neither record a pass nor move the deadline. */
  lemma QuietStep(u: Setup, s: Daemon, a: WorkerAction)
    requires ValidSetup(u) && Sane(s) && !a.Begin? && !a.ClearSample? && !a.Process? && !a.Show?
    ensures var s' := WorkerStep(u, s, a);
            && s'.log == s.log && s'.worker.nextSampleNs == s.worker.nextSampleNs && s'.clock == s.clock
            && InPass(s'.stage) == InPass(s.stage)
            && (PastDeadline(s'.stage) ==> PastDeadline(s.stage) || s.worker.nextSampleNs <= s.clock)
            && (s'.stage.Clearing? ==> s'.stage == s.stage || !s'.stage.entry.Sampled?)
            && (s'.stage == NotBegun ==> s.stage == NotBegun)
  {
  }

  lemma GridRestaged(u: Setup, s: Daemon, s': Daemon)
    requires ValidSetup(u) && GridInv(u, s)
    requires s'.log == s.log && s'.worker.nextSampleNs == s.worker.nextSampleNs && s.clock <= s'.clock
    requires InPass(s'.stage) == InPass(s.stage)
    requires PastDeadline(s'.stage) ==> PastDeadline(s.stage) || s.worker.nextSampleNs <= s.clock
    requires s'.stage.Clearing? ==> s'.stage == s.stage || !s'.stage.entry.Sampled?
    requires s'.stage == NotBegun ==> s.stage == NotBegun
    ensures GridInv(u, s')
  {
  }

  lemma GridUnderBegin(u: Setup, s: Daemon)
    requires ValidSetup(u) && Sane(s) && GridInv(u, s) && s.stage == NotBegun
    ensures GridInv(u, WorkerStep(u, s, Begin))
  {
  }

  lemma GridUnderShow(u: Setup, s: Daemon)
    requires ValidSetup(u) && GridInv(u, s) && s.stage == Showing && s.log != [] && Last(s.log).Sampled?
    ensures GridInv(u, Shown(u, s))
  {
    DeadlineMoves(s.log, |s.log| - 1, s.worker.nextSampleNs, Shown(u, s).worker.nextSampleNs, Interval(u.config));
  }

  lemma GridUnderClear(u: Setup, s: Daemon)
    requires ValidSetup(u) && GridInv(u, s) && s.stage.Clearing? && !s.stage.entry.Sampled?
    ensures GridInv(u, Cleared(u, s))
  {
    var s' := Cleared(u, s);
    assert forall i :: 0 <= i < |s.log| ==> s'.log[i] == s.log[i];
    DeadlineMoves(s'.log, |s.log|, s.worker.nextSampleNs, s'.worker.nextSampleNs, Interval(u.config));
  }

  lemma GridUnderProcess(u: Setup, s: Daemon, realMs: Uint64, world: World)
    requires ValidSetup(u) && Sane(s) && GridInv(u, s)
    requires s.stage == Holding && DecoderContract(u.sizeMax, world.decoded)
    ensures GridInv(u, ProcessedStep(u, s, realMs, world))
  {
    var s', n := ProcessedStep(u, s, realMs, world), |s.log|;
    assert forall i :: 0 <= i < n ==> s'.log[i] == s.log[i];
    assert forall i :: 0 <= i < n ==> Apart(s.log[i], s'.log[n], n - i - 1, Interval(u.config));
  }

  lemma HealthPreserved(u: Setup, s: Daemon, a: Action)
    requires ValidSetup(u) && Sane(s) && MemoryInv(u, s) && TakenInv(u, s) && GridInv(u, s) && HealthInv(u, s)
    ensures HealthInv(u, Step(u, s, a))
  {
    if a.Capture? {
      HealthUnderCapture(u, s, a.capture);
    } else if a.Work? {
      if InPass(s.stage) { LastAnswer(u, s); }
      HealthUnderWork(u, s, a.work);
    } else {
      IdleFrame(u, s, a);
      HealthSame(u, s, Step(u, s, a));
    }
  }

  lemma HealthSame(u: Setup, s: Daemon, s': Daemon)
    requires HealthInv(u, s) && s'.app.health == s.app.health && s'.app.motion.enabled == s.app.motion.enabled
    requires s'.log == s.log && s'.app.slot.camera == s.app.slot.camera
    requires (s'.stage == Reporting) == (s.stage == Reporting)
    requires s'.stage == NotBegun ==> s.stage == NotBegun && s'.app.motion == s.app.motion
    requires !u.config.motionEnabled ==> s'.stage in {NotBegun, Leaving, Gone}
    ensures HealthInv(u, s')
  {
  }

  lemma HealthUnderCapture(u: Setup, s: Daemon, a: CaptureAction)
    requires HealthInv(u, s)
    ensures HealthInv(u, CaptureStep(s, a))
  {
    CaptureFrame(s, a);
  }

  lemma HealthUnderWork(u: Setup, s: Daemon, a: WorkerAction)
    requires ValidSetup(u) && Sane(s) && HealthInv(u, s)
    requires InPass(s.stage) ==> s.log != [] && Last(s.log).Sampled? && Candid(Last(s.log))
    requires s.stage.Clearing? ==> !s.stage.entry.Sampled?
    ensures HealthInv(u, WorkerStep(u, s, a))
  {
    match a
    case ClearSample =>
      if s.stage.Clearing? { HealthUnderClear(u, s); }
    case Process(realMs, world) =>
      if s.stage == Holding && DecoderContract(u.sizeMax, world.decoded) { HealthUnderProcess(u, s, realMs, world); }
    case Report(error, nowMs) =>
      if s.stage == Reporting { HealthUnderReport(u, s, error, nowMs); }
    case Show =>
      if s.stage == Showing { HealthUnderShow(u, s); }
    case _ =>
      HealthIdles(u, s, a);
      HealthSame(u, s, WorkerStep(u, s, a));
  }

  /** The steps that change neither health nor record, and start or end no report. */
  lemma HealthIdles(u: Setup, s: Daemon, a: WorkerAction)
    requires ValidSetup(u) && Sane(s) && !a.ClearSample? && !a.Process? && !a.Report? && !a.Show?
    requires !u.config.motionEnabled ==> s.stage in {NotBegun, Leaving, Gone}
    ensures var s' := WorkerStep(u, s, a);
            && s'.app.health == s.app.health && s'.app.motion.enabled == s.app.motion.enabled
            && s'.log == s.log && (s'.stage == Reporting) == (s.stage == Reporting)
            && (s'.stage == NotBegun ==> s' == s)
            && (!u.config.motionEnabled ==> s'.stage in {NotBegun, Leaving, Gone})
            && s'.app.slot == s.app.slot
  {
  }

  lemma HealthUnderClear(u: Setup, s: Daemon)
    requires ValidSetup(u) && HealthInv(u, s) && s.stage.Clearing? && !s.stage.entry.Sampled?
    ensures HealthInv(u, Cleared(u, s))
  {
    assert Cleared(u, s).log[..|s.log|] == s.log;
  }

  lemma HealthUnderShow(u: Setup, s: Daemon)
    requires ValidSetup(u) && HealthInv(u, s) && s.stage == Showing && s.log != [] && Last(s.log).Sampled?
    ensures HealthInv(u, Shown(u, s))
  {
    assert Shown(u, s).app.health == s.app.health;
  }

  lemma HealthUnderProcess(u: Setup, s: Daemon, realMs: Uint64, world: World)
    requires ValidSetup(u) && Sane(s) && HealthInv(u, s)
    requires s.stage == Holding && DecoderContract(u.sizeMax, world.decoded)
    ensures HealthInv(u, ProcessedStep(u, s, realMs, world))
  {
    var s' := ProcessedStep(u, s, realMs, world);
    assert s'.log[..|s'.log| - 1] == s.log;
    assert s'.app.health == s.app.health && s'.app.slot == s.app.slot && s'.app.motion.enabled == s.app.motion.enabled;
  }

  lemma HealthUnderReport(u: Setup, s: Daemon, error: string, nowMs: Uint64)
    requires ValidSetup(u) && HealthInv(u, s) && s.stage == Reporting
    requires s.log != [] && Last(s.log).Sampled? && Candid(Last(s.log))
    ensures var reported := HealthReported(s.app, Last(s.log).status, Last(s.log).result, error, nowMs);
            HealthInv(u, s.(app := reported, stage := Showing))
  {
  }

  /** A pass logged its event exactly if it emitted one and the append succeeded. */
  predicate Candid(e: Entry)
    requires e.Sampled?
  {
    && (e.status == PipelineEventLogError ==> e.result.eventEmitted)
    && (e.status == PipelineOk ==> e.result.eventLogged == e.result.eventEmitted)
    && (!Judged(e.status) ==> !e.result.eventEmitted)
  }

  lemma LastAnswer(u: Setup, s: Daemon)
    requires ValidSetup(u) && MemoryInv(u, s) && s.log != [] && Last(s.log).Sampled?
    ensures Candid(Last(s.log))
  {
    var n := |s.log| - 1;
    TruthfulPrefix(u, s.log, n);
    BaselineOrigin(u, s.log[..n]);
    OnlyTheWorldFails(u.sizeMax, Enter(Replay(u, s.log[..n]), s.log[n].generation).pipeline, Chain(u),
                      s.log[n].sample, s.log[n].world);
  }

  lemma StepInv(u: Setup, s: Daemon, a: Action)
    requires ValidSetup(u) && Sane(s) && Inv(u, s)
    ensures Inv(u, Step(u, s, a))
  {
    SlotPreserved(u, s, a);
    StreamsPreserved(u, s, a);
    TakenPreserved(u, s, a);
    MemoryPreserved(u, s, a);
    GridPreserved(u, s, a);
    HealthPreserved(u, s, a);
  }

  lemma {:induction false} RunInv(u: Setup, s: Daemon, actions: seq<Action>)
    requires ValidSetup(u) && Sane(s) && Inv(u, s)
    ensures Inv(u, Run(u, s, actions))
    decreases |actions|
  {
    if actions != [] {
      StepInv(u, s, actions[0]);
      RunInv(u, Step(u, s, actions[0]), actions[1..]);
    }
  }
}
