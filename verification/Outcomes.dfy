/**
 What the steps of the daemon achieve, in every reachable state: when a frame is
 published, delivered, sampled or refused, what a verdict compares and with which
 of the configured numbers, what an event records and what is shown.

 The lemmas speak of the configuration, the published history and the stop flags
 themselves, in both directions wherever a step can go either way.
 */
module Outcomes {
  import opened CTypes
  import opened Detector
  import opened Doubles
  import opened EventGate
  import opened EventLog
  import opened Pipeline
  import opened SharedState
  import opened Worker
  import opened WorkerLog
  import opened Interleaving
  import opened DaemonProperties

  // -------------------------------------------------------------------- the start

  /** Before any step: no camera and why, no frame, nothing counted, motion and log as configured. */
  lemma StartOutcome(u: Setup, nowMs: Uint64, clock: Clock)
    requires ValidSetup(u)
    ensures var s := Start(u, nowMs, clock);
            && s.app.slot == Slot([], 0, 0, 0, 0, CameraInitializing, false, false) && s.published == []
            && s.app.meter == Meter(0, 0, 0, 0.0, 0, 0, "none", clock)
            && s.app.health == Health(if u.config.motionEnabled then LogHealthy else LogDisabled, "", 0,
                                      "camera not initialized", nowMs)
            && s.app.motion == Motion(u.config.motionEnabled, false, 0.0, 0.0, 0)
            && s.app.workers == 0 && s.app.clients == 0 && !s.capturing && s.stage == NotBegun
  {
  }

  // ------------------------------------------------------------------ publishing

  /** The frames published in the current capture session. */
  function SessionFrames(s: Daemon): int {
    |s.published| - s.app.meter.captureBaseCount
  }

  /**
   In an active session a frame that starts like a JPEG is published if and only
   if it fits the slot or memory allows it to grow; it is then the newest, and the
   rate is what was published in this session over the time since its activation.
   */
  lemma PublishOutcome(u: Setup, s: Daemon, bytes: seq<Byte>, memory: bool)
    requires Reachable(u, s) && Sane(s) && s.capturing && |s.published| < UINT64_MAX
    requires |bytes| >= 2 && bytes[0] == 0xFF && bytes[1] == 0xD8
    ensures var s' := Step(u, s, Action.Capture(PublishNext(bytes, memory)));
            var elapsed := s.clock - s.app.meter.captureStartedNs;
            if memory || |bytes| <= s.app.slot.capacity then
              && s'.published == s.published + [Picture(bytes, s.app.slot.captureGeneration)] && s'.capturing
              && s'.app.meter.frameCount == |s'.published|
              && (elapsed > 0 ==> s'.app.meter.fps * elapsed as real == SessionFrames(s') as real * 1000000000.0)
              && (elapsed == 0 ==> s'.app.meter.fps == s.app.meter.fps)
            else s'.app == s.app && s'.published == s.published && !s'.capturing
  {
    PublishIsStep(u, s, PublishNext(bytes, memory));
    PublishIsReady(u, s);
    PublishesNext(s, bytes, memory);
  }

  lemma PublishIsStep(u: Setup, s: Daemon, a: CaptureAction)
    requires ValidSetup(u) && Sane(s)
    ensures Step(u, s, Action.Capture(a)) == CaptureStep(s, a)
  {
  }

  lemma PublishIsReady(u: Setup, s: Daemon)
    requires Reachable(u, s)
    ensures SlotInv(s) && s.app.meter.captureStartedNs <= s.clock
  {
    SlotIsSound(u, s);
    MeterStarted(u, s);
  }

  lemma PublishesNext(s: Daemon, bytes: seq<Byte>, memory: bool)
    requires SlotInv(s) && s.capturing && |s.published| < UINT64_MAX && s.app.meter.captureStartedNs <= s.clock
    requires |bytes| >= 2 && bytes[0] == 0xFF && bytes[1] == 0xD8
    ensures var s' := CaptureStep(s, PublishNext(bytes, memory));
            var elapsed := s.clock - s.app.meter.captureStartedNs;
            if memory || |bytes| <= s.app.slot.capacity then
              && s'.published == s.published + [Picture(bytes, s.app.slot.captureGeneration)] && s'.capturing
              && s'.app.meter.frameCount == |s'.published|
              && (elapsed > 0 ==> s'.app.meter.fps * elapsed as real == SessionFrames(s') as real * 1000000000.0)
              && (elapsed == 0 ==> s'.app.meter.fps == s.app.meter.fps)
            else s'.app == s.app && s'.published == s.published && !s'.capturing
  {
    if memory || |bytes| <= s.app.slot.capacity {
      PublishedMeter(s, bytes, memory);
    }
  }

  lemma PublishedMeter(s: Daemon, bytes: seq<Byte>, memory: bool)
    requires SlotInv(s) && |s.published| < UINT64_MAX && (memory || |bytes| <= s.app.slot.capacity)
    requires s.app.meter.captureStartedNs <= s.clock
    ensures var a := FramePublished(s.app, bytes, memory, s.clock);
            var elapsed := s.clock - s.app.meter.captureStartedNs;
            var frames := SessionFrames(s) + 1;
            && a.meter.frameCount == |s.published| + 1
            && (elapsed > 0 ==> a.meter.fps * elapsed as real == frames as real * 1000000000.0)
            && (elapsed == 0 ==> a.meter.fps == s.app.meter.fps)
  {
    var elapsed := s.clock - s.app.meter.captureStartedNs;
    if elapsed > 0 {
      Quotients((SessionFrames(s) + 1) as real * 1000000000.0, elapsed as real);
    }
  }

  lemma Quotients(x: real, y: real)
    requires y > 0.0
    ensures x / y * y == x
  {
  }

  /** Activating takes the size, the node and the clock; the rate starts from nothing. */
  lemma ActivateOutcome(u: Setup, s: Daemon, device: string, width: Uint32, height: Uint32)
    requires ValidSetup(u) && Sane(s)
    requires !s.capturing && s.app.slot.captureGeneration < UINT64_MAX
    ensures var s' := Step(u, s, Action.Capture(Activate(device, width, height)));
            && s'.app.meter == Meter(s.app.meter.frameCount, s.app.meter.frameCount, s.clock, 0.0, width, height,
                                     device[..Min(|device|, 63)], s.app.meter.startedNs)
            && s'.app.slot == s.app.slot.(captureGeneration := s.app.slot.captureGeneration + 1, camera := CameraActive)
            && s'.app.health == s.app.health.(cameraError := "", cameraErrorAtMs := 0)
            && s'.app.motion == s.app.motion && s'.capturing
  {
  }

  /** Losing the camera shows why and since when, no rate and no motion; the event count stays. */
  lemma LoseOutcome(u: Setup, s: Daemon, device: string, error: string, nowMs: Uint64)
    requires ValidSetup(u) && Sane(s)
    ensures var s' := Step(u, s, Action.Capture(Lose(device, error, nowMs)));
            var name := if device == "" then s.app.meter.device else device[..Min(|device|, 63)];
            && s'.app.meter == s.app.meter.(fps := 0.0, device := name)
            && s'.app.slot == s.app.slot.(camera := CameraUnavailable)
            && s'.app.health == s.app.health.(cameraError := error[..Min(|error|, 255)], cameraErrorAtMs := nowMs)
            && s'.app.motion == Motion(s.app.motion.enabled, false, 0.0, 0.0, s.app.motion.eventCount)
            && !s'.capturing
  {
  }

  /** The session's clock reading stays what its activation took. */
  lemma StartedKept(u: Setup, s: Daemon, a: Action)
    requires ValidSetup(u) && Sane(s) && !(a.Capture? && a.capture.Activate?)
    ensures var m, m' := s.app.meter, Step(u, s, a).app.meter;
            && m'.captureStartedNs == m.captureStartedNs && m'.captureBaseCount == m.captureBaseCount
            && m'.width == m.width && m'.height == m.height && m'.startedNs == m.startedNs
  {
    if a.Work? {
      WorkerFrame(u, s, a.work);
    } else if !a.Capture? {
      IdleFrame(u, s, a);
    }
  }

  predicate StartedBy(s: Daemon) {
    s.app.meter.captureStartedNs <= s.clock
  }

  lemma StartedStep(u: Setup, s: Daemon, a: Action)
    requires ValidSetup(u) && Sane(s) && StartedBy(s)
    ensures StartedBy(Step(u, s, a))
  {
    if a.Capture? {
      CaptureFrame(s, a.capture);
    } else if a.Work? {
      WorkerFrame(u, s, a.work);
    } else {
      IdleFrame(u, s, a);
    }
  }

  lemma {:induction false} StartedRun(u: Setup, s: Daemon, actions: seq<Action>)
    requires ValidSetup(u) && Sane(s) && StartedBy(s)
    ensures StartedBy(Run(u, s, actions))
    decreases |actions|
  {
    if actions != [] {
      StartedStep(u, s, actions[0]);
      StartedRun(u, Step(u, s, actions[0]), actions[1..]);
    }
  }

  lemma MeterStarted(u: Setup, s: Daemon)
    requires Reachable(u, s)
    ensures StartedBy(s)
  {
    var nowMs: Uint64, clock: Clock, actions: seq<Action> :| Arrives(u, nowMs, clock, actions, s);
    StartedRun(u, Start(u, nowMs, clock), actions);
  }

  // ------------------------------------------------------------------- the stop

  predicate Stopped(s: Daemon) {
    s.app.slot.stop || s.app.slot.signalled
  }

  /** Either way of asking for the stop is seen at once, and for good. */
  lemma StopIsFinal(u: Setup, s: Daemon, a: Action)
    requires ValidSetup(u) && Sane(s)
    ensures Stopped(Step(u, s, a)) <==> Stopped(s) || a.RequestStop? || a.Signal?
  {
    if a.Work? {
      WorkerFrame(u, s, a.work);
    }
  }

  // ------------------------------------------------------- delivery to a client

  /**
   What a client's check of the slot comes to: the stop ends its stream; with
   nothing newer it waits; the newest frame is delivered if it fits the client's
   buffer or memory allows, and otherwise the stream ends.
   */
  lemma StreamOutcome(u: Setup, s: Daemon, id: nat, memory: bool)
    requires Reachable(u, s) && Sane(s) && id in s.streams && s.streams[id].open
    ensures var c, c', n := s.streams[id], Step(u, s, Client(id, Check(memory))).streams[id], |s.published|;
            if Stopped(s) then !c'.open && c'.delivered == c.delivered
            else if c.copy.sequence == n then c' == c.(waiting := true)
            else
              && c.copy.sequence < n
              && if memory || |s.published[n - 1].bytes| <= c.copy.capacity then
                   && c'.open && c'.copy.sequence == n && c'.copy.bytes == s.published[n - 1].bytes
                   && c'.delivered == c.delivered + [c'.copy]
                 else !c'.open && c'.delivered == c.delivered
  {
    SlotIsSound(u, s);
    assert StreamOk(s.published, s.streams[id]);
  }

  /** With memory, a client that is behind always gets the newest frame. */
  lemma NewestIsDelivered(u: Setup, s: Daemon, id: nat)
    requires Reachable(u, s) && Sane(s) && id in s.streams && s.streams[id].open
    requires s.streams[id].copy.sequence < |s.published| && !Stopped(s)
    ensures var c, c' := s.streams[id], Step(u, s, Client(id, Check(true))).streams[id];
            && c'.open && |c'.delivered| == |c.delivered| + 1 && c'.delivered[..|c.delivered|] == c.delivered
            && c'.delivered[|c.delivered|].sequence == |s.published|
            && c'.delivered[|c.delivered|].bytes == s.published[|s.published| - 1].bytes
  {
    StreamOutcome(u, s, id, true);
  }

  // ----------------------------------------------------------- the worker's look

  /** The newest frame was published in the current session. */
  predicate SessionHasFrame(s: Daemon) {
    s.published != [] && s.published[|s.published| - 1].generation == s.app.slot.captureGeneration
  }

  /**
   The stop; else nothing newer from an active camera; else no camera, or no frame
   of its session; else no memory for the frame; else the newest frame.
   */
  predicate CheckComesTo(s: Daemon, s': Daemon, memory: bool)
    requires s.app.slot.sequence == |s.published|
  {
    var c, n := s.worker.copy, s.app.slot.sequence;
    && s'.app == s.app && s'.log == s.log
    && if Stopped(s) then s'.stage == Leaving && s'.worker == s.worker
       else if s.app.slot.camera == CameraActive && c.sequence == n then
         s'.stage == Waiting && s'.worker == s.worker
       else if s.app.slot.camera != CameraActive || !SessionHasFrame(s) then
         s'.stage == Clearing(Refused(n)) && s'.worker == s.worker.(copy := c.(sequence := n))
       else if !memory && |s.published[n - 1].bytes| > c.capacity then
         s'.stage == Clearing(Failed) && s'.worker == s.worker
       else
         && s'.stage == Holding && s'.worker == s.worker.(copy := s'.worker.copy)
         && s'.worker.copy.sequence == n > c.sequence
         && Picture(s'.worker.copy.bytes, s'.worker.copy.generation) == s.published[n - 1]
  }

  /** What the worker's look at the slot comes to, in the order of its tests. */
  lemma CheckOutcome(u: Setup, s: Daemon, memory: bool)
    requires Reachable(u, s) && Sane(s) && s.stage in {Checking, Waiting}
    ensures s.app.slot.sequence == |s.published|
    ensures CheckComesTo(s, Step(u, s, Work(CheckSlot(memory))), memory)
  {
    SlotIsSound(u, s);
    LogIsTruthful(u, s);
    CheckedOutcome(s, memory);
  }

  /** The generation stamped on the frame is that of the newest published one. */
  lemma FreshnessOfSlot(s: Daemon)
    requires SlotInv(s)
    ensures s.app.slot.frameGeneration == s.app.slot.captureGeneration ==> SessionHasFrame(s) || s.published == []
    ensures SessionHasFrame(s) ==> s.app.slot.frameGeneration == s.app.slot.captureGeneration
  {
  }

  lemma CheckedOutcome(s: Daemon, memory: bool)
    requires SlotInv(s) && s.worker.copy.sequence <= |s.published|
    ensures CheckComesTo(s, Checked(s, memory), memory)
  {
    FreshnessOfSlot(s);
  }

  // ----------------------------------------------------------------- the verdict

  /** The positions in which two frames differ by at least so much. */
  function Differing(p: seq<Byte>, q: seq<Byte>, delta: nat): set<nat>
    requires |p| == |q|
  {
    set k: nat | k < |p| && (p[k] >= q[k] + delta || q[k] >= p[k] + delta)
  }

  lemma DifferingIsAbsDiff(p: seq<Byte>, q: seq<Byte>, delta: nat)
    requires |p| == |q|
    ensures Differing(p, q, delta) == set k | 0 <= k < |p| && AbsDiff(p[k], q[k]) >= delta
  {
  }

  /**
   A judged pass that compares counts the pixels that differ by at least the
   configured delta, scores their share, and reports motion if and only if that
   reaches the configured ratio.
   */
  lemma VerdictFollowsConfig(u: Setup, s: Daemon, j: nat, i: nat)
    requires Reachable(u, s) && WellFed(u, s.log) && Compares(u, s.log, j, i)
    ensures var p, q, r := ImageOf(s.log[j]).pixels, ImageOf(s.log[i]).pixels, s.log[i].result;
            && |p| == |q| == r.totalPixels > 0
            && r.changedPixels == |Differing(p, q, u.config.motionPixelDeltaThreshold)| <= r.totalPixels
            && r.score == Quotient(r.changedPixels, r.totalPixels)
            && (r.motionDetected <==>
                  Quotient(r.changedPixels, r.totalPixels) >= u.config.motionChangedRatioThreshold)
  {
    LogIsTruthful(u, s);
    VerdictsAreJustified(u, s.log, i);
    var p, q := ImageOf(s.log[j]).pixels, ImageOf(s.log[i]).pixels;
    assert ReportsDifference(p, q, Chain(u).thresholds, MotionPart(s.log[i].result));
    DifferingIsAbsDiff(p, q, u.config.motionPixelDeltaThreshold);
  }

  /** The settings every pass is run with are the configured ones. */
  lemma SettingsReachThePipeline(u: Setup)
    requires ValidSetup(u)
    ensures var c := Chain(u);
            && c.scaleDenom == u.config.motionJpegScaleDenom && c.eventLogPath == u.config.eventLog
            && c.thresholds.pixelDelta == u.config.motionPixelDeltaThreshold
            && c.thresholds.changedRatio == u.config.motionChangedRatioThreshold
            && c.cooldownMs == u.config.motionCooldownMs
  {
  }

  // ------------------------------------------------------------------- the event

  /** A sample is the frame held, with both clocks as they are read. */
  lemma SampleOutcome(u: Setup, s: Daemon, realMs: Uint64, world: World)
    requires ValidSetup(u) && Sane(s) && s.stage == Holding && DecoderContract(u.sizeMax, world.decoded)
    ensures var s' := Step(u, s, Work(Process(realMs, world)));
            && |s'.log| == |s.log| + 1 && Last(s'.log).Sampled? && s'.stage == Reporting
            && Last(s'.log).sample == JpegSample(s.worker.copy.bytes, s.worker.copy.sequence, s.clock / 1000000, realMs)
            && Last(s'.log).generation == s.worker.copy.generation && Last(s'.log).timeNs == s.clock
            && Last(s'.log).world == world
  {
    assert Step(u, s, Work(Process(realMs, world))) == ProcessedStep(u, s, realMs, world);
  }

  /** A frame of another session takes the old verdict off the screen first; one of the same changes nothing shown. */
  lemma SessionIsEntered(u: Setup, s: Daemon, realMs: Uint64, world: World)
    requires ValidSetup(u) && Sane(s) && s.stage == Holding && DecoderContract(u.sizeMax, world.decoded)
    ensures var s', m := Step(u, s, Work(Process(realMs, world))), s.app.motion;
            && s'.worker.lastGeneration == s.worker.copy.generation
            && s'.app == if s.worker.copy.generation == s.worker.lastGeneration then s.app
                         else s.app.(motion := Motion(m.enabled, false, 0.0, 0.0, m.eventCount))
  {
    assert Step(u, s, Work(Process(realMs, world))) == ProcessedStep(u, s, realMs, world);
  }

  /** An event's record tells when its frame was sampled, which it was, what changed and against which settings. */
  lemma EventTellsItsPass(u: Setup, s: Daemon, i: nat)
    requires Reachable(u, s) && i < |s.log| && s.log[i].Sampled? && s.log[i].result.eventEmitted
    ensures s.log[i].result.changedPixels <= s.log[i].result.totalPixels <= UINT64_MAX
    ensures var e, r := s.log[i], s.log[i].result;
            MakeEventRecord(Chain(u), e.sample, r)
            == MotionEventRecord(e.sample.realtimeMs, e.sample.sequence, r.score, u.config.motionChangedRatioThreshold,
                                 r.changedPixels, r.totalPixels, u.config.motionCooldownMs)
  {
    ArgumentsAreAlwaysValid(u, s, i);
  }

  // ------------------------------------------------------------ what is shown

  /** The gate's counter and the one a judged pass reports are the same, and count the run's events. */
  lemma ReportedCount(u: Setup, s: Daemon)
    requires Reachable(u, s) && InPass(s.stage) && s.log != [] && IsJudged(Last(s.log))
    ensures Last(s.log).result.eventCount
         == Saturated(CountTrue(Emits(RESET_GATE, Verdicts(s.log), u.config.motionCooldownMs)))
  {
    LogIsTruthful(u, s);
    MemoryIsReplay(u, s);
    LastCount(u, s.log);
    CountOverRun(u, s);
  }

  lemma CountOverRun(u: Setup, s: Daemon)
    requires Reachable(u, s)
    ensures s.worker.pipeline.gate.eventCount
         == Saturated(CountTrue(Emits(RESET_GATE, Verdicts(s.log), u.config.motionCooldownMs)))
  {
    LogIsTruthful(u, s);
    MemoryIsReplay(u, s);
    CountInLog(u, s.log);
  }

  lemma MemoryIsReplay(u: Setup, s: Daemon)
    requires Reachable(u, s)
    ensures WellFed(u, s.log)
    ensures Memory(s.worker.pipeline, s.worker.lastGeneration, s.worker.rate) == Replay(u, s.log)
  {
    ReachableInv(u, s);
  }

  lemma CountInLog(u: Setup, log: seq<Entry>)
    requires ValidSetup(u) && WellFed(u, log) && Truthful(u, log)
    ensures Replay(u, log).pipeline.gate.eventCount
         == Saturated(CountTrue(Emits(RESET_GATE, Verdicts(log), u.config.motionCooldownMs)))
  {
    LogIsChain(u, log);
    ChainCount(u.sizeMax, Chain(u), Ops(log));
  }

  lemma ChainCount(sizeMax: nat, c: PipelineConfig, ops: seq<ChainOp>)
    requires ChainObligations(sizeMax, c, ops)
    ensures RunChain(sizeMax, c, ops).gate.eventCount
         == Saturated(CountTrue(Emits(RESET_GATE, GateSamples(sizeMax, c, ops), c.cooldownMs)))
  {
    ChainRun(sizeMax, c, ops);
    FromReset(GateSamples(sizeMax, c, ops), c.cooldownMs);
  }

  lemma FromReset(samples: seq<Sample>, cooldown: Uint64)
    requires cooldown > 0
    ensures GateAfter(RESET_GATE, samples, cooldown).eventCount
         == Saturated(CountTrue(Emits(RESET_GATE, samples, cooldown)))
  {
    CountsEvents(RESET_GATE, samples, cooldown);
  }

  lemma LastCount(u: Setup, log: seq<Entry>)
    requires ValidSetup(u) && WellFed(u, log) && Truthful(u, log) && log != [] && IsJudged(Last(log))
    ensures Last(log).result.eventCount == Replay(u, log).pipeline.gate.eventCount
  {
    var n := |log| - 1;
    TruthfulPrefix(u, log, n);
    var m := Replay(u, log[..n]);
    AnsweredCount(u.sizeMax, Enter(m, log[n].generation).pipeline, Chain(u), log[n].sample, log[n].world);
  }

  lemma AnsweredCount(sizeMax: nat, p: PipelineState, c: PipelineConfig, s: JpegSample, w: World)
    requires sizeMax <= UINT64_MAX && DecoderContract(sizeMax, w.decoded) && BaselineWellSized(p.detector)
    requires Judged(PipelineStep(sizeMax, p, c, s, w).status)
    ensures var o := PipelineStep(sizeMax, p, c, s, w); o.result.eventCount == o.state.gate.eventCount
  {
  }

  /** The next point of the grid: the first one after the clock, and never the old one. */
  ghost predicate NextOnGrid(deadline: nat, interval: nat, now: nat, next: nat) {
    exists m: nat :: GridPoint(deadline, interval, m, next) && next > now && (m == 1 || next - interval <= now)
  }

  predicate GridPoint(deadline: nat, interval: nat, m: nat, next: nat) {
    m >= 1 && next == deadline + m * interval
  }

  lemma DeadlineIsNext(deadline: nat, interval: nat, now: nat)
    requires interval > 0
    ensures NextOnGrid(deadline, interval, now, AdvancedDeadline(deadline, interval, now))
  {
    var next := AdvancedDeadline(deadline, interval, now);
    LeastGridPoint(deadline, interval, now, 1);
    var m: nat :| m >= 1 && next == deadline + m * interval;
    assert GridPoint(deadline, interval, m, next);
    if m > 1 {
      OneBefore(m, interval);
      LeastGridPoint(deadline, interval, now, m - 1);
    }
  }

  lemma OneBefore(m: nat, interval: nat)
    requires m > 0
    ensures (m - 1) * interval == m * interval - interval
  {
  }

  /** The rate of n samples over a span of nanoseconds; none until two differ in time. */
  predicate RateOf(fps: real, n: int, span: int) {
    if n > 1 && span > 0 then fps * span as real == (n - 1) as real * 1000000000.0 else fps == 0.0
  }

  lemma ReportedRateIs(r: Rate, now: nat)
    ensures RateOf(ReportedFps(r, now), r.samples, now - r.startedNs)
  {
    if r.samples > 1 && now > r.startedNs {
      Quotients((r.samples - 1) as real * NS_PER_SECOND as real, (now - r.startedNs) as real);
    }
  }

  /** How many passes of the current session were judged. */
  function SessionPasses(log: seq<Entry>): nat {
    JudgedIn(log[SessionStart(log)..])
  }

  /** The rate a judged pass shows is that of its session. */
  lemma ShownRateIs(u: Setup, s: Daemon) returns (f: nat)
    requires Reachable(u, s) && InPass(s.stage) && s.log != [] && IsJudged(Last(s.log))
    ensures FirstJudged(s.log, SessionStart(s.log), f)
    ensures RateOf(ReportedFps(s.worker.rate, Last(s.log).timeNs), SessionPasses(s.log),
                   Last(s.log).timeNs - s.log[f].timeNs)
  {
    SessionRate(u, s);
    f := FirstOfSession(s.log, s.worker.rate);
    ReportedRateIs(s.worker.rate, Last(s.log).timeNs);
  }

  lemma SessionRate(u: Setup, s: Daemon)
    requires Reachable(u, s)
    ensures RateFrom(s.log, SessionStart(s.log), s.worker.rate)
  {
    LogIsTruthful(u, s);
    MemoryIsReplay(u, s);
    RateStart(u, s.log);
  }

  lemma FirstOfSession(log: seq<Entry>, r: Rate) returns (f: nat)
    requires log != [] && IsJudged(Last(log)) && RateFrom(log, SessionStart(log), r)
    ensures FirstJudged(log, SessionStart(log), f) && log[f].timeNs == r.startedNs
    ensures r.samples == SessionPasses(log)
  {
    var start, n := SessionStart(log), |log| - 1;
    if r.samples == 0 {
      LastIsInSession(log);
      NoneJudgedIn(log, start);
      assert false;
    }
    f :| FirstJudged(log, start, f) && log[f].timeNs == r.startedNs;
  }

  lemma LastIsInSession(log: seq<Entry>)
    requires log != [] && Last(log).Sampled?
    ensures SessionStart(log) < |log|
  {
  }

  lemma InPassHasSample(u: Setup, s: Daemon)
    requires Reachable(u, s) && InPass(s.stage)
    ensures s.log != [] && Last(s.log).Sampled? && s.app.motion.enabled
  {
    ReachableInv(u, s);
  }

  /**
   Showing a verdict: all of it at once, with the session's rate and the number of
   the run's events; a pass that was not judged shows nothing.  The worker then
   sleeps to the next point of its grid.
   */
  lemma ShowOutcome(u: Setup, s: Daemon) returns (f: nat)
    requires Reachable(u, s) && Sane(s) && s.stage == Showing
    ensures s.log != [] && Last(s.log).Sampled?
    ensures var s', r := Step(u, s, Work(Show)), Last(s.log).result;
            && s'.stage == Sleeping && s'.log == s.log && s'.app == s.app.(motion := s'.app.motion)
            && s'.worker == s.worker.(nextSampleNs := s'.worker.nextSampleNs)
            && NextOnGrid(s.worker.nextSampleNs, 1000000000 / u.config.motionSampleFps, s.clock, s'.worker.nextSampleNs)
            && s'.app.motion.enabled
            && if IsJudged(Last(s.log)) then
                 && s'.app.motion.detected == r.motionDetected && s'.app.motion.score == r.score
                 && s'.app.motion.eventCount
                    == Saturated(CountTrue(Emits(RESET_GATE, Verdicts(s.log), u.config.motionCooldownMs)))
                 && FirstJudged(s.log, SessionStart(s.log), f)
                 && RateOf(s'.app.motion.sampleFps, SessionPasses(s.log), Last(s.log).timeNs - s.log[f].timeNs)
               else s'.app.motion == Motion(true, false, 0.0, 0.0, s.app.motion.eventCount)
  {
    InPassHasSample(u, s);
    f := 0;
    if IsJudged(Last(s.log)) {
      f := ShownRateIs(u, s);
      ReportedCount(u, s);
    }
    ShownParts(u, s);
    DeadlineIsNext(s.worker.nextSampleNs, Interval(u.config), s.clock);
    assert Step(u, s, Work(Show)) == Shown(u, s);
  }

  lemma ShownParts(u: Setup, s: Daemon)
    requires ValidSetup(u) && s.log != [] && Last(s.log).Sampled? && s.app.motion.enabled
    ensures var s', e := Shown(u, s), Last(s.log);
            && s'.app == s.app.(motion := s'.app.motion) && s'.stage == Sleeping && s'.log == s.log
            && s'.worker == OnGrid(s.worker, Interval(u.config), s.clock)
            && s'.worker.nextSampleNs == AdvancedDeadline(s.worker.nextSampleNs, Interval(u.config), s.clock)
            && s'.app.motion
               == if IsJudged(e)
                  then Motion(true, e.result.motionDetected, e.result.score, ReportedFps(s.worker.rate, e.timeNs),
                              e.result.eventCount)
                  else Motion(true, false, 0.0, 0.0, s.app.motion.eventCount)
  {
  }

  /**
   A pass without a frame shows nothing, keeps the event count, moves on to the next
   point of the grid, and forgets the session unless the wait or memory failed.
   */
  lemma ClearOutcome(u: Setup, s: Daemon)
    requires ValidSetup(u) && Sane(s) && s.stage.Clearing?
    ensures var s', m, p := Step(u, s, Work(ClearSample)), s.app.motion, s.worker.pipeline;
            && s'.app == s.app.(motion := Motion(m.enabled, false, 0.0, 0.0, m.eventCount))
            && s'.stage == Sleeping && s'.log == s.log + [s.stage.entry] && s'.worker.copy == s.worker.copy
            && NextOnGrid(s.worker.nextSampleNs, 1000000000 / u.config.motionSampleFps, s.clock, s'.worker.nextSampleNs)
            && if s.stage.entry.Failed? then s'.worker == s.worker.(nextSampleNs := s'.worker.nextSampleNs)
               else
                 && s'.worker.pipeline.detector.baseline.None? && s'.worker.rate.samples == 0
                 && s'.worker.pipeline.gate == p.gate && s'.worker.pipeline.log == p.log
                 && s'.worker.lastGeneration == 0
  {
    DeadlineIsNext(s.worker.nextSampleNs, Interval(u.config), s.clock);
  }

  /** A failed append is reported with its error and time, a logged event heals, anything else changes nothing. */
  lemma ReportOutcome(u: Setup, s: Daemon, error: string, nowMs: Uint64)
    requires Reachable(u, s) && Sane(s) && s.stage == Reporting
    ensures s.log != [] && Last(s.log).Sampled?
    ensures var s', e, h := Step(u, s, Work(Report(error, nowMs))), Last(s.log), s.app.health;
            && s'.stage == Showing && s'.app == s.app.(health := s'.app.health) && s'.log == s.log
            && s'.app.health
               == if e.status == PipelineEventLogError
                  then Health(LogUnavailable, error[..Min(|error|, 255)], nowMs, h.cameraError, h.cameraErrorAtMs)
                  else if e.status == PipelineOk && e.result.eventLogged
                  then Health(LogHealthy, "", 0, h.cameraError, h.cameraErrorAtMs)
                  else h
  {
    InPassHasSample(u, s);
    LogIsEnabled(u, s);
  }

  lemma LogIsEnabled(u: Setup, s: Daemon)
    requires Reachable(u, s) && InPass(s.stage)
    ensures s.app.health.log != LogDisabled
  {
    ReachableInv(u, s);
  }

  // --------------------------------------------------------- the worker moves on

  /** Awake at the deadline, unless the stop was seen. */
  lemma WakeOutcome(u: Setup, s: Daemon)
    requires ValidSetup(u) && Sane(s) && s.stage == Sleeping
    ensures var s' := Step(u, s, Work(Wake));
            s' == if s.worker.nextSampleNs <= s.clock && !Stopped(s) then s.(stage := Checking) else s
  {
  }

  /** How many moves of its own the worker has left once the stop is seen. */
  function MovesToGo(stage: Stage): nat {
    match stage
    case Gone => 0
    case Leaving => 1
    case NotBegun => 3
    case Sleeping => 2
    case Checking => 2
    case Waiting => 4
    case Clearing(_) => 3
    case Showing => 3
    case Reporting => 4
    case Holding => 5
  }

  /** The step the worker takes after the stop, wherever it stands. */
  function WayOut(stage: Stage): WorkerAction {
    match stage
    case NotBegun => Begin
    case Checking => CheckSlot(true)
    case Waiting => CheckSlot(true)
    case Clearing(_) => ClearSample
    case Holding => Process(0, World(DecodeFails, true, AppendIo(false, [], false)))
    case Reporting => Report("", 0)
    case Showing => Show
    case _ => Leave
  }

  /** After the stop every move of the worker brings it nearer to its end, and it is never without one. */
  lemma StopEndsWorker(u: Setup, s: Daemon, a: WorkerAction)
    requires Reachable(u, s) && Sane(s) && Stopped(s)
    ensures var s' := Step(u, s, Work(a));
            s'.stage == s.stage || MovesToGo(s'.stage) < MovesToGo(s.stage)
    ensures s.stage != Gone ==> Step(u, s, Work(WayOut(s.stage))).stage != s.stage
  {
    if InPass(s.stage) { InPassHasSample(u, s); }
    MovesCount(u, s, a);
    if s.stage != Gone { WayOutIsOpen(u, s); }
  }

  lemma MovesCount(u: Setup, s: Daemon, a: WorkerAction)
    requires ValidSetup(u) && Sane(s) && Stopped(s)
    ensures var s' := WorkerStep(u, s, a); s'.stage == s.stage || MovesToGo(s'.stage) < MovesToGo(s.stage)
  {
  }

  lemma WayOutIsOpen(u: Setup, s: Daemon)
    requires ValidSetup(u) && Sane(s) && Stopped(s) && s.stage != Gone
    requires InPass(s.stage) ==> s.log != [] && Last(s.log).Sampled?
    ensures WorkerStep(u, s, WayOut(s.stage)).stage != s.stage
  {
  }

  /** Over whole runs: after the stop the worker makes at most five more moves, however the threads interleave. */
  lemma {:induction false} StopIsBrief(u: Setup, s: Daemon, actions: seq<Action>)
    requires Reachable(u, s) && Sane(s) && Stopped(s)
    ensures WorkerMoves(u, s, actions) <= MovesToGo(s.stage) <= 5
    decreases |actions|
  {
    if actions != [] {
      var a := actions[0];
      if a.Work? { StopEndsWorker(u, s, a.work); } else { SameStage(u, s, a); }
      StopIsFinal(u, s, a);
      ReachableStep(u, s, a);
      StopIsBrief(u, Step(u, s, a), actions[1..]);
    }
  }

  /**
   Without a stop the worker is never stuck either: asleep, and with its deadline
   in the range of the clock, it can complete a pass on its own.
   */
  lemma PassIsPossible(u: Setup, s: Daemon) returns (s': Daemon)
    requires Reachable(u, s) && Sane(s) && s.stage == Sleeping && !Stopped(s) && s.worker.nextSampleNs <= HORIZON_NS
    ensures Reachable(u, s') && s'.stage == Sleeping && |s'.log| == |s.log| + 1 && s'.published == s.published
  {
    var pass: Action := TimePasses(if s.worker.nextSampleNs > s.clock then s.worker.nextSampleNs - s.clock else 0);
    ReachableStep(u, s, pass);
    s' := PassIsDue(u, Step(u, s, pass));
  }

  lemma PassIsDue(u: Setup, s: Daemon) returns (s': Daemon)
    requires Reachable(u, s) && Sane(s) && s.stage == Sleeping && !Stopped(s) && s.worker.nextSampleNs <= s.clock
    ensures Reachable(u, s') && s'.stage == Sleeping && |s'.log| == |s.log| + 1 && s'.published == s.published
  {
    ReachableStep(u, s, Work(Wake));
    WakeOutcome(u, s);
    var s1 := Step(u, s, Work(Wake));
    CheckOutcome(u, s1, true);
    ReachableStep(u, s1, Work(CheckSlot(true)));
    s' := PassGoesOn(u, Step(u, s1, Work(CheckSlot(true))));
  }

  lemma PassGoesOn(u: Setup, s: Daemon) returns (s': Daemon)
    requires Reachable(u, s) && Sane(s) && (s.stage in {Waiting, Holding} || s.stage.Clearing?)
    ensures Reachable(u, s') && s'.stage == Sleeping && |s'.log| == |s.log| + 1 && s'.published == s.published
  {
    if s.stage == Holding {
      s' := FrameGoesThrough(u, s);
    } else {
      var s1 := s;
      if s.stage == Waiting {
        ReachableStep(u, s, Work(LapseWait));
        s1 := Step(u, s, Work(LapseWait));
      }
      ReachableStep(u, s1, Work(ClearSample));
      ClearOutcome(u, s1);
      s' := Step(u, s1, Work(ClearSample));
    }
  }

  lemma FrameGoesThrough(u: Setup, s: Daemon) returns (s': Daemon)
    requires Reachable(u, s) && Sane(s) && s.stage == Holding
    ensures Reachable(u, s') && s'.stage == Sleeping && |s'.log| == |s.log| + 1 && s'.published == s.published
  {
    var unreadable := World(DecodeFails, true, AppendIo(false, [], false));
    var process := Work(Process(0, unreadable));
    ReachableStep(u, s, process);
    SampleOutcome(u, s, 0, unreadable);
    WorkerFrame(u, s, process.work);
    s' := ReportGoesThrough(u, Step(u, s, process));
  }

  lemma ReportGoesThrough(u: Setup, s1: Daemon) returns (s': Daemon)
    requires Reachable(u, s1) && Sane(s1) && s1.stage == Reporting
    ensures Reachable(u, s') && s'.stage == Sleeping && s'.log == s1.log && s'.published == s1.published
  {
    var report := Work(Report("", 0));
    ReachableStep(u, s1, report);
    ReportOutcome(u, s1, "", 0);
    WorkerFrame(u, s1, report.work);
    var s2 := Step(u, s1, report);
    ReachableStep(u, s2, Work(Show));
    var _ := ShowOutcome(u, s2);
    WorkerFrame(u, s2, Show);
    s' := Step(u, s2, Work(Show));
  }

  // ---------------------------------------------------------------- the snapshot

  /** A snapshot is the state of its moment, with the number of frames published so far. */
  lemma SnapshotShows(u: Setup, s: Daemon, clients: nat, nowNs: Uint64)
    requires Reachable(u, s)
    ensures var t := Snapshot(s.app.(clients := clients), nowNs);
            && t.camera == s.app.slot.camera && t.log == s.app.health.log
            && t.width == s.app.meter.width && t.height == s.app.meter.height && t.fps == s.app.meter.fps
            && t.frameCount == |s.published| && t.clients == clients && t.motion == s.app.motion
            && t.device == s.app.meter.device[..Min(|s.app.meter.device|, 63)]
            && t.uptime * 1000000000.0 == (if nowNs >= s.app.meter.startedNs then nowNs - s.app.meter.startedNs
                                           else 0) as real
            && (t.degraded <==> s.app.slot.camera != CameraActive || s.app.health.log == LogUnavailable
                                || s.app.health.log == LogInitializing)
  {
    SlotIsSound(u, s);
  }
}
