/** What holds in every state the interleaved daemon can reach. */
module DaemonProperties {
  import opened CTypes
  import opened Config
  import opened Detector
  import Doubles
  import opened EventGate
  import opened EventLog
  import opened Pipeline
  import opened SharedState
  import opened Worker
  import opened WorkerLog
  import opened Interleaving

  ghost predicate Reachable(u: Setup, s: Daemon) {
    ValidSetup(u) && exists nowMs: Uint64, clock: Clock, actions: seq<Action> :: Arrives(u, nowMs, clock, actions, s)
  }

  predicate Arrives(u: Setup, nowMs: Uint64, clock: Clock, actions: seq<Action>, s: Daemon)
    requires ValidSetup(u)
  {
    s == Run(u, Start(u, nowMs, clock), actions)
  }

  lemma ReachableInv(u: Setup, s: Daemon)
    requires Reachable(u, s)
    ensures Sane(s) && Inv(u, s)
  {
    var nowMs: Uint64, clock: Clock, actions: seq<Action> :| Arrives(u, nowMs, clock, actions, s);
    StartInv(u, nowMs, clock);
    RunInv(u, Start(u, nowMs, clock), actions);
  }

  lemma SlotIsSound(u: Setup, s: Daemon)
    requires Reachable(u, s)
    ensures Sane(s) && SlotInv(s) && StreamInv(s)
  {
    ReachableInv(u, s);
  }

  lemma LogIsTruthful(u: Setup, s: Daemon)
    requires Reachable(u, s)
    ensures Sane(s) && TakenInv(u, s) && WellFed(u, s.log) && Truthful(u, s.log)
  {
    ReachableInv(u, s);
  }

  // ----------------------------------------------------------- capture sessions

  /**
   A pass that reports motion compares two published frames of one capture
   session: its own, and that of the last judged pass before it, with no timeout
   and no unavailable camera in between; and it reports exactly their difference.
   */
  lemma MotionComparesOneSession(u: Setup, s: Daemon, i: nat) returns (j: nat)
    requires Reachable(u, s)
    requires i < |s.log| && IsJudged(s.log[i]) && s.log[i].result.motionDetected
    ensures j < i && WellFed(u, s.log) && Compares(u, s.log, j, i)
    ensures TakenFrom(s.published, s.log[j]) && TakenFrom(s.published, s.log[i])
    ensures s.log[j].sample.sequence < s.log[i].sample.sequence
    ensures s.published[s.log[j].sample.sequence - 1].generation == s.published[s.log[i].sample.sequence - 1].generation
    ensures ReportsDifference(ImageOf(s.log[j]).pixels, ImageOf(s.log[i]).pixels, Chain(u).thresholds,
                              MotionPart(s.log[i].result))
  {
    LogIsTruthful(u, s);
    j := MotionCompares(u, s.log, i);
    OneSession(u, s, j, i);
  }

  lemma MotionCompares(u: Setup, log: seq<Entry>, i: nat) returns (j: nat)
    requires ValidSetup(u) && WellFed(u, log) && Truthful(u, log)
    requires i < |log| && IsJudged(log[i]) && log[i].result.motionDetected
    ensures j < i && Compares(u, log, j, i)
    ensures ReportsDifference(ImageOf(log[j]).pixels, ImageOf(log[i]).pixels, Chain(u).thresholds,
                              MotionPart(log[i].result))
  {
    VerdictsAreJustified(u, log, i);
    j :| Compares(u, log, j, i);
  }

  lemma OneSession(u: Setup, s: Daemon, j: nat, i: nat)
    requires ValidSetup(u) && TakenInv(u, s) && Truthful(u, s.log) && i < |s.log| && IsJudged(s.log[i])
    requires j < |s.log| && Compares(u, s.log, j, i)
    ensures j < i && TakenFrom(s.published, s.log[j]) && TakenFrom(s.published, s.log[i])
    ensures s.log[j].sample.sequence < s.log[i].sample.sequence
    ensures s.published[s.log[j].sample.sequence - 1].generation == s.published[s.log[i].sample.sequence - 1].generation
  {
    assert Mark(s.log[j]) == s.log[j].sample.sequence;
  }

  /** The first judged pass of a capture session never reports motion and never emits an event. */
  lemma FirstOfSessionIsSilent(u: Setup, s: Daemon, i: nat)
    requires Reachable(u, s)
    requires i < |s.log| && IsJudged(s.log[i])
    requires forall j :: 0 <= j < i && IsJudged(s.log[j]) ==> s.log[j].generation != s.log[i].generation
    ensures s.log[i].result.baselineCreated && !s.log[i].result.motionDetected && !s.log[i].result.eventEmitted
  {
    ReachableInv(u, s);
    VerdictsAreJustified(u, s.log, i);
  }

  // --------------------------------------------------- the slot as a register

  /** What a single latest-value register would hold. */
  function Newest(published: seq<Picture>): Option<Picture> {
    if published == [] then None else Some(published[|published| - 1])
  }

  /**
   The slot is an atomic register over the published history: a section of any
   thread either leaves the history alone or adds the one frame the capture
   thread hands over, and the slot always shows the newest; an allocation that
   fails changes neither.
   */
  lemma SlotRefinesRegister(u: Setup, s: Daemon, a: Action)
    requires Reachable(u, s)
    ensures var s' := Step(u, s, a);
            && (s'.published == s.published ||
                (a.Capture? && a.capture.PublishNext?
                 && s'.published == s.published + [Picture(a.capture.bytes, s.app.slot.captureGeneration)]
                 && s.app.slot.camera == CameraActive
                 && Fits(s.app.slot.capacity, |a.capture.bytes|, a.capture.memory)))
            && s'.app.slot.sequence == |s'.published|
            && (Newest(s'.published).Some? ==>
                  Newest(s'.published) == Some(Picture(s'.app.slot.frame, s'.app.slot.frameGeneration)))
  {
    SlotIsSound(u, s);
    SlotPreserved(u, s, a);
    SlotShowsNewest(Step(u, s, a));
    if a.Capture? {
      OnlyPublishAdds(s, a.capture);
    } else if a.Work? {
      WorkerFrame(u, s, a.work);
    } else {
      IdleFrame(u, s, a);
    }
  }

  lemma SlotShowsNewest(s: Daemon)
    requires SlotInv(s)
    ensures s.app.slot.sequence == |s.published|
    ensures Newest(s.published).Some? ==>
              Newest(s.published) == Some(Picture(s.app.slot.frame, s.app.slot.frameGeneration))
  {
  }

  lemma OnlyPublishAdds(s: Daemon, a: CaptureAction)
    requires SlotInv(s)
    ensures var s' := CaptureStep(s, a);
            s'.published == s.published ||
            (a.PublishNext? && s'.published == s.published + [Picture(a.bytes, s.app.slot.captureGeneration)]
             && s.app.slot.camera == CameraActive && Fits(s.app.slot.capacity, |a.bytes|, a.memory))
  {
  }

  /** A stream client's deliveries are published frames in order, without repeats. */
  lemma StreamsSeeASubsequence(u: Setup, s: Daemon, id: nat, i: nat, j: nat)
    requires Reachable(u, s) && id in s.streams && i < j < |s.streams[id].delivered|
    ensures var d := s.streams[id].delivered;
            && 1 <= d[i].sequence < d[j].sequence <= |s.published|
            && d[i].bytes == s.published[d[i].sequence - 1].bytes
            && d[j].bytes == s.published[d[j].sequence - 1].bytes
  {
    SlotIsSound(u, s);
    assert StreamOk(s.published, s.streams[id]);
    assert DeliveredFrom(s.published, s.streams[id].delivered[i]);
    assert DeliveredFrom(s.published, s.streams[id].delivered[j]);
  }

  /** At the moment of delivery the frame is the newest, and newer than the client's last. */
  lemma DeliveriesAreNewest(u: Setup, s: Daemon, id: nat, a: StreamAction)
    requires Reachable(u, s) && id in s.streams
    ensures var c, c' := s.streams[id], Step(u, s, Client(id, a)).streams[id];
            c'.delivered == c.delivered ||
            (&& s.published != [] && |c'.delivered| == |c.delivered| + 1
             && c'.delivered[..|c.delivered|] == c.delivered
             && c'.delivered[|c.delivered|].sequence == |s.published| > c.copy.sequence
             && c'.delivered[|c.delivered|].bytes == s.published[|s.published| - 1].bytes)
  {
    SlotIsSound(u, s);
    StreamTakes(s, s.streams[id], a);
  }

  // ------------------------------------------------------------------ freshness

  /**
   A ready snapshot is the newest frame, of an active camera, published after
   the most recent activation, and newer than anything taken or refused before.
   */
  lemma ReadyIsFresh(u: Setup, s: Daemon, memory: bool)
    requires Reachable(u, s) && s.stage in {Checking, Waiting}
    requires Step(u, s, Work(CheckSlot(memory))).stage == Holding
    ensures var c := Step(u, s, Work(CheckSlot(memory))).worker.copy;
            && s.app.slot.camera == CameraActive
            && c.sequence == |s.published| > s.app.meter.captureBaseCount
            && Newest(s.published) == Some(Picture(c.bytes, c.generation))
            && c.generation == s.app.slot.captureGeneration
            && (forall i :: 0 <= i < |s.log| ==> Mark(s.log[i]) < c.sequence)
  {
    SlotIsSound(u, s);
    LogIsTruthful(u, s);
    CheckIsFresh(u, s, memory);
  }

  lemma CheckIsFresh(u: Setup, s: Daemon, memory: bool)
    requires ValidSetup(u) && SlotInv(s) && TakenInv(u, s) && Checked(s, memory).stage == Holding
    requires s.stage in {Checking, Waiting}
    ensures var c := Checked(s, memory).worker.copy;
            && s.app.slot.camera == CameraActive
            && c.sequence == |s.published| > s.app.meter.captureBaseCount
            && Newest(s.published) == Some(Picture(c.bytes, c.generation))
            && c.generation == s.app.slot.captureGeneration
            && (forall i :: 0 <= i < |s.log| ==> Mark(s.log[i]) < c.sequence)
  {
  }

  /** A frame acknowledged as unavailable is never sampled later, nor is an older one. */
  lemma RefusedStaysRefused(u: Setup, s: Daemon, i: nat, j: nat)
    requires Reachable(u, s) && i < j < |s.log|
    requires s.log[i].Refused? && s.log[j].Sampled?
    ensures s.log[i].acknowledged < s.log[j].sample.sequence
  {
    LogIsTruthful(u, s);
    assert Mark(s.log[i]) == s.log[i].acknowledged;
  }

  /** The worker, too, samples a subsequence of the published frames. */
  lemma WorkerSeesASubsequence(u: Setup, s: Daemon, i: nat, j: nat)
    requires Reachable(u, s) && i < j < |s.log| && s.log[i].Sampled? && s.log[j].Sampled?
    ensures s.log[i].sample.sequence < s.log[j].sample.sequence
    ensures TakenFrom(s.published, s.log[i]) && TakenFrom(s.published, s.log[j])
  {
    LogIsTruthful(u, s);
    assert Mark(s.log[i]) == s.log[i].sample.sequence;
  }

  // ----------------------------------------------------------- events over a run

  lemma TimesAscend(u: Setup, s: Daemon, i: nat, j: nat)
    requires Reachable(u, s) && i <= j < |s.log| && s.log[i].Sampled? && s.log[j].Sampled?
    ensures s.log[i].timeNs <= s.log[j].timeNs
    ensures s.log[i].sample.monotonicMs <= s.log[j].sample.monotonicMs
  {
    assert TakenFrom(s.published, s.log[i]) && TakenFrom(s.published, s.log[j]) by { ReachableInv(u, s); }
    if i < j {
      SamplesKeepTheGrid(u, s, i, j);
      ProductNonnegative(j - i - 1, Interval(u.config));
    }
    Millis(s.log[i].timeNs, s.log[j].timeNs);
  }

  lemma ProductNonnegative(a: nat, b: nat)
    ensures a * b >= 0
  {
  }

  lemma Millis(a: nat, b: nat)
    requires a <= b
    ensures a / 1000000 <= b / 1000000
  {
  }

  lemma VerdictTimesAscend(u: Setup, s: Daemon)
    requires Reachable(u, s)
    ensures NondecreasingClock(Verdicts(s.log))
  {
    var v := Verdicts(s.log);
    forall a, b | 0 <= a < b < |v| ensures v[a].timeMs <= v[b].timeMs {
      var i := PassOfRank(s.log, a);
      var j := PassOfRank(s.log, b);
      if j < i { RankGrows(s.log, j, i); }
      VerdictAt(s.log, i);
      VerdictAt(s.log, j);
      TimesAscend(u, s, i, j);
    }
  }

  /**
   Over a whole run of the daemon, across any number of reconnects, events are
   at least one cooldown apart on the monotonic clock.
   */
  lemma EventsAreCooldownApart(u: Setup, s: Daemon, i: nat, j: nat)
    requires Reachable(u, s) && i < j < |s.log| && IsJudged(s.log[i]) && IsJudged(s.log[j])
    requires s.log[i].result.eventEmitted && s.log[j].result.eventEmitted
    ensures s.log[j].sample.monotonicMs >= s.log[i].sample.monotonicMs + u.config.motionCooldownMs
  {
    ReachableInv(u, s);
    var k := LogIsRateLimited(u, s.log, i, j);
    TimesAscend(u, s, k, j);
  }

  /** No choice of motion verdicts one cooldown apart has more members than the run has events. */
  lemma EventsAreAsManyAsPossible(u: Setup, s: Daemon, pick: seq<bool>)
    requires Reachable(u, s) && Spaced(Verdicts(s.log), pick, u.config.motionCooldownMs)
    ensures CountTrue(pick) <= CountTrue(Emits(RESET_GATE, Verdicts(s.log), u.config.motionCooldownMs))
    ensures s.worker.pipeline.gate.eventCount
         == Saturated(CountTrue(Emits(RESET_GATE, Verdicts(s.log), u.config.motionCooldownMs)))
  {
    ReachableInv(u, s);
    VerdictTimesAscend(u, s);
    GreedyIsOptimal(Verdicts(s.log), u.config.motionCooldownMs);
    LogIsChain(u, s.log);
    ChainRun(u.sizeMax, Chain(u), Ops(s.log));
  }

  /** The file's text, decoded, against the appends of the run. */
  lemma LogFileIsConserved(u: Setup, s: Daemon)
    requires Reachable(u, s)
    ensures ChainObligations(u.sizeMax, Chain(u), Ops(s.log))
    ensures var attempts := Attempts(u.sizeMax, Chain(u), Ops(s.log));
            && AllValid(attempts)
            && CountTrue(Emits(RESET_GATE, Verdicts(s.log), u.config.motionCooldownMs))
               == |Logged(u.config.eventLog, attempts)| + Failures(u.config.eventLog, attempts)
            && (DecodeLog(s.worker.pipeline.log) == Some(Logged(u.config.eventLog, attempts))
                <==> NoneTorn(u.config.eventLog, attempts))
  {
    ReachableInv(u, s);
    LogIsChain(u, s.log);
    EventsAreConserved(u.sizeMax, Chain(u), Ops(s.log));
  }

  /**
   With a configuration that passed validation, no pass of any run trips an
   argument check, and every event it emits is a valid record that fits the line
   buffer: a log error can only come from opening, writing or closing the file.
   */
  lemma ArgumentsAreAlwaysValid(u: Setup, s: Daemon, i: nat)
    requires Reachable(u, s) && i < |s.log| && s.log[i].Sampled?
    ensures ConfigIsValid(Chain(u)) && SampleIsValid(s.log[i].sample)
    ensures s.log[i].status !in {PipelineInvalidArgument, PipelineGateError}
    ensures s.log[i].result.eventEmitted ==>
              && 0 < s.log[i].result.changedPixels <= s.log[i].result.totalPixels <= UINT64_MAX
              && var e := MakeEventRecord(Chain(u), s.log[i].sample, s.log[i].result);
                 EventIsValid(e) && e.score > 0.0 && |Line(e)| < LINE_CAPACITY
    ensures s.log[i].status == PipelineEventLogError ==>
              && s.log[i].result.eventEmitted
              && s.log[i].result.changedPixels <= s.log[i].result.totalPixels <= UINT64_MAX
              && AppendStep(u.config.eventLog, MakeEventRecord(Chain(u), s.log[i].sample, s.log[i].result),
                            s.log[i].world.io).status in {LogOpenError, LogWriteError, LogCloseError}
  {
    ReachableInv(u, s);
    TruthfulPrefix(u, s.log, i);
    BaselineOrigin(u, s.log[..i]);
    OnlyTheWorldFails(u.sizeMax, Enter(Replay(u, s.log[..i]), s.log[i].generation).pipeline, Chain(u),
                      s.log[i].sample, s.log[i].world);
  }

  // -------------------------------------------------------------------- cadence

  /** Passes i and j sampled: more than all but one of the intervals between them have passed. */
  lemma SamplesKeepTheGrid(u: Setup, s: Daemon, i: nat, j: nat)
    requires Reachable(u, s) && i < j < |s.log| && s.log[i].Sampled? && s.log[j].Sampled?
    ensures s.log[j].timeNs > s.log[i].timeNs + (j - i - 1) * Interval(u.config)
  {
    ReachableInv(u, s);
    assert Apart(s.log[i], s.log[j], j - i - 1, Interval(u.config));
  }

  /**
   The rate reported after n samples of a session stays below
   (n - 1) samples per (n - 2) intervals.
   */
  lemma ReportedRateIsBounded(u: Setup, s: Daemon)
    requires Reachable(u, s) && InPass(s.stage) && s.log != [] && IsJudged(Last(s.log)) && s.worker.rate.samples > 2
    ensures ReportedFps(s.worker.rate, Last(s.log).timeNs) * ((s.worker.rate.samples - 2) * Interval(u.config)) as real
          < ((s.worker.rate.samples - 1) * NS_PER_SECOND) as real
  {
    var r, n, interval := s.worker.rate, |s.log|, Interval(u.config);
    var f := RateStartsAt(u, s);
    SamplesKeepTheGrid(u, s, f, n - 1);
    MulMonotone(r.samples - 2, n - 1 - f - 1, interval);
    FpsBelow(r, Last(s.log).timeNs, interval);
  }

  lemma FpsBelow(r: Rate, now: nat, interval: nat)
    requires r.samples > 2 && now > r.startedNs + (r.samples - 2) * interval
    ensures ReportedFps(r, now) * ((r.samples - 2) * interval) as real < ((r.samples - 1) * NS_PER_SECOND) as real
  {
    ProductNonnegative(r.samples - 2, interval);
    RateBelow(r.samples - 1, now - r.startedNs, (r.samples - 2) * interval);
  }

  lemma RateStartsAt(u: Setup, s: Daemon) returns (f: nat)
    requires Reachable(u, s) && s.worker.rate.samples > 0
    ensures f < |s.log| && IsJudged(s.log[f]) && s.log[f].timeNs == s.worker.rate.startedNs
    ensures |s.log| - f >= s.worker.rate.samples
  {
    ReachableInv(u, s);
    RateStart(u, s.log);
    var start := SessionStart(s.log);
    f :| FirstJudged(s.log, start, f) && s.log[f].timeNs == s.worker.rate.startedNs;
    JudgedAfterFirst(s.log, start, f);
  }

  lemma RateBelow(count: nat, span: nat, least: nat)
    requires count > 0 && span > least
    ensures count as real * NS_PER_SECOND as real / span as real * least as real < (count * NS_PER_SECOND) as real
  {
    var total := count as real * NS_PER_SECOND as real;
    var fps := total / span as real;
    assert fps * span as real == total;
    assert fps > 0.0;
    assert fps * least as real < fps * span as real;
  }

  // --------------------------------------------------------------------- health

  /** Whenever the worker is not between an append and its report, the log's health is that of the last append. */
  lemma HealthFollowsLastAppend(u: Setup, s: Daemon)
    requires Reachable(u, s) && s.stage != Reporting
    ensures u.config.motionEnabled ==>
              (s.app.health.log == LogUnavailable <==> LastAppendFailed(s.log))
              && (s.app.health.log == LogHealthy <==> !LastAppendFailed(s.log))
    ensures !u.config.motionEnabled ==> s.app.health.log == LogDisabled && s.log == []
  {
    ReachableInv(u, s);
  }

  /**
   A status snapshot is degraded exactly when the camera is not active or the
   log unavailable; its last error is the fault of the two with the later time
   stamp, the log's on a tie, and empty when there is none.
   */
  lemma SnapshotTellsTheFault(u: Setup, s: Daemon)
    requires Reachable(u, s)
    ensures var t, h := Snapshot(s.app, s.clock), s.app.health;
            var cameraDown, logDown := s.app.slot.camera != CameraActive, h.log == LogUnavailable;
            && (t.degraded <==> cameraDown || logDown)
            && (!cameraDown && !logDown ==> t.lastError == "" && t.lastErrorAtMs == 0)
            && (cameraDown && !logDown ==> t.lastError == h.cameraError && t.lastErrorAtMs == h.cameraErrorAtMs)
            && (logDown && !cameraDown ==> t.lastError == h.logError && t.lastErrorAtMs == h.logErrorAtMs)
            && (cameraDown && logDown ==>
                  && t.lastErrorAtMs == Max(h.logErrorAtMs, h.cameraErrorAtMs)
                  && t.lastError == if h.logErrorAtMs >= h.cameraErrorAtMs then h.logError else h.cameraError)
            && t.uptime == (s.clock - s.app.meter.startedNs) as real / 1000000000.0
  {
    ReachableInv(u, s);
  }

  // ------------------------------------------------------------- stale verdicts

  /** Motion is shown although the camera is gone. */
  predicate Stale(s: Daemon) {
    s.app.slot.camera == CameraUnavailable && s.app.motion.detected
  }

  /** The worker publishes motion it found in a frame taken before the camera was lost. */
  predicate PublishesStale(s: Daemon, a: Action) {
    && a == Work(Show) && s.stage == Showing && s.log != [] && Last(s.log).Sampled?
    && s.app.slot.camera == CameraUnavailable
    && Judged(Last(s.log).status) && Last(s.log).result.motionDetected
  }

  /** The steps that take a stale verdict away. */
  predicate EndsStale(s: Daemon, a: Action) {
    match a
    case Capture(Activate(_, _, _)) => s.app.slot.captureGeneration != UINT64_MAX
    case Capture(Lose(_, _, _)) => true
    case Work(ClearSample) => s.stage.Clearing?
    case Work(Leave) => s.stage == Leaving || (s.stage == Sleeping && Stopping(s.app.slot))
    case _ => false
  }

  /** Where the worker can be while a stale verdict is shown: it never holds a frame. */
  predicate StaleStage(stage: Stage) {
    stage in {Sleeping, Checking, Leaving} || (stage.Clearing? && stage.entry.Refused?)
  }

  ghost predicate StaleInv(u: Setup, s: Daemon)
    requires ValidSetup(u)
  {
    Sane(s) && Inv(u, s) && (Stale(s) ==> StaleStage(s.stage))
  }

  lemma StaleUnderWork(u: Setup, s: Daemon, a: WorkerAction)
    requires ValidSetup(u) && Sane(s) && HealthInv(u, s) && (Stale(s) ==> StaleStage(s.stage))
    ensures var s' := WorkerStep(u, s, a);
            && (Stale(s') ==> StaleStage(s'.stage))
            && (!Stale(s) ==> (Stale(s') <==> PublishesStale(s, Work(a))))
            && (Stale(s) ==> (Stale(s') <==> !EndsStale(s, Work(a))))
  {
  }

  lemma StaleUnderCapture(u: Setup, s: Daemon, a: CaptureAction)
    requires SlotInv(s) && (Stale(s) ==> StaleStage(s.stage))
    ensures var s' := CaptureStep(s, a);
            && (Stale(s') ==> StaleStage(s'.stage))
            && (!Stale(s) ==> !Stale(s'))
            && (Stale(s) ==> (Stale(s') <==> !EndsStale(s, Capture(a))))
  {
  }

  lemma StaleStep(u: Setup, s: Daemon, a: Action)
    requires ValidSetup(u) && StaleInv(u, s)
    ensures StaleInv(u, Step(u, s, a))
    ensures !Stale(s) ==> (Stale(Step(u, s, a)) <==> PublishesStale(s, a))
    ensures Stale(s) ==> (Stale(Step(u, s, a)) <==> !EndsStale(s, a))
  {
    assert Sane(Step(u, s, a)) && Inv(u, Step(u, s, a)) by { StepInv(u, s, a); }
    assert SlotInv(s) && HealthInv(u, s);
    StaleAfter(u, s, a);
  }

  lemma StaleAfter(u: Setup, s: Daemon, a: Action)
    requires ValidSetup(u) && Sane(s) && SlotInv(s) && HealthInv(u, s) && (Stale(s) ==> StaleStage(s.stage))
    ensures Stale(Step(u, s, a)) ==> StaleStage(Step(u, s, a).stage)
    ensures !Stale(s) ==> (Stale(Step(u, s, a)) <==> PublishesStale(s, a))
    ensures Stale(s) ==> (Stale(Step(u, s, a)) <==> !EndsStale(s, a))
  {
    match a
    case Capture(c) => StaleUnderCapture(u, s, c);
    case Work(w) => StaleUnderWork(u, s, w);
    case _ => IdleFrame(u, s, a);
  }

  lemma {:induction false} StaleRun(u: Setup, s: Daemon, actions: seq<Action>)
    requires ValidSetup(u) && StaleInv(u, s)
    ensures StaleInv(u, Run(u, s, actions))
    decreases |actions|
  {
    if actions != [] {
      StaleStep(u, s, actions[0]);
      StaleRun(u, Step(u, s, actions[0]), actions[1..]);
    }
  }

  lemma ReachableStaleInv(u: Setup, s: Daemon)
    requires Reachable(u, s)
    ensures StaleInv(u, s)
  {
    var nowMs: Uint64, clock: Clock, actions: seq<Action> :| Arrives(u, nowMs, clock, actions, s);
    StartInv(u, nowMs, clock);
    StaleRun(u, Start(u, nowMs, clock), actions);
  }

  /**
   "Camera unavailable" does not always mean "no motion shown".  A step breaks it
   exactly when it is the worker publishing motion after the camera was lost.
   */
  lemma StaleVerdictArises(u: Setup, s: Daemon, a: Action)
    requires Reachable(u, s) && !Stale(s)
    ensures Stale(Step(u, s, a)) <==> PublishesStale(s, a)
  {
    ReachableStaleInv(u, s);
    StaleStep(u, s, a);
  }

  /** It stays until the camera comes back, is lost again, or the worker clears its sample or leaves. */
  lemma StaleVerdictEnds(u: Setup, s: Daemon, a: Action)
    requires Reachable(u, s) && Stale(s)
    ensures StaleStage(s.stage)
    ensures !Stale(Step(u, s, a)) <==> EndsStale(s, a)
  {
    ReachableStaleInv(u, s);
    StaleStep(u, s, a);
  }

  lemma RunSnoc(u: Setup, s: Daemon, actions: seq<Action>, a: Action)
    requires ValidSetup(u) && Sane(s)
    ensures Run(u, s, actions + [a]) == Step(u, Run(u, s, actions), a)
  {
    RunConcat(u, s, actions, [a]);
    RunOne(u, Run(u, s, actions), a);
  }

  /** A run published a stale verdict at action k, and nothing has ended it since. */
  predicate StaleSince(u: Setup, s: Daemon, actions: seq<Action>, k: nat)
    requires ValidSetup(u) && Sane(s)
  {
    && k < |actions| && PublishesStale(Run(u, s, actions[..k]), actions[k])
    && forall m :: k < m < |actions| ==> !EndsStale(Run(u, s, actions[..m]), actions[m])
  }

  lemma StaleSinceSnoc(u: Setup, s: Daemon, front: seq<Action>, a: Action, k: nat)
    requires ValidSetup(u) && Sane(s)
    ensures k < |front| ==> (StaleSince(u, s, front + [a], k) <==>
                               StaleSince(u, s, front, k) && !EndsStale(Run(u, s, front), a))
    ensures StaleSince(u, s, front + [a], |front|) <==> PublishesStale(Run(u, s, front), a)
  {
    var actions := front + [a];
    assert forall m :: 0 <= m <= |front| ==> actions[..m] == front[..m];
    assert front[..|front|] == front;
    assert forall m :: 0 <= m < |front| ==> actions[m] == front[m];
  }

  lemma {:induction false} StaleExactly(u: Setup, s: Daemon, actions: seq<Action>)
    requires ValidSetup(u) && StaleInv(u, s) && !Stale(s)
    ensures Stale(Run(u, s, actions)) <==> exists k: nat :: StaleSince(u, s, actions, k)
    decreases |actions|
  {
    if actions != [] {
      var n := |actions| - 1;
      var front, a := actions[..n], actions[n];
      assert actions == front + [a];
      StaleRun(u, s, front);
      StaleExactly(u, s, front);
      StaleExactlySnoc(u, s, front, a);
    }
  }

  lemma StaleExactlySnoc(u: Setup, s: Daemon, front: seq<Action>, a: Action)
    requires ValidSetup(u) && Sane(s) && StaleInv(u, Run(u, s, front))
    requires Stale(Run(u, s, front)) <==> exists k: nat :: StaleSince(u, s, front, k)
    ensures Stale(Run(u, s, front + [a])) <==> exists k: nat :: StaleSince(u, s, front + [a], k)
  {
    var before := Run(u, s, front);
    RunSnoc(u, s, front, a);
    StaleStep(u, before, a);
    if k: nat :| StaleSince(u, s, front + [a], k) {
      StaleSinceSnoc(u, s, front, a, k);
      ShowIsNoEnd(before, a);
    }
    if Stale(Step(u, before, a)) {
      if Stale(before) {
        var k: nat :| StaleSince(u, s, front, k);
        StaleSinceSnoc(u, s, front, a, k);
      } else {
        StaleSinceSnoc(u, s, front, a, |front|);
      }
    }
  }

  lemma ShowIsNoEnd(s: Daemon, a: Action)
    ensures PublishesStale(s, a) ==> !EndsStale(s, a)
  {
  }

  /** Over whole runs: the shown verdict is stale exactly when one was published stale and not ended since. */
  lemma StaleVerdictInRun(u: Setup, nowMs: Uint64, clock: Clock, actions: seq<Action>)
    requires ValidSetup(u)
    ensures var s := Start(u, nowMs, clock);
            Stale(Run(u, s, actions)) <==> exists k: nat :: StaleSince(u, s, actions, k)
  {
    StartInv(u, nowMs, clock);
    StaleExactly(u, Start(u, nowMs, clock), actions);
  }

  // --------------------------------------------------------- how long it lasts

  /** The worker's own steps in a stretch of a run, those that move it on. */
  function WorkerMoves(u: Setup, s: Daemon, actions: seq<Action>): nat
    requires ValidSetup(u) && Sane(s)
    decreases |actions|
  {
    if actions == [] then 0
    else
      var s' := Step(u, s, actions[0]);
      (if actions[0].Work? && s'.stage != s.stage then 1 else 0) + WorkerMoves(u, s', actions[1..])
  }

  predicate StaysStale(u: Setup, s: Daemon, actions: seq<Action>)
    requires ValidSetup(u) && Sane(s)
    decreases |actions|
  {
    Stale(s) && (actions != [] ==> StaysStale(u, Step(u, s, actions[0]), actions[1..]))
  }

  /** Waking and checking the slot are all the worker can do before it clears the verdict. */
  function MovesLeft(stage: Stage): nat {
    if stage == Sleeping then 2 else if stage == Checking then 1 else 0
  }

  lemma MovesOn(u: Setup, s: Daemon, a: Action)
    requires ValidSetup(u) && Sane(s) && Stale(s) && StaleStage(s.stage) && Stale(Step(u, s, a))
    ensures var s' := Step(u, s, a);
            (if a.Work? && s'.stage != s.stage then 1 else 0) + MovesLeft(s'.stage) <= MovesLeft(s.stage)
  {
    if !a.Work? { SameStage(u, s, a); }
  }

  lemma {:induction false} StaleMoves(u: Setup, s: Daemon, actions: seq<Action>)
    requires ValidSetup(u) && StaleInv(u, s) && StaysStale(u, s, actions)
    ensures WorkerMoves(u, s, actions) <= MovesLeft(s.stage)
    decreases |actions|
  {
    if actions != [] {
      StaleStep(u, s, actions[0]);
      StaleMoves(u, Step(u, s, actions[0]), actions[1..]);
      MovesOn(u, s, actions[0]);
    }
  }

  lemma SameStage(u: Setup, s: Daemon, a: Action)
    requires ValidSetup(u) && Sane(s) && !a.Work?
    ensures Step(u, s, a).stage == s.stage
  {
    if a.Capture? { CaptureFrame(s, a.capture); }
  }

  /**
   However the threads interleave, a stale verdict survives at most two moves of
   the worker: it wakes, it checks the slot; the third clears what is shown.
   */
  lemma StaleVerdictIsBrief(u: Setup, s: Daemon, actions: seq<Action>)
    requires Reachable(u, s) && StaysStale(u, s, actions)
    ensures WorkerMoves(u, s, actions) <= MovesLeft(s.stage) <= 2
  {
    ReachableStaleInv(u, s);
    StaleMoves(u, s, actions);
  }

  /** The check it makes is refused, or finds the stop; the step after that ends the stale verdict. */
  lemma NextCheckIsRefused(u: Setup, s: Daemon, memory: bool)
    requires Reachable(u, s) && Stale(s) && s.stage == Checking
    ensures var s' := Step(u, s, Work(CheckSlot(memory)));
            if Stopping(s.app.slot) then s'.stage == Leaving && !Stale(Step(u, s', Work(Leave)))
            else s'.stage == Clearing(Refused(s.app.slot.sequence)) && !Stale(Step(u, s', Work(ClearSample)))
  {
    assert Sane(s) by { ReachableInv(u, s); }
    CheckRefused(s, memory);
    var s' := Checked(s, memory);
    if Stopping(s.app.slot) { LeaveClears(u, s'); } else { ClearClears(u, s'); }
  }

  lemma CheckRefused(s: Daemon, memory: bool)
    requires Stale(s) && s.stage == Checking
    ensures Checked(s, memory).stage == if Stopping(s.app.slot) then Leaving else Clearing(Refused(s.app.slot.sequence))
    ensures Checked(s, memory).worker.pipeline == s.worker.pipeline
  {
  }

  lemma LeaveClears(u: Setup, s: Daemon)
    requires ValidSetup(u) && Sane(s) && s.stage == Leaving
    ensures !Stale(WorkerStep(u, s, Leave))
  {
  }

  lemma ClearClears(u: Setup, s: Daemon)
    requires ValidSetup(u) && Sane(s) && s.stage.Clearing?
    ensures !Stale(WorkerStep(u, s, ClearSample))
  {
  }

  // ------------------------------------------------------------- and one happens

  const BLACK := Gray(1, 1, [0])
  const WHITE := Gray(1, 1, [255])
  const JPEG_START: seq<Byte> := [0xFF, 0xD8]
  const UNWRITABLE := AppendIo(false, [], false)

  function Sees(image: Gray): World {
    World(Decodes(image), true, UNWRITABLE)
  }

  lemma BlackStored(c: PipelineConfig, s: JpegSample)
    requires ConfigIsValid(c) && SampleIsValid(s)
    ensures var o := PipelineStep(UINT64_MAX, ZERO_PIPELINE, c, s, Sees(BLACK));
            o.status == PipelineOk && o.state.detector.baseline == Some(BLACK) && o.state.gate.phase == IDLE
  {
    FrameOfDecoded(BLACK, c.thresholds, true);
  }

  lemma WhiteSeen(c: PipelineConfig, p: PipelineState, s: JpegSample)
    requires ConfigIsValid(c) && SampleIsValid(s) && p.detector.baseline == Some(BLACK) && p.gate.phase == IDLE
    ensures var o := PipelineStep(UINT64_MAX, p, c, s, Sees(WHITE));
            Judged(o.status) && o.result.motionDetected
  {
    WhiteVerdict(p.detector, c.thresholds);
    OnlyTheWorldFails(UINT64_MAX, p, c, s, Sees(WHITE));
  }

  /** One pixel of one has changed by all there is. */
  lemma WhiteDiffers(t: Thresholds)
    requires t.pixelDelta <= 255 && t.changedRatio <= 1.0
    ensures Compared([0], [255], t).motionDetected
  {
    assert [0][..0] == [255][..0] == [];
    assert ChangedCount([0], [255], t.pixelDelta) == 1;
    assert Doubles.Quotient(1, 1) == 1.0;
  }

  lemma WhiteVerdict(d: DetectorState, t: Thresholds)
    requires d.baseline == Some(BLACK) && ThresholdsValid(t)
    ensures DecoderContract(UINT64_MAX, Decodes(WHITE)) && CallerObligations(UINT64_MAX, DecodedCall(WHITE, t, true))
    ensures var o := DetectorStep(UINT64_MAX, d, DecodedCall(WHITE, t, true));
            o.status == MotionOk && o.result.motionDetected
  {
    DecodedObligations(UINT64_MAX, Decodes(WHITE), t, true);
    FrameOfDecoded(WHITE, t, true);
    WhiteDiffers(t);
  }

  lemma ReachableStep(u: Setup, s: Daemon, a: Action)
    requires Reachable(u, s)
    ensures Sane(s) && Reachable(u, Step(u, s, a))
  {
    var nowMs: Uint64, clock: Clock, actions: seq<Action> :| Arrives(u, nowMs, clock, actions, s);
    RunSnoc(u, Start(u, nowMs, clock), actions, a);
    assert Arrives(u, nowMs, clock, actions + [a], Step(u, s, a));
  }

  const EXAMPLE := Setup(UINT64_MAX, DEFAULT_CONFIG)

  /** The camera delivers a frame and the worker is about to process it. */
  lemma FrameTaken(s: Daemon) returns (s': Daemon)
    requires Reachable(EXAMPLE, s) && s.capturing && s.app.slot.camera == CameraActive && !Stopping(s.app.slot)
    requires s.stage == Sleeping && s.worker.nextSampleNs <= s.clock
    requires s.app.slot.sequence == s.worker.copy.sequence < 10
    ensures Reachable(EXAMPLE, s') && s'.stage == Holding
    ensures s'.worker == s.worker.(copy := s'.worker.copy) && s'.worker.copy.bytes == JPEG_START
    ensures s'.worker.copy.generation == s.app.slot.captureGeneration == s'.app.slot.captureGeneration
    ensures s'.app.slot.sequence == s'.worker.copy.sequence == s.app.slot.sequence + 1
    ensures s'.capturing && s'.app.slot.camera == CameraActive && !Stopping(s'.app.slot)
    ensures s'.app.motion == s.app.motion && s'.app.health == s.app.health && s'.clock == s.clock
  {
    var publish, wake, check := Capture(PublishNext(JPEG_START, true)), Work(Wake), Work(CheckSlot(true));
    ReachableStep(EXAMPLE, s, publish);
    var s1 := Step(EXAMPLE, s, publish);
    assert LooksLikeJpeg(JPEG_START);
    assert s1.app == FramePublished(s.app, JPEG_START, true, s.clock) && s1.worker == s.worker;
    ReachableStep(EXAMPLE, s1, wake);
    var s2 := Step(EXAMPLE, s1, wake);
    ReachableStep(EXAMPLE, s2, check);
    s' := Step(EXAMPLE, s2, check);
  }

  /** Processing a held frame whose picture is `image`. */
  lemma FrameProcessed(s: Daemon, image: Gray) returns (s': Daemon)
    requires Reachable(EXAMPLE, s) && s.stage == Holding && image in {BLACK, WHITE}
    ensures Sane(s) && Reachable(EXAMPLE, s') && s'.stage == Reporting && s'.log != [] && Last(s'.log).Sampled?
    ensures var o := Processed(UINT64_MAX, DEFAULT_CONFIG, s.worker, s.clock, 0, Sees(image));
            && Last(s'.log).status == o.status && Last(s'.log).result == o.result
            && s'.worker == Counted(s.worker, o, s.clock)
    ensures s'.app == Entering(s.app, s.worker) && s'.capturing == s.capturing && s'.clock == s.clock
  {
    var process := Work(Process(0, Sees(image)));
    ReachableStep(EXAMPLE, s, process);
    s' := Step(EXAMPLE, s, process);
    assert s' == ProcessedStep(EXAMPLE, s, 0, Sees(image));
  }

  /** Reporting a judged pass and showing its verdict. */
  lemma VerdictShown(s: Daemon) returns (s': Daemon)
    requires Reachable(EXAMPLE, s) && s.stage == Reporting && s.log != []
    requires Last(s.log).Sampled? && Judged(Last(s.log).status) && s.app.motion.enabled
    ensures Reachable(EXAMPLE, s') && s'.stage == Sleeping && s'.app.slot == s.app.slot
    ensures s'.app.motion.enabled && s'.app.motion.detected == Last(s.log).result.motionDetected
    ensures s'.worker == OnGrid(s.worker, Interval(DEFAULT_CONFIG), s.clock)
    ensures s'.capturing == s.capturing && s'.clock == s.clock
  {
    var report, show := Work(Report("", 0)), Work(Show);
    ReachableStep(EXAMPLE, s, report);
    var s1 := Step(EXAMPLE, s, report);
    ReportMovesOn(s);
    ReachableStep(EXAMPLE, s1, show);
    s' := Step(EXAMPLE, s1, show);
    assert s' == Shown(EXAMPLE, s1);
    ShowsVerdict(s1);
  }

  lemma ReportMovesOn(s: Daemon)
    requires Sane(s) && s.stage == Reporting && s.log != [] && Last(s.log).Sampled?
    ensures var s' := WorkerStep(EXAMPLE, s, Report("", 0));
            && s'.stage == Showing && s'.log == s.log && s'.worker == s.worker && s'.app.slot == s.app.slot
            && s'.app.motion == s.app.motion && s'.capturing == s.capturing && s'.clock == s.clock
  {
  }

  lemma ShowsVerdict(s: Daemon)
    requires s.log != [] && Last(s.log).Sampled? && Judged(Last(s.log).status) && s.app.motion.enabled
    ensures var s' := Shown(EXAMPLE, s);
            && s'.app.slot == s.app.slot && s'.app.motion.enabled == s.app.motion.enabled
            && s'.app.motion.detected == Last(s.log).result.motionDetected
            && s'.worker == OnGrid(s.worker, Interval(DEFAULT_CONFIG), s.clock)
  {
  }

  lemma CameraComesUp() returns (s: Daemon)
    ensures Reachable(EXAMPLE, s) && s.capturing && s.app.slot.camera == CameraActive && !Stopping(s.app.slot)
    ensures s.stage == Sleeping && s.clock == 0 && s.worker.nextSampleNs == 0
    ensures s.app.slot.sequence == s.worker.copy.sequence == 0 && s.app.slot.captureGeneration == 1
    ensures s.worker.pipeline == ZERO_PIPELINE && s.worker.lastGeneration == 0 && s.app.motion.enabled
  {
    var s0, begin, activate := Start(EXAMPLE, 0, 0), Work(Begin), Capture(Activate("/dev/video0", 640, 480));
    assert Arrives(EXAMPLE, 0, 0, [], s0);
    ReachableStep(EXAMPLE, s0, begin);
    var s1 := Step(EXAMPLE, s0, begin);
    ReachableStep(EXAMPLE, s1, activate);
    s := Step(EXAMPLE, s1, activate);
  }

  /** A black frame has been sampled and its verdict shown. */
  lemma BlackShown() returns (s: Daemon)
    ensures Reachable(EXAMPLE, s) && s.capturing && s.app.slot.camera == CameraActive && !Stopping(s.app.slot)
    ensures s.stage == Sleeping && s.clock == 0 && s.worker.nextSampleNs <= NS_PER_SECOND
    ensures s.app.slot.sequence == s.worker.copy.sequence == 1
    ensures s.worker.lastGeneration == s.app.slot.captureGeneration && s.app.motion.enabled
    ensures s.worker.pipeline.detector.baseline == Some(BLACK) && s.worker.pipeline.gate.phase == IDLE
  {
    var s0 := CameraComesUp();
    var s1 := FrameTaken(s0);
    BlackStored(Chain(EXAMPLE), SampleOf(s1.worker, s1.clock, 0));
    assert Entered(s1.worker).pipeline == ZERO_PIPELINE;
    var s2 := FrameProcessed(s1, BLACK);
    s := VerdictShown(s2);
  }

  lemma SecondPasses(s: Daemon) returns (s': Daemon)
    requires Reachable(EXAMPLE, s) && s.clock == 0
    ensures Reachable(EXAMPLE, s') && s' == s.(clock := NS_PER_SECOND)
  {
    ReachableStep(EXAMPLE, s, TimePasses(NS_PER_SECOND));
    s' := Step(EXAMPLE, s, TimePasses(NS_PER_SECOND));
  }

  lemma CameraUnplugged(s: Daemon) returns (s': Daemon)
    requires Reachable(EXAMPLE, s)
    ensures Reachable(EXAMPLE, s') && s'.app.slot.camera == CameraUnavailable
    ensures s'.stage == s.stage && s'.log == s.log && s'.app.motion.enabled == s.app.motion.enabled
  {
    var lose := Capture(Lose("", "unplugged", 0));
    ReachableStep(EXAMPLE, s, lose);
    s' := Step(EXAMPLE, s, lose);
  }

  /** A white frame has been compared with the black one. */
  lemma WhiteCompared() returns (s: Daemon)
    ensures Reachable(EXAMPLE, s) && s.stage == Reporting && s.log != [] && Last(s.log).Sampled?
    ensures Judged(Last(s.log).status) && Last(s.log).result.motionDetected && s.app.motion.enabled
  {
    var s0 := BlackShown();
    var s1 := SecondPasses(s0);
    var s2 := FrameTaken(s1);
    WhiteSeen(Chain(EXAMPLE), s2.worker.pipeline, SampleOf(s2.worker, s2.clock, 0));
    assert Entered(s2.worker).pipeline == s2.worker.pipeline;
    s := FrameProcessed(s2, WHITE);
  }

  /** A run that ends with motion shown and no camera: it is lost while the worker reports on its last frame. */
  lemma StaleVerdictHappens() returns (s: Daemon)
    ensures Reachable(EXAMPLE, s) && Stale(s)
  {
    var s0 := WhiteCompared();
    var s1 := CameraUnplugged(s0);
    s := VerdictShown(s1);
  }
}
