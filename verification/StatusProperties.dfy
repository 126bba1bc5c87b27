/** The numbers of the shared state stay in range over every run, so the status document always fits its buffer. */
module StatusProperties {
  import opened CTypes
  import opened Detector
  import opened Pipeline
  import opened SharedState
  import opened StatusJson
  import opened Worker
  import opened WorkerLog
  import opened Interleaving
  import opened DaemonProperties

  /** The frame rate, the score and the sample rate are within what their formats are laid out for. */
  predicate RatesInv(a: AppView) {
    && 0.0 <= a.meter.fps <= FPS_MAX
    && 0.0 <= a.motion.score <= 1.0 && 0.0 <= a.motion.sampleFps <= SAMPLE_FPS_MAX
  }

  // ------------------------------------------------------------- the frame rate

  lemma RateIsBelow(count: nat, span: nat)
    requires span > 0
    ensures 0.0 <= count as real * 1000000000.0 / span as real <= count as real * 1000000000.0
  {
    var total, rate := count as real * 1000000000.0, count as real * 1000000000.0 / span as real;
    assert rate * span as real == total;
    if rate < 0.0 {
      NegativeProduct(rate, span as real);
      assert false;
    }
    if rate > total {
      ProductGrows(rate, span as real);
      assert false;
    }
  }

  lemma NegativeProduct(x: real, y: real)
    requires x < 0.0 < y
    ensures x * y < 0.0
  {
  }

  lemma ProductGrows(x: real, y: real)
    requires x >= 0.0 && y >= 1.0
    ensures x * y >= x
  {
  }

  /** However fast frames come, no more than all that a 64-bit counter counts come in a nanosecond. */
  lemma PublishedRate(a: AppView, bytes: seq<Byte>, memory: bool, nowNs: Uint64)
    requires RatesInv(a)
    ensures RatesInv(FramePublished(a, bytes, memory, nowNs))
  {
    var elapsed := Minus(nowNs, a.meter.captureStartedNs);
    var captured: Uint64 := Minus(Next(a.meter.frameCount), a.meter.captureBaseCount);
    if elapsed > 0 {
      RateIsBelow(captured, elapsed);
    }
  }

  lemma RatesUnderCapture(s: Daemon, a: CaptureAction)
    requires RatesInv(s.app)
    ensures RatesInv(CaptureStep(s, a).app)
  {
    if a.PublishNext? {
      PublishedRate(s.app, a.bytes, a.memory, s.clock);
    }
  }

  // ------------------------------------------------------------------ the score

  lemma DetectorScore(sizeMax: nat, d: DetectorState, c: Call)
    requires CallerObligations(sizeMax, c) && BaselineWellSized(d)
    ensures 0.0 <= DetectorStep(sizeMax, d, c).result.changedRatio <= 1.0
  {
  }

  /** A judged pass reports the detector's ratio. */
  lemma JudgedScore(sizeMax: nat, p: PipelineState, c: PipelineConfig, s: JpegSample, w: World)
    requires sizeMax <= UINT64_MAX && DecoderContract(sizeMax, w.decoded) && BaselineWellSized(p.detector)
    requires Judged(PipelineStep(sizeMax, p, c, s, w).status)
    ensures 0.0 <= PipelineStep(sizeMax, p, c, s, w).result.score <= 1.0
  {
    var call := DecodedCall(w.decoded.image, c.thresholds, w.memory);
    DecodedObligations(sizeMax, w.decoded, c.thresholds, w.memory);
    DetectorScore(sizeMax, p.detector, call);
  }

  lemma ShownScore(u: Setup, s: Daemon)
    requires Reachable(u, s) && s.log != [] && IsJudged(Last(s.log))
    ensures 0.0 <= Last(s.log).result.score <= 1.0
  {
    LogIsTruthful(u, s);
    LoggedScore(u, s.log, |s.log| - 1);
  }

  lemma LoggedScore(u: Setup, log: seq<Entry>, i: nat)
    requires ValidSetup(u) && WellFed(u, log) && Truthful(u, log) && i < |log| && IsJudged(log[i])
    ensures 0.0 <= log[i].result.score <= 1.0
  {
    TruthfulPrefix(u, log, i);
    var m := Replay(u, log[..i]);
    JudgedScore(u.sizeMax, Enter(m, log[i].generation).pipeline, Chain(u), log[i].sample, log[i].world);
  }

  // ------------------------------------------------------------ the sample rate

  /** The bound of the grid, far from sharp, but of one size for all runs. */
  lemma BoundedByGrid(fps: real, n: nat, interval: nat)
    requires n > 2 && interval >= 2
    requires fps * ((n - 2) * interval) as real < ((n - 1) * NS_PER_SECOND) as real
    ensures fps <= SAMPLE_FPS_MAX
  {
    var spans, most := ((n - 2) * interval) as real, (n - 1) as real;
    assert (n - 2) * interval >= n - 1 by { MulMonotone(2, interval, n - 2); }
    if fps > SAMPLE_FPS_MAX {
      assert ((n - 1) * NS_PER_SECOND) as real == SAMPLE_FPS_MAX * most;
      ProductsCompare(SAMPLE_FPS_MAX, fps, most, spans);
      assert false;
    }
  }

  lemma ProductsCompare(a: real, b: real, x: real, y: real)
    requires 0.0 < a <= b && 0.0 <= x <= y
    ensures a * x <= b * y
  {
    assert a * x <= a * y;
    assert a * y <= b * y;
  }

  lemma ShownRate(u: Setup, s: Daemon)
    requires Reachable(u, s) && InPass(s.stage) && s.log != [] && IsJudged(Last(s.log))
    ensures 0.0 <= ReportedFps(s.worker.rate, Last(s.log).timeNs) <= SAMPLE_FPS_MAX
  {
    var r, now := s.worker.rate, Last(s.log).timeNs;
    if r.samples > 1 && now > r.startedNs {
      RateIsBelow(r.samples - 1, now - r.startedNs);
    }
    if r.samples > 2 {
      ReportedRateIsBounded(u, s);
      BoundedByGrid(ReportedFps(r, now), r.samples, Interval(u.config));
    }
  }

  // ----------------------------------------------------------------- whole runs

  lemma RatesUnderShow(u: Setup, s: Daemon)
    requires ValidSetup(u) && s.log != [] && Last(s.log).Sampled? && RatesInv(s.app)
    requires IsJudged(Last(s.log)) ==>
               && 0.0 <= Last(s.log).result.score <= 1.0
               && 0.0 <= ReportedFps(s.worker.rate, Last(s.log).timeNs) <= SAMPLE_FPS_MAX
    ensures RatesInv(Shown(u, s).app)
  {
  }

  /** Only showing a verdict sets the worker's numbers to anything but zero. */
  lemma OthersKeepRates(u: Setup, s: Daemon, a: WorkerAction)
    requires ValidSetup(u) && Sane(s) && RatesInv(s.app) && !a.Show?
    ensures RatesInv(WorkerStep(u, s, a).app)
  {
  }

  lemma RatesPreserved(u: Setup, s: Daemon, a: Action)
    requires Reachable(u, s) && Sane(s) && RatesInv(s.app)
    ensures RatesInv(Step(u, s, a).app)
  {
    if a.Capture? {
      RatesUnderCapture(s, a.capture);
    } else if a == Work(Show) && s.stage == Showing && s.log != [] && Last(s.log).Sampled? {
      if IsJudged(Last(s.log)) {
        ShownScore(u, s);
        ShownRate(u, s);
      }
      RatesUnderShow(u, s);
    } else if a.Work? && !a.work.Show? {
      OthersKeepRates(u, s, a.work);
    } else if !a.Work? {
      IdleFrame(u, s, a);
    }
  }

  lemma {:induction false} RatesInRun(u: Setup, s: Daemon, actions: seq<Action>)
    requires Reachable(u, s) && Sane(s) && RatesInv(s.app)
    ensures RatesInv(Run(u, s, actions).app)
    decreases |actions|
  {
    if actions != [] {
      RatesPreserved(u, s, actions[0]);
      ReachableStep(u, s, actions[0]);
      RatesInRun(u, Step(u, s, actions[0]), actions[1..]);
    }
  }

  /** In every reachable state the rates and the score are in range. */
  lemma RatesStayInRange(u: Setup, s: Daemon)
    requires Reachable(u, s)
    ensures RatesInv(s.app)
  {
    var nowMs: Uint64, clock: Clock, actions: seq<Action> :| Arrives(u, nowMs, clock, actions, s);
    var start := Start(u, nowMs, clock);
    assert Arrives(u, nowMs, clock, [], start);
    RatesInRun(u, start, actions);
  }

  /**
   Whatever the threads have done, with as many clients as an unsigned int counts,
   GET /status has its document: it is shorter than the body buffer.
   */
  lemma StatusAlwaysFits(u: Setup, s: Daemon, clients: Uint32, nowNs: Uint64)
    requires Reachable(u, s)
    ensures |StatusLine(Snapshot(s.app.(clients := clients), nowNs))| < STATUS_BODY
  {
    RatesStayInRange(u, s);
    StatusFits(s.app.(clients := clients), nowNs);
  }
}
