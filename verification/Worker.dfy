/**
 The motion worker (app/daemon/motion_worker.c): deadline grid, sample rate,
 health reporting and the sampling loop.

 The loop is written as the thread runs it, with other threads' sections as
 scripts; what one pass does to the worker and to the shared state is a function
 that the interleaving model steps through section by section.

 The monotonic clock is read as `clockNs`.  Runs end at HORIZON_NS, 584 years
 after boot, so that no deadline wraps around.
 */
module Worker {
  import opened CTypes
  import opened Config
  import opened Detector
  import opened Pipeline
  import opened SharedState

  const NS_PER_SECOND := 1000000000
  const HORIZON_NS: nat := UINT64_MAX - 2000000000

  type Clock = n: nat | n <= HORIZON_NS

  /** The clock some time later. */
  function Later(clock: Clock, delta: nat): (later: Clock)
    ensures later >= clock
  {
    Min(clock + delta, HORIZON_NS)
  }

  // ------------------------------------------------------------ deadline grid

  function Interval(c: SenseConfig): (ns: nat)
    requires ValidConfig(c)
    ensures 0 < ns <= NS_PER_SECOND
    ensures ns * c.motionSampleFps <= NS_PER_SECOND < (ns + 1) * c.motionSampleFps
  {
    NS_PER_SECOND / c.motionSampleFps
  }

  /** The first point of the grid through `deadline` that lies after both `deadline` and `now`. */
  function AdvancedDeadline(deadline: nat, interval: nat, now: nat): (next: nat)
    requires interval > 0
    ensures next > now && next >= deadline + interval
    ensures next <= now + interval || next == deadline + interval
  {
    if now < deadline + interval then deadline + interval
    else
      GridStep(now - deadline, interval);
      deadline + ((now - deadline) / interval + 1) * interval
  }

  lemma GridStep(span: nat, interval: nat)
    requires interval > 0
    ensures span < (span / interval + 1) * interval <= span + interval
    ensures span >= interval ==> (span / interval + 1) * interval >= interval
  {
    var q := span / interval;
    assert span == q * interval + span % interval;
    assert (q + 1) * interval == q * interval + interval;
  }

  /** It lies on the grid, and no later grid point is skipped: no drift. */
  lemma LeastGridPoint(deadline: nat, interval: nat, now: nat, k: nat)
    requires interval > 0
    ensures exists m: nat :: m >= 1 && AdvancedDeadline(deadline, interval, now) == deadline + m * interval
    ensures k >= 1 && deadline + k * interval > now ==>
              AdvancedDeadline(deadline, interval, now) <= deadline + k * interval
  {
    if now < deadline + interval {
      assert AdvancedDeadline(deadline, interval, now) == deadline + 1 * interval;
      if k >= 1 { MulMonotone(1, k, interval); }
    } else {
      var q := (now - deadline) / interval;
      assert AdvancedDeadline(deadline, interval, now) == deadline + (q + 1) * interval;
      assert now - deadline == q * interval + (now - deadline) % interval;
      if k >= q + 1 {
        MulMonotone(q + 1, k, interval);
      } else {
        MulMonotone(k, q, interval);
      }
    }
  }

  method AdvanceSampleDeadline(deadline: Uint64, interval: nat, now: Clock) returns (next: Uint64)
    requires 0 < interval <= NS_PER_SECOND && deadline + interval <= UINT64_MAX
    ensures next == AdvancedDeadline(deadline, interval, now)
  {
    ghost var k: nat := 1;
    next := deadline + interval;
    while next <= now
      invariant k >= 1 && next == deadline + k * interval
      invariant next <= now + interval || next == deadline + interval
      invariant k > 1 ==> deadline + (k - 1) * interval <= now
      decreases now - next
    {
      assert (k + 1) * interval == k * interval + interval;
      next := next + interval;
      k := k + 1;
    }
    GridUnique(deadline, interval, now, k);
  }

  lemma GridUnique(deadline: nat, interval: nat, now: nat, k: nat)
    requires interval > 0 && k >= 1
    requires deadline + k * interval > now
    requires k > 1 ==> deadline + (k - 1) * interval <= now
    ensures deadline + k * interval == AdvancedDeadline(deadline, interval, now)
  {
    LeastGridPoint(deadline, interval, now, k);
    var m: nat :| m >= 1 && AdvancedDeadline(deadline, interval, now) == deadline + m * interval;
    if m < k { MulMonotone(m, k - 1, interval); }
    assert (k + 1) * interval == k * interval + interval;
    if m > k { MulMonotone(k + 1, m, interval); }
  }

  // -------------------------------------------------------------- sample rate

  datatype Rate = Rate(startedNs: nat, samples: nat)

  const NO_RATE := Rate(0, 0)

  function Observed(r: Rate, now: nat): Rate {
    Rate(if r.samples == 0 then now else r.startedNs, r.samples + 1)
  }

  /** Samples per second since the first one, 0 until there are two at different times. */
  function ReportedFps(r: Rate, now: nat): real {
    if r.samples <= 1 || now <= r.startedNs then 0.0
    else (r.samples - 1) as real * NS_PER_SECOND as real / (now - r.startedNs) as real
  }

  // ---------------------------------------------------------- worker, as a value

  datatype WorkerView = WorkerView(copy: JpegCopy, lastGeneration: Uint64, pipeline: PipelineState,
                                   nextSampleNs: nat, rate: Rate)

  function MakePipelineConfig(c: SenseConfig): PipelineConfig
    requires ValidConfig(c)
  {
    PipelineConfig(c.motionJpegScaleDenom, Thresholds(c.motionPixelDeltaThreshold, c.motionChangedRatioThreshold),
                   c.motionCooldownMs, c.eventLog)
  }

  function WithoutBaseline(p: PipelineState): PipelineState {
    p.(detector := p.detector.(baseline := None))
  }

  /** After a timeout or an unavailable camera. */
  function Forgotten(w: WorkerView): WorkerView {
    w.(pipeline := WithoutBaseline(w.pipeline), lastGeneration := 0, rate := NO_RATE)
  }

  /** Before a ready snapshot is processed: a new capture session starts from nothing. */
  function Entered(w: WorkerView): WorkerView {
    if w.copy.generation == w.lastGeneration then w
    else w.(pipeline := WithoutBaseline(w.pipeline), lastGeneration := w.copy.generation, rate := NO_RATE)
  }

  /** What the shared state shows then: nothing of the old session. */
  function Entering(a: AppView, w: WorkerView): AppView {
    if w.copy.generation == w.lastGeneration then a else MotionSampleReset(a)
  }

  function SampleOf(w: WorkerView, nowNs: Clock, realMs: Uint64): JpegSample {
    JpegSample(w.copy.bytes, w.copy.sequence, nowNs / 1000000, realMs)
  }

  function Processed(sizeMax: nat, c: SenseConfig, w: WorkerView, nowNs: Clock, realMs: Uint64,
                     world: World): PipelineOutcome
    requires ValidConfig(c) && sizeMax <= UINT64_MAX && DecoderContract(sizeMax, world.decoded)
    requires BaselineWellSized(w.pipeline.detector)
  {
    PipelineStep(sizeMax, Entered(w).pipeline, MakePipelineConfig(c), SampleOf(w, nowNs, realMs), world)
  }

  function Counted(w: WorkerView, o: PipelineOutcome, nowNs: Clock): WorkerView {
    var rate := Entered(w).rate;
    Entered(w).(pipeline := o.state, rate := if Judged(o.status) then Observed(rate, nowNs) else rate)
  }

  function HealthReported(a: AppView, status: PipelineStatus, r: PipelineResult, error: string,
                          nowMs: Uint64): AppView
  {
    if status == PipelineEventLogError then EventLogLost(a, error, nowMs)
    else if status == PipelineOk && r.eventLogged then EventLogHealed(a)
    else a
  }

  function MotionPublished(a: AppView, status: PipelineStatus, r: PipelineResult, fps: real): AppView {
    if Judged(status) then MotionUpdated(a, r.motionDetected, r.score, fps, r.eventCount)
    else MotionSampleReset(a)
  }

  function OnGrid(w: WorkerView, interval: nat, nowNs: Clock): WorkerView
    requires interval > 0
  {
    w.(nextSampleNs := AdvancedDeadline(w.nextSampleNs, interval, nowNs))
  }

  // ------------------------------------------------------------ one loop pass

  /** What the outside does during one pass, in order. */
  datatype Pass = Pass(
    sleepDelay: nat, sleepFails: bool, asleep: seq<Change>, beforeCheck: seq<Change>,
    wakes: seq<Wake>, copyMemory: bool, beforeReset: seq<Change>,
    sampleDelay: nat, realMs: Uint64, world: World,
    beforeHealth: seq<Change>, logError: string, logErrorMs: Uint64,
    beforeMotion: seq<Change>, gridDelay: nat)

  datatype Both = Both(app: AppView, worker: WorkerView, clock: Clock)

  /** The shared state after the worker reported the log's health and published its verdict. */
  function Reported(a: AppView, status: PipelineStatus, r: PipelineResult, p: Pass, fps: real): AppView {
    var healthy := HealthReported(AllChanged(a, p.beforeHealth), status, r, p.logError, p.logErrorMs);
    MotionPublished(AllChanged(healthy, p.beforeMotion), status, r, fps)
  }

  /** How the wait of a pass goes: `n` wakes, the answer `status`, and the state `seen` it leaves. */
  predicate WaitedIn(before: Both, p: Pass, n: nat, status: JpegStatus, seen: Both) {
    var a := AllChanged(before.app, p.beforeCheck);
    && n <= |p.wakes| && JpegWaited(a, p.wakes, n, before.worker.copy.sequence)
    && seen == Both(AllChanged(a, Seen(p.wakes, n)), before.worker.(copy := seen.worker.copy), before.clock)
    && JpegTake(status, seen.worker.copy) == JpegAnswer(seen.app.slot, before.worker.copy, p.wakes, n, p.copyMemory)
  }

  /** The rest of a pass with a frame, from its outcome and its two readings of the clock. */
  function AfterFrame(c: SenseConfig, app: AppView, w: WorkerView, o: PipelineOutcome, sampled: Clock, done: Clock,
                      p: Pass): Both
    requires ValidConfig(c)
  {
    var entering := Entering(AllChanged(app, p.beforeReset), w);
    var w' := Counted(w, o, sampled);
    Both(Reported(entering, o.status, o.result, p, ReportedFps(w'.rate, sampled)), OnGrid(w', Interval(c), done), done)
  }

  /** The rest of a pass once the wait has answered `status`, with `b` as the wait left it. */
  function AfterWait(sizeMax: nat, c: SenseConfig, b: Both, status: JpegStatus, p: Pass): Both
    requires ValidConfig(c) && sizeMax <= UINT64_MAX && DecoderContract(sizeMax, p.world.decoded)
    requires BaselineWellSized(b.worker.pipeline.detector)
  {
    if status == JpegStopped then b
    else if status == JpegReady then
      var sampled := Later(b.clock, p.sampleDelay);
      var o := Processed(sizeMax, c, b.worker, sampled, p.realMs, p.world);
      AfterFrame(c, b.app, b.worker, o, sampled, Later(sampled, p.gridDelay), p)
    else
      var w := if status in {JpegUnavailable, JpegTimeout} then Forgotten(b.worker) else b.worker;
      var done := Later(b.clock, p.gridDelay);
      Both(MotionSampleReset(AllChanged(b.app, p.beforeReset)), OnGrid(w, Interval(c), done), done)
  }

  /** A pass that is not stopped moves the deadline on by at least one interval, past the clock. */
  lemma PassMovesOn(sizeMax: nat, c: SenseConfig, b: Both, status: JpegStatus, p: Pass)
    requires ValidConfig(c) && sizeMax <= UINT64_MAX && DecoderContract(sizeMax, p.world.decoded)
    requires BaselineWellSized(b.worker.pipeline.detector) && status != JpegStopped
    ensures var next := AfterWait(sizeMax, c, b, status, p).worker.nextSampleNs;
            && next >= b.worker.nextSampleNs + Interval(c)
            && (status == JpegReady ==> next > Later(b.clock, p.sampleDelay))
  {
  }

  /** One pass that was made: awake, `n` wakes of the wait, its answer and what it left, and the end. */
  datatype PassVisit = PassVisit(awake: Both, n: nat, status: JpegStatus, seen: Both, after: Both)

  /** No pass: the stop is seen, before or behind the sleep, or the sleep fails, or the clock has no such time. */
  predicate PassEnds(b: Both, p: Pass) {
    || b.app.slot.stop || b.app.slot.signalled
    || AllChanged(b.app, p.asleep).slot.stop || AllChanged(b.app, p.asleep).slot.signalled
    || p.sleepFails || b.worker.nextSampleNs > HORIZON_NS
  }

  /** The pass sleeps to its deadline, waits for a frame, and goes on as the answer says. */
  predicate PassRuns(sizeMax: nat, c: SenseConfig, b: Both, p: Pass, v: PassVisit)
    requires ValidConfig(c) && sizeMax <= UINT64_MAX && DecoderContract(sizeMax, p.world.decoded)
  {
    && b.worker.nextSampleNs <= HORIZON_NS
    && v.awake == Both(AllChanged(b.app, p.asleep), b.worker,
                       Later(if b.clock < b.worker.nextSampleNs then b.worker.nextSampleNs else b.clock, p.sleepDelay))
    && WaitedIn(v.awake, p, v.n, v.status, v.seen) && BaselineWellSized(v.seen.worker.pipeline.detector)
    && v.after == AfterWait(sizeMax, c, v.seen, v.status, p)
  }

  /** What one round of the thread's loop does. */
  predicate RoundDoes(sizeMax: nat, c: SenseConfig, b: Both, p: Pass, running: bool, v: PassVisit, now: Both)
    requires ValidConfig(c) && sizeMax <= UINT64_MAX && DecoderContract(sizeMax, p.world.decoded)
  {
    if PassEnds(b, p) then
      !running && now.worker == b.worker && (now.app == b.app || now.app == AllChanged(b.app, p.asleep))
    else PassRuns(sizeMax, c, b, p, v) && now == v.after && running == (v.status != JpegStopped)
  }

  function BothAfter(b: Both, visits: seq<PassVisit>): Both {
    if visits == [] then b else visits[|visits| - 1].after
  }

  /** Passes made one after the other; only the last can have been told to stop. */
  predicate PassesRun(sizeMax: nat, c: SenseConfig, b: Both, passes: seq<Pass>, visits: seq<PassVisit>)
    requires ValidConfig(c) && sizeMax <= UINT64_MAX
  {
    && |visits| <= |passes|
    && (visits != [] ==>
          var n := |visits| - 1;
          && DecoderContract(sizeMax, passes[n].world.decoded)
          && PassesRun(sizeMax, c, b, passes, visits[..n])
          && PassRuns(sizeMax, c, BothAfter(b, visits[..n]), passes[n], visits[n])
          && (n > 0 ==> visits[n - 1].status != JpegStopped))
  }

  lemma PassesGoOn(sizeMax: nat, c: SenseConfig, b: Both, passes: seq<Pass>, visits: seq<PassVisit>, v: PassVisit)
    requires ValidConfig(c) && sizeMax <= UINT64_MAX && PassesRun(sizeMax, c, b, passes, visits)
    requires |visits| < |passes| && DecoderContract(sizeMax, passes[|visits|].world.decoded)
    requires PassRuns(sizeMax, c, BothAfter(b, visits), passes[|visits|], v)
    requires visits != [] ==> visits[|visits| - 1].status != JpegStopped
    ensures PassesRun(sizeMax, c, b, passes, visits + [v])
  {
    assert (visits + [v])[..|visits|] == visits;
  }

  /** Sample times more than all but one of the intervals between them apart. */
  ghost predicate Spread(times: seq<nat>, interval: nat) {
    forall i, j :: 0 <= i < j < |times| ==> times[j] > times[i] + (j - i - 1) * interval
  }

  /** The next deadline keeps the same distance from every past sample. */
  ghost predicate Ahead(times: seq<nat>, interval: nat, next: nat) {
    forall i :: 0 <= i < |times| ==> next > times[i] + (|times| - 1 - i) * interval
  }

  /** Taking a sample at or after the deadline, then moving to the next grid point. */
  lemma SampleTaken(times: seq<nat>, interval: nat, next: nat, t: nat, next': nat)
    requires Spread(times, interval) && Ahead(times, interval, next)
    requires t >= next && next' > t && next' >= next + interval
    ensures Spread(times + [t], interval) && Ahead(times + [t], interval, next')
  {
    var all, n := times + [t], |times|;
    forall i | 0 <= i < n
      ensures t > times[i] + (n - i - 1) * interval && next' > times[i] + (n - i) * interval
    {
      assert (n - i) * interval == (n - 1 - i) * interval + interval;
    }
    forall i, j | 0 <= i < j < |all|
      ensures all[j] > all[i] + (j - i - 1) * interval
    {
      if j < n {
        assert all[j] == times[j] && all[i] == times[i];
      }
    }
  }

  lemma TimesAfter(times: seq<nat>, interval: nat, next: nat, t: nat, next': nat, sampled: bool)
    returns (times': seq<nat>)
    requires Spread(times, interval) && Ahead(times, interval, next)
    requires next' >= next && (sampled ==> t >= next && next' > t && next' >= next + interval)
    ensures Spread(times', interval) && Ahead(times', interval, next')
    ensures times' == if sampled then times + [t] else times
  {
    if sampled {
      SampleTaken(times, interval, next, t, next');
    }
    times' := if sampled then times + [t] else times;
  }

  class MotionWorker {
    const config: SenseConfig
    const sizeMax: nat
    const app: AppState
    const snapshot: JpegSnapshot
    const pipeline: MotionPipeline
    var lastGeneration: Uint64
    var rate: Rate
    var nextSampleNs: Uint64
    var clockNs: Clock

    ghost predicate Valid()
      reads this, app, snapshot, pipeline, pipeline.detector
    {
      && ValidConfig(config)
      && app.Valid() && snapshot.Valid() && pipeline.Valid() && pipeline.sizeMax == sizeMax
      && app.frame != snapshot.data
      && app.frame != pipeline.detector.previousPixels && snapshot.data != pipeline.detector.previousPixels
      && nextSampleNs <= HORIZON_NS + Interval(config)
    }

    ghost function View(): (w: WorkerView)
      requires Valid()
      reads this, app, snapshot, snapshot.data
      reads pipeline, pipeline.detector, pipeline.detector.previousPixels, pipeline.gate, pipeline.log
      ensures BaselineWellSized(w.pipeline.detector)
    {
      WorkerView(snapshot.View(), lastGeneration, pipeline.View(), nextSampleNs, rate)
    }

    constructor (config: SenseConfig, sizeMax: nat, app: AppState, clockNs: Clock)
      requires ValidConfig(config) && sizeMax <= UINT64_MAX && app.Valid()
      ensures Valid() && this.app == app && this.config == config && this.sizeMax == sizeMax && this.clockNs == clockNs
      ensures View() == WorkerView(JpegCopy([], 0, 0, 0), 0, ZERO_PIPELINE, clockNs, NO_RATE)
    {
      this.config := config;
      this.sizeMax := sizeMax;
      this.app := app;
      snapshot := new JpegSnapshot();
      pipeline := new MotionPipeline(sizeMax);
      lastGeneration, rate := 0, NO_RATE;
      nextSampleNs := clockNs;
      this.clockNs := clockNs;
    }

    method ObserveSampleRate(now: Clock) returns (fps: real)
      modifies this`rate
      ensures rate == Observed(old(rate), now) && fps == ReportedFps(rate, now)
    {
      if rate.samples == 0 {
        rate := rate.(startedNs := now);
      }
      rate := rate.(samples := rate.samples + 1);
      if rate.samples <= 1 || now <= rate.startedNs {
        return 0.0;
      }
      return (rate.samples - 1) as real * NS_PER_SECOND as real / (now - rate.startedNs) as real;
    }

    /** wait_until_sample: the clock passes the deadline, then the stop flags decide; clock_nanosleep may fail. */
    method WaitUntilSample(p: Pass) returns (sampling: bool)
      requires Valid()
      modifies this`clockNs, app, app.frame
      ensures Valid() && (app.frame == old(app.frame) || fresh(app.frame))
      ensures app.View() == AllChanged(old(app.View()), p.asleep) && View() == old(View())
      ensures clockNs >= old(clockNs)
      ensures sampling <==> !Stopping(app.View().slot) && !p.sleepFails && nextSampleNs <= HORIZON_NS
      ensures sampling ==>
                clockNs == Later(if old(clockNs) < nextSampleNs then nextSampleNs else old(clockNs), p.sleepDelay)
                && nextSampleNs <= clockNs
    {
      app.ApplyAll(p.asleep);
      var stopping := app.ShouldStop();
      if stopping || p.sleepFails || nextSampleNs > HORIZON_NS {
        return false;
      }
      clockNs := Later(if clockNs < nextSampleNs then nextSampleNs else clockNs, p.sleepDelay);
      return true;
    }

    /** One pass of the loop, from the wait for a snapshot to the next deadline. */
    method SampleOnce(p: Pass) returns (status: JpegStatus, ghost seen: Both, ghost n: nat)
      requires Valid() && nextSampleNs <= clockNs && DecoderContract(sizeMax, p.world.decoded)
      modifies this, app, app.frame, snapshot, snapshot.data
      modifies pipeline, pipeline.detector, pipeline.detector.previousPixels, pipeline.gate, pipeline.log
      ensures Valid()
      ensures app.frame == old(app.frame) || fresh(app.frame)
      ensures snapshot.data == old(snapshot.data) || fresh(snapshot.data)
      ensures pipeline.detector.previousPixels == old(pipeline.detector.previousPixels)
           || fresh(pipeline.detector.previousPixels)
      ensures WaitedIn(old(Both(app.View(), View(), clockNs)), p, n, status, seen)
      ensures Both(app.View(), View(), clockNs) == AfterWait(sizeMax, config, seen, status, p)
    {
      status, n := WaitForSnapshot(p);
      seen := Both(app.View(), View(), clockNs);
      ActOnSnapshot(status, p);
    }

    method WaitForSnapshot(p: Pass) returns (status: JpegStatus, ghost n: nat)
      requires Valid()
      modifies app, app.frame, snapshot, snapshot.data
      ensures Valid()
      ensures app.frame == old(app.frame) || fresh(app.frame)
      ensures snapshot.data == old(snapshot.data) || fresh(snapshot.data)
      ensures WaitedIn(old(Both(app.View(), View(), clockNs)), p, n, status, Both(app.View(), View(), clockNs))
    {
      Interfere(p.beforeCheck);
      status, n := app.WaitJpegSnapshot(snapshot, p.wakes, p.copyMemory);
    }

    method ActOnSnapshot(status: JpegStatus, p: Pass)
      requires Valid() && nextSampleNs <= clockNs && DecoderContract(sizeMax, p.world.decoded)
      modifies this`clockNs, this`nextSampleNs, this`rate, this`lastGeneration, app, app.frame
      modifies pipeline, pipeline.detector, pipeline.detector.previousPixels, pipeline.gate, pipeline.log
      ensures Valid()
      ensures app.frame == old(app.frame) || fresh(app.frame)
      ensures pipeline.detector.previousPixels == old(pipeline.detector.previousPixels)
           || fresh(pipeline.detector.previousPixels)
      ensures Both(app.View(), View(), clockNs)
           == AfterWait(sizeMax, config, old(Both(app.View(), View(), clockNs)), status, p)
    {
      if status == JpegStopped {
        return;
      }
      Interfere(p.beforeReset);
      if status == JpegReady {
        ProcessReady(p);
      } else {
        ClearSample(status);
      }
      AdvanceDeadline(p.gridDelay);
    }

    /** A timeout or an unavailable camera: forget and clear; any other failure only clears. */
    method ClearSample(status: JpegStatus)
      requires Valid()
      modifies this`lastGeneration, this`rate, app`motion, pipeline.detector
      ensures Valid() && app.View() == MotionSampleReset(old(app.View()))
      ensures View() == if status in {JpegUnavailable, JpegTimeout} then Forgotten(old(View())) else old(View())
      ensures pipeline.detector.previousPixels == old(pipeline.detector.previousPixels)
    {
      if status == JpegUnavailable || status == JpegTimeout {
        ForgetSamples();
      }
      app.ResetMotionSample();
    }

    method AdvanceDeadline(delay: nat)
      requires Valid() && nextSampleNs <= HORIZON_NS
      modifies this`clockNs, this`nextSampleNs
      ensures Valid() && clockNs == Later(old(clockNs), delay)
      ensures View() == OnGrid(old(View()), Interval(config), clockNs)
      ensures app.View() == old(app.View())
    {
      clockNs := Later(clockNs, delay);
      nextSampleNs := AdvanceSampleDeadline(nextSampleNs, Interval(config), clockNs);
    }

    method ForgetSamples()
      requires Valid()
      modifies this`lastGeneration, this`rate, pipeline.detector
      ensures Valid() && View() == Forgotten(old(View()))
      ensures pipeline.detector.previousPixels == old(pipeline.detector.previousPixels)
    {
      pipeline.ResetBaseline();
      lastGeneration, rate := 0, NO_RATE;
    }

    /** A snapshot of another capture session drops the baseline and the rate. */
    method EnterSession()
      requires Valid()
      modifies this`lastGeneration, this`rate, app`motion, pipeline.detector
      ensures Valid() && View() == Entered(old(View()))
      ensures pipeline.detector.previousPixels == old(pipeline.detector.previousPixels)
      ensures app.View() == Entering(old(app.View()), old(View()))
    {
      if snapshot.generation != lastGeneration {
        pipeline.ResetBaseline();
        lastGeneration, rate := snapshot.generation, NO_RATE;
        app.ResetMotionSample();
      }
    }

    /** Run the pipeline on the snapshot at the current clock. */
    method RunPipeline(p: Pass) returns (status: PipelineStatus, result: PipelineResult)
      requires Valid() && DecoderContract(sizeMax, p.world.decoded)
      modifies pipeline, pipeline.detector, pipeline.detector.previousPixels, pipeline.gate, pipeline.log
      ensures Valid()
      ensures pipeline.detector.previousPixels == old(pipeline.detector.previousPixels)
           || fresh(pipeline.detector.previousPixels)
      ensures var o := PipelineStep(sizeMax, old(View()).pipeline, MakePipelineConfig(config),
                                    SampleOf(old(View()), clockNs, p.realMs), p.world);
              status == o.status && result == o.result && View() == old(View()).(pipeline := o.state)
    {
      var sample := JpegSample(snapshot.data[..snapshot.size], snapshot.sequence, clockNs / 1000000, p.realMs);
      status, result := pipeline.ProcessJpeg(MakePipelineConfig(config), sample, p.world);
    }

    method UpdateEventLogHealth(status: PipelineStatus, result: PipelineResult, error: string, nowMs: Uint64)
      requires Valid()
      modifies app`health
      ensures Valid() && View() == old(View())
      ensures app.View() == HealthReported(old(app.View()), status, result, error, nowMs)
    {
      if status == PipelineEventLogError {
        app.SetEventLogUnavailable(error, nowMs);
      } else if status == PipelineOk && result.eventLogged {
        app.SetEventLogOk();
      }
    }

    /** Let other threads run. */
    method Interfere(changes: seq<Change>)
      requires Valid()
      modifies app, app.frame
      ensures Valid() && View() == old(View()) && (app.frame == old(app.frame) || fresh(app.frame))
      ensures app.View() == AllChanged(old(app.View()), changes)
    {
      app.ApplyAll(changes);
    }

    method PublishVerdict(status: PipelineStatus, result: PipelineResult, p: Pass)
      requires Valid()
      modifies this`rate, app, app.frame
      ensures Valid() && (app.frame == old(app.frame) || fresh(app.frame))
      ensures View() == old(View()).(rate := if Judged(status) then Observed(old(rate), clockNs) else old(rate))
      ensures app.View()
           == MotionPublished(AllChanged(old(app.View()), p.beforeMotion), status, result, ReportedFps(rate, clockNs))
    {
      if status == PipelineOk || status == PipelineEventLogError {
        var fps := ObserveSampleRate(clockNs);
        Interfere(p.beforeMotion);
        app.UpdateMotion(result.motionDetected, result.score, fps, result.eventCount);
      } else {
        Interfere(p.beforeMotion);
        app.ResetMotionSample();
      }
    }

    /** Report the log's health, then publish the verdict, with other threads running before each. */
    method ReportResult(status: PipelineStatus, result: PipelineResult, p: Pass)
      requires Valid()
      modifies this`rate, app, app.frame
      ensures Valid() && (app.frame == old(app.frame) || fresh(app.frame))
      ensures View() == old(View()).(rate := if Judged(status) then Observed(old(rate), clockNs) else old(rate))
      ensures app.View() == Reported(old(app.View()), status, result, p, ReportedFps(rate, clockNs))
    {
      Interfere(p.beforeHealth);
      UpdateEventLogHealth(status, result, p.logError, p.logErrorMs);
      PublishVerdict(status, result, p);
    }

    /** Process a ready snapshot, report the log's health, publish the verdict. */
    method ProcessReady(p: Pass)
      requires Valid() && nextSampleNs <= HORIZON_NS && DecoderContract(sizeMax, p.world.decoded)
      modifies this`clockNs, this`rate, this`lastGeneration, app, app.frame
      modifies pipeline, pipeline.detector, pipeline.detector.previousPixels, pipeline.gate, pipeline.log
      ensures Valid() && nextSampleNs == old(nextSampleNs)
      ensures app.frame == old(app.frame) || fresh(app.frame)
      ensures pipeline.detector.previousPixels == old(pipeline.detector.previousPixels)
           || fresh(pipeline.detector.previousPixels)
      ensures var w := old(View());
              var now := Later(old(clockNs), p.sampleDelay);
              var o := Processed(sizeMax, config, w, now, p.realMs, p.world);
              && clockNs == now && View() == Counted(w, o, now)
              && app.View()
                 == Reported(Entering(old(app.View()), w), o.status, o.result, p, ReportedFps(View().rate, now))
    {
      EnterSession();
      clockNs := Later(clockNs, p.sampleDelay);
      var status, result := RunPipeline(p);
      ReportResult(status, result, p);
    }

    /**
     The thread.  It makes pass after pass until one is told to stop or cannot be
     made, and leaves no motion shown.  `times` are the clock readings of the
     snapshots it processed: any n of them in a row span more than n - 2 intervals.
     */
    method MotionWorkerThread(passes: seq<Pass>) returns (ghost times: seq<nat>, ghost visits: seq<PassVisit>)
      requires Valid()
      requires forall k :: 0 <= k < |passes| ==> DecoderContract(sizeMax, passes[k].world.decoded)
      modifies this, app, app.frame, snapshot, snapshot.data
      modifies pipeline, pipeline.detector, pipeline.detector.previousPixels, pipeline.gate, pipeline.log
      ensures Valid() && Spread(times, Interval(config))
      ensures !app.motion.detected && app.motion.score == 0.0 && app.motion.sampleFps == 0.0
      ensures !config.motionEnabled ==> times == [] && visits == [] && View() == old(View())
      ensures var start := old(Both(app.View(), View(), clockNs));
              && PassesRun(sizeMax, config, start, passes, visits) && View() == BothAfter(start, visits).worker
              && (config.motionEnabled ==>
                    || |visits| == |passes|
                    || (visits != [] && visits[|visits| - 1].status == JpegStopped)
                    || PassEnds(BothAfter(start, visits), passes[|visits|]))
    {
      times, visits := [], [];
      if !config.motionEnabled {
        app.ResetMotionSample();
        return;
      }
      var running, k;
      running, k, times, visits := RunPasses(passes);
      app.ResetMotionSample();
    }

    /** The loop. */
    method RunPasses(passes: seq<Pass>)
      returns (running: bool, k: nat, ghost times: seq<nat>, ghost visits: seq<PassVisit>)
      requires Valid()
      requires forall k :: 0 <= k < |passes| ==> DecoderContract(sizeMax, passes[k].world.decoded)
      modifies this, app, app.frame, snapshot, snapshot.data
      modifies pipeline, pipeline.detector, pipeline.detector.previousPixels, pipeline.gate, pipeline.log
      ensures Valid() && Spread(times, Interval(config)) && k <= |passes| && (running ==> k == |passes|)
      ensures app.frame == old(app.frame) || fresh(app.frame)
      ensures Rounds(old(Both(app.View(), View(), clockNs)), passes, visits, running, k,
                     Both(app.View(), View(), clockNs))
    {
      times, visits := [], [];
      ghost var start := Both(app.View(), View(), clockNs);
      running, k := true, 0;
      while running && k < |passes|
        invariant Valid() && k <= |passes|
        invariant app.frame == old(app.frame) || fresh(app.frame)
        invariant snapshot.data == old(snapshot.data) || fresh(snapshot.data)
        invariant pipeline.detector.previousPixels == old(pipeline.detector.previousPixels)
               || fresh(pipeline.detector.previousPixels)
        invariant Spread(times, Interval(config)) && (running ==> Ahead(times, Interval(config), nextSampleNs))
        invariant Rounds(start, passes, visits, running, k, Both(app.View(), View(), clockNs))
      {
        running, times, visits := NextRound(passes, k, times, start, visits);
        k := k + 1;
      }
    }

    method NextRound(passes: seq<Pass>, k: nat, ghost times: seq<nat>, ghost start: Both, ghost visits: seq<PassVisit>)
      returns (running: bool, ghost times': seq<nat>, ghost visits': seq<PassVisit>)
      requires Valid() && k < |passes| && DecoderContract(sizeMax, passes[k].world.decoded)
      requires Spread(times, Interval(config)) && Ahead(times, Interval(config), nextSampleNs)
      requires Rounds(start, passes, visits, true, k, Both(app.View(), View(), clockNs))
      modifies this, app, app.frame, snapshot, snapshot.data
      modifies pipeline, pipeline.detector, pipeline.detector.previousPixels, pipeline.gate, pipeline.log
      ensures Valid()
      ensures app.frame == old(app.frame) || fresh(app.frame)
      ensures snapshot.data == old(snapshot.data) || fresh(snapshot.data)
      ensures pipeline.detector.previousPixels == old(pipeline.detector.previousPixels)
           || fresh(pipeline.detector.previousPixels)
      ensures Spread(times', Interval(config)) && (running ==> Ahead(times', Interval(config), nextSampleNs))
      ensures Rounds(start, passes, visits', running, k + 1, Both(app.View(), View(), clockNs))
    {
      ghost var visit;
      ghost var before := Both(app.View(), View(), clockNs);
      running, times', visit := OnePass(passes[k], times);
      RoundsGoOn(start, passes, visits, k, before, running, visit, Both(app.View(), View(), clockNs));
      visits' := if PassEnds(before, passes[k]) then visits else visits + [visit];
    }

    /** Where the loop stands after k rounds. */
    ghost predicate Rounds(start: Both, passes: seq<Pass>, visits: seq<PassVisit>, running: bool, k: nat, now: Both)
      requires ValidConfig(config) && sizeMax <= UINT64_MAX && k <= |passes|
    {
      && PassesRun(sizeMax, config, start, passes, visits) && now.worker == BothAfter(start, visits).worker
      && (running ==>
            && |visits| == k && now == BothAfter(start, visits)
            && (visits != [] ==> visits[k - 1].status != JpegStopped))
      && (!running ==>
            || (visits != [] && visits[|visits| - 1].status == JpegStopped)
            || (|visits| < |passes| && PassEnds(BothAfter(start, visits), passes[|visits|])))
    }

    lemma RoundsGoOn(start: Both, passes: seq<Pass>, visits: seq<PassVisit>, k: nat, before: Both, running: bool,
                     v: PassVisit, now: Both)
      requires ValidConfig(config) && sizeMax <= UINT64_MAX && k < |passes|
      requires DecoderContract(sizeMax, passes[k].world.decoded)
      requires Rounds(start, passes, visits, true, k, before)
      requires RoundDoes(sizeMax, config, before, passes[k], running, v, now)
      ensures Rounds(start, passes, if PassEnds(before, passes[k]) then visits else visits + [v], running, k + 1, now)
    {
      if !PassEnds(before, passes[k]) {
        PassesGoOn(sizeMax, config, start, passes, visits, v);
      }
    }

    /** The loop's condition, and the sleep. */
    method Awaken(p: Pass) returns (sampling: bool)
      requires Valid()
      modifies this`clockNs, app, app.frame
      ensures Valid() && (app.frame == old(app.frame) || fresh(app.frame)) && View() == old(View())
      ensures sampling <==> !PassEnds(old(Both(app.View(), View(), clockNs)), p)
      ensures sampling ==>
                && app.View() == AllChanged(old(app.View()), p.asleep) && nextSampleNs <= clockNs
                && clockNs == Later(if old(clockNs) < nextSampleNs then nextSampleNs else old(clockNs), p.sleepDelay)
      ensures !sampling ==> app.View() == old(app.View()) || app.View() == AllChanged(old(app.View()), p.asleep)
    {
      var stopping := app.ShouldStop();
      if stopping {
        return false;
      }
      sampling := WaitUntilSample(p);
    }

    method OnePass(p: Pass, ghost times: seq<nat>)
      returns (running: bool, ghost times': seq<nat>, ghost visit: PassVisit)
      requires Valid() && DecoderContract(sizeMax, p.world.decoded)
      requires Spread(times, Interval(config)) && Ahead(times, Interval(config), nextSampleNs)
      modifies this, app, app.frame, snapshot, snapshot.data
      modifies pipeline, pipeline.detector, pipeline.detector.previousPixels, pipeline.gate, pipeline.log
      ensures Valid()
      ensures app.frame == old(app.frame) || fresh(app.frame)
      ensures snapshot.data == old(snapshot.data) || fresh(snapshot.data)
      ensures pipeline.detector.previousPixels == old(pipeline.detector.previousPixels)
           || fresh(pipeline.detector.previousPixels)
      ensures Spread(times', Interval(config)) && (running ==> Ahead(times', Interval(config), nextSampleNs))
      ensures RoundDoes(sizeMax, config, old(Both(app.View(), View(), clockNs)), p, running, visit,
                        Both(app.View(), View(), clockNs))
    {
      var interval := Interval(config);
      times' := times;
      ghost var before := Both(app.View(), View(), clockNs);
      visit := PassVisit(before, 0, JpegStopped, before, before);
      var sampling := Awaken(p);
      if !sampling {
        return false, times', visit;
      }
      ghost var awake, deadline, t := Both(app.View(), View(), clockNs), nextSampleNs, Later(clockNs, p.sampleDelay);
      var status, seen, n := SampleOnce(p);
      visit := PassVisit(awake, n, status, seen, Both(app.View(), View(), clockNs));
      if status == JpegStopped {
        return false, times', visit;
      }
      PassMovesOn(sizeMax, config, seen, status, p);
      times' := TimesAfter(times, interval, deadline, t, nextSampleNs, status == JpegReady);
      return true, times', visit;
    }
  }
}
