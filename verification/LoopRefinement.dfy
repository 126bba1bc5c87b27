/**
 The worker's loop as a run of the interleaved machine.

 `Worker.MotionWorker.SampleOnce` is proved to wait as `WaitedIn` and to go on as
 `AfterWait` says, whatever sections the other threads execute in between.  Here
 those sections are the actions of other threads, and such a pass is shown to be
 a run of the machine's own steps, so that what holds of every run of the machine
 holds of the loop.
 */
module LoopRefinement {
  import opened CTypes
  import opened Pipeline
  import opened SharedState
  import opened Worker
  import opened WorkerLog
  import opened Interleaving
  import opened DaemonProperties

  // ------------------------------------------------------------- other threads

  predicate ByOthers(actions: seq<Action>) {
    forall i :: 0 <= i < |actions| ==> !actions[i].Work?
  }

  /** The section another thread's action executes, if it executes one. */
  function ChangesOf(s: Daemon, a: Action): seq<Change> {
    match a
    case RequestStop => [Stops]
    case Signal => [Signals]
    case Capture(Activate(device, width, height)) =>
      if s.capturing || s.app.slot.captureGeneration == UINT64_MAX then []
      else [Activates(device, width, height, s.clock)]
    case Capture(PublishNext(bytes, memory)) =>
      if !s.capturing || !LooksLikeJpeg(bytes) || s.app.slot.sequence == UINT64_MAX then []
      else [Publishes(bytes, memory, s.clock)]
    case Capture(Lose(device, error, nowMs)) => [Loses(device, error, nowMs)]
    case _ => []
  }

  function ChangesIn(u: Setup, s: Daemon, actions: seq<Action>): seq<Change>
    requires ValidSetup(u) && Sane(s)
    decreases |actions|
  {
    if actions == [] then [] else ChangesOf(s, actions[0]) + ChangesIn(u, Step(u, s, actions[0]), actions[1..])
  }

  /** Others may have run: the shared state went through these changes, the worker stood still. */
  predicate Idled(s: Daemon, s': Daemon, changes: seq<Change>) {
    && s'.app == AllChanged(s.app, changes)
    && s'.worker == s.worker && s'.stage == s.stage && s'.log == s.log && s'.clock >= s.clock
  }

  lemma OneIdles(u: Setup, s: Daemon, a: Action)
    requires ValidSetup(u) && Sane(s) && !a.Work?
    ensures Idled(s, Step(u, s, a), ChangesOf(s, a))
  {
    var changes := ChangesOf(s, a);
    if changes != [] {
      assert changes[1..] == [];
      assert AllChanged(s.app, changes) == Changed(s.app, changes[0]);
    }
  }

  lemma {:induction false} OthersIdle(u: Setup, s: Daemon, actions: seq<Action>)
    requires ValidSetup(u) && Sane(s) && ByOthers(actions)
    ensures Idled(s, Run(u, s, actions), ChangesIn(u, s, actions))
    decreases |actions|
  {
    if actions != [] {
      var a := actions[0];
      OneIdles(u, s, a);
      OthersIdle(u, Step(u, s, a), actions[1..]);
      AllChangedConcat(s.app, ChangesOf(s, a), ChangesIn(u, Step(u, s, a), actions[1..]));
    }
  }

  // ------------------------------------------------------------------ the wait

  /** Each wait: the check that finds it necessary, then what others do until the wake. */
  function WaitActions(check: Action, waits: seq<seq<Action>>): seq<Action> {
    if waits == [] then []
    else
      var n := |waits| - 1;
      WaitActions(check, waits[..n]) + ([check] + waits[n])
  }

  function AfterWaits(u: Setup, s: Daemon, check: Action, waits: seq<seq<Action>>): (s': Daemon)
    requires ValidSetup(u) && Sane(s)
    ensures Sane(s')
  {
    Run(u, s, WaitActions(check, waits))
  }

  /** After the waits before it, this wait's actions are the changes its wake brings. */
  predicate WakeMatches(u: Setup, s: Daemon, check: Action, before: seq<seq<Action>>, wait: seq<Action>, wake: Wake)
    requires ValidSetup(u) && Sane(s)
  {
    wake.changes == ChangesIn(u, Step(u, AfterWaits(u, s, check, before), check), wait)
  }

  /** The changes before each wake are those of the actions in its wait. */
  predicate WakesMatch(u: Setup, s: Daemon, check: Action, waits: seq<seq<Action>>, wakes: seq<Wake>)
    requires ValidSetup(u) && Sane(s)
  {
    && |waits| <= |wakes|
    && (waits != [] ==>
          var n := |waits| - 1;
          WakesMatch(u, s, check, waits[..n], wakes) && WakeMatches(u, s, check, waits[..n], waits[n], wakes[n]))
  }

  /** The waits have run, and nothing but the changes of their wakes has happened. */
  predicate Waited(s: Daemon, s': Daemon, wakes: seq<Wake>, n: nat)
    requires n <= |wakes|
  {
    && s'.app == AllChanged(s.app, Seen(wakes, n)) && s'.worker == s.worker && s'.log == s.log && s'.clock >= s.clock
    && s'.stage == if n == 0 then Checking else Waiting
  }

  lemma {:induction false} WaitsRun(u: Setup, s: Daemon, waits: seq<seq<Action>>, wakes: seq<Wake>, memory: bool)
    requires ValidSetup(u) && Sane(s) && s.stage == Checking
    requires WakesMatch(u, s, Work(CheckSlot(memory)), waits, wakes) && forall wait :: wait in waits ==> ByOthers(wait)
    requires JpegWaited(s.app, wakes, |waits|, s.worker.copy.sequence)
    ensures Waited(s, AfterWaits(u, s, Work(CheckSlot(memory)), waits), wakes, |waits|)
  {
    if waits != [] {
      var n := |waits| - 1;
      var front, wait := waits[..n], waits[n];
      WaitsRun(u, s, front, wakes, memory);
      assert JpegMustWait(AllChanged(s.app, Seen(wakes, n)).slot, s.worker.copy.sequence);
      OneMoreWait(u, s, front, wait, wakes, memory);
      assert waits == front + [wait];
    }
  }

  lemma CheckWaits(u: Setup, s: Daemon, memory: bool)
    requires ValidSetup(u) && Sane(s) && s.stage in {Checking, Waiting}
    requires JpegMustWait(s.app.slot, s.worker.copy.sequence)
    ensures Step(u, s, Work(CheckSlot(memory))) == s.(stage := Waiting)
  {
  }

  lemma WaitsSplit(u: Setup, s: Daemon, check: Action, front: seq<seq<Action>>, wait: seq<Action>)
    requires ValidSetup(u) && Sane(s)
    ensures AfterWaits(u, s, check, front + [wait]) == Run(u, Step(u, AfterWaits(u, s, check, front), check), wait)
  {
    var before := AfterWaits(u, s, check, front);
    RunConcat(u, s, WaitActions(check, front), [check] + wait);
    RunConcat(u, before, [check], wait);
    RunOne(u, before, check);
    assert (front + [wait])[..|front|] == front;
  }

  lemma OneMoreWait(u: Setup, s: Daemon, front: seq<seq<Action>>, wait: seq<Action>, wakes: seq<Wake>, memory: bool)
    requires ValidSetup(u) && Sane(s) && ByOthers(wait)
    requires |front| < |wakes| && WakeMatches(u, s, Work(CheckSlot(memory)), front, wait, wakes[|front|])
    requires Waited(s, AfterWaits(u, s, Work(CheckSlot(memory)), front), wakes, |front|)
    requires JpegMustWait(AllChanged(s.app, Seen(wakes, |front|)).slot, s.worker.copy.sequence)
    ensures Waited(s, AfterWaits(u, s, Work(CheckSlot(memory)), front + [wait]), wakes, |front| + 1)
  {
    var check := Work(CheckSlot(memory));
    var before := AfterWaits(u, s, check, front);
    CheckWaits(u, before, memory);
    OthersIdle(u, Step(u, before, check), wait);
    AllChangedConcat(s.app, Seen(wakes, |front|), wakes[|front|].changes);
    WaitsSplit(u, s, check, front, wait);
  }

  /** How the wait ends, as steps of the machine. */
  function AnswerActions(wakes: seq<Wake>, n: nat, mustWait: bool, memory: bool): seq<Action>
    requires n <= |wakes|
  {
    if n > 0 && wakes[n - 1].TimedOut? then [Work(LapseWait)]
    else if n > 0 && wakes[n - 1].WaitFails? then [Work(FailWait)]
    else if mustWait then [Work(CheckSlot(memory)), Work(LapseWait)]
    else [Work(CheckSlot(memory))]
  }

  function StageFor(status: JpegStatus, c: JpegCopy): Stage {
    match status
    case JpegReady => Holding
    case JpegUnavailable => Clearing(Refused(c.sequence))
    case JpegStopped => Leaving
    case JpegTimeout => Clearing(Lapsed)
    case JpegNoMemory => Clearing(Failed)
    case JpegError => Clearing(Failed)
  }

  lemma AnswerRuns(u: Setup, s: Daemon, wakes: seq<Wake>, n: nat, memory: bool)
    requires ValidSetup(u) && Sane(s) && n <= |wakes| && s.stage == (if n == 0 then Checking else Waiting)
    ensures var slot, c := s.app.slot, s.worker.copy;
            var t := JpegAnswer(slot, c, wakes, n, memory);
            Run(u, s, AnswerActions(wakes, n, JpegMustWait(slot, c.sequence), memory))
            == s.(worker := s.worker.(copy := t.copy), stage := StageFor(t.status, t.copy))
  {
    var mustWait := JpegMustWait(s.app.slot, s.worker.copy.sequence);
    if n > 0 && wakes[n - 1].TimedOut? {
      RunOne(u, s, Work(LapseWait));
    } else if n > 0 && wakes[n - 1].WaitFails? {
      RunOne(u, s, Work(FailWait));
    } else if mustWait {
      CheckThenLapse(u, s, memory);
    } else {
      RunOne(u, s, Work(CheckSlot(memory)));
    }
  }

  lemma CheckThenLapse(u: Setup, s: Daemon, memory: bool)
    requires ValidSetup(u) && Sane(s) && s.stage in {Checking, Waiting}
    requires JpegMustWait(s.app.slot, s.worker.copy.sequence)
    ensures Run(u, s, [Work(CheckSlot(memory)), Work(LapseWait)]) == s.(stage := Clearing(Lapsed))
  {
    var check, lapse := Work(CheckSlot(memory)), Work(LapseWait);
    assert [check, lapse] == [check] + [lapse];
    CheckWaits(u, s, memory);
    RunConcat(u, s, [check], [lapse]);
    RunOne(u, s, check);
    RunOne(u, Step(u, s, check), lapse);
  }

  // ------------------------------------------------------------------ the pass

  /** What the other threads do in the gaps of one pass. */
  datatype Others = Others(beforeCheck: seq<Action>, waits: seq<seq<Action>>, beforeReset: seq<Action>,
                           beforeHealth: seq<Action>, beforeMotion: seq<Action>)

  predicate AllByOthers(o: Others) {
    && ByOthers(o.beforeCheck) && (forall wait :: wait in o.waits ==> ByOthers(wait))
    && ByOthers(o.beforeReset) && ByOthers(o.beforeHealth) && ByOthers(o.beforeMotion)
  }

  /** The machine's state when the pass starts to wait, and when it has waited. */
  function AtCheck(u: Setup, s: Daemon, o: Others): (s': Daemon)
    requires ValidSetup(u) && Sane(s)
    ensures Sane(s')
  {
    Run(u, s, o.beforeCheck)
  }

  function Answering(u: Setup, s: Daemon, o: Others, p: Pass): (actions: seq<Action>)
    requires ValidSetup(u) && Sane(s) && |o.waits| <= |p.wakes|
  {
    var waited := AfterWaits(u, AtCheck(u, s, o), Work(CheckSlot(p.copyMemory)), o.waits);
    AnswerActions(p.wakes, |o.waits|, JpegMustWait(waited.app.slot, waited.worker.copy.sequence), p.copyMemory)
  }

  function AtAnswer(u: Setup, s: Daemon, o: Others, p: Pass): (s': Daemon)
    requires ValidSetup(u) && Sane(s) && |o.waits| <= |p.wakes|
    ensures Sane(s')
  {
    Run(u, AfterWaits(u, AtCheck(u, s, o), Work(CheckSlot(p.copyMemory)), o.waits), Answering(u, s, o, p))
  }

  /** Its state after the pass, if `status` was the answer in state `t`. */
  function ActsOn(status: JpegStatus, o: Others, p: Pass): seq<Action> {
    if status == JpegStopped then []
    else if status == JpegReady then
      var process, report := Work(Process(p.realMs, p.world)), Work(Report(p.logError, p.logErrorMs));
      o.beforeReset + ([process] + (o.beforeHealth + ([report] + (o.beforeMotion + [Work(Show)]))))
    else o.beforeReset + [Work(ClearSample)]
  }

  function PassActions(u: Setup, s: Daemon, o: Others, p: Pass, status: JpegStatus): seq<Action>
    requires ValidSetup(u) && Sane(s) && |o.waits| <= |p.wakes|
  {
    var waits := WaitActions(Work(CheckSlot(p.copyMemory)), o.waits);
    o.beforeCheck + (waits + (Answering(u, s, o, p) + ActsOn(status, o, p)))
  }

  /** The pass's changes before the answer are those of the others' actions. */
  predicate WaitAccords(u: Setup, s: Daemon, o: Others, p: Pass, n: nat)
    requires ValidSetup(u) && Sane(s)
  {
    && n == |o.waits| <= |p.wakes| && AllByOthers(o)
    && p.beforeCheck == ChangesIn(u, s, o.beforeCheck)
    && WakesMatch(u, AtCheck(u, s, o), Work(CheckSlot(p.copyMemory)), o.waits, p.wakes)
  }

  lemma WaitIsRun(u: Setup, s: Daemon, o: Others, p: Pass, n: nat, status: JpegStatus, seen: Both)
    requires ValidSetup(u) && Sane(s) && s.stage == Checking && WaitAccords(u, s, o, p, n)
    requires WaitedIn(Both(s.app, s.worker, s.clock), p, n, status, seen)
    ensures var t := AtAnswer(u, s, o, p);
            && t.app == seen.app && t.worker == seen.worker && t.log == s.log && t.clock >= s.clock
            && t.stage == StageFor(status, seen.worker.copy)
  {
    var s1 := AtCheck(u, s, o);
    OthersIdle(u, s, o.beforeCheck);
    WaitsRun(u, s1, o.waits, p.wakes, p.copyMemory);
    AnswerRuns(u, AfterWaits(u, s1, Work(CheckSlot(p.copyMemory)), o.waits), p.wakes, n, p.copyMemory);
  }

  /** So are its changes after an answer that is no frame, and the time until the next deadline is set. */
  predicate ClearAccords(u: Setup, t: Daemon, o: Others, p: Pass, startNs: Clock)
    requires ValidSetup(u) && Sane(t)
  {
    && AllByOthers(o) && p.beforeReset == ChangesIn(u, t, o.beforeReset)
    && startNs + p.gridDelay == Run(u, t, o.beforeReset).clock
  }

  lemma ClearIsRun(u: Setup, t: Daemon, o: Others, p: Pass, status: JpegStatus, startNs: Clock)
    requires ValidSetup(u) && Sane(t) && DecoderContract(u.sizeMax, p.world.decoded)
    requires status !in {JpegStopped, JpegReady} && t.stage == StageFor(status, t.worker.copy)
    requires ClearAccords(u, t, o, p, startNs)
    ensures var s' := Run(u, t, ActsOn(status, o, p));
            && Both(s'.app, s'.worker, s'.clock)
               == AfterWait(u.sizeMax, u.config, Both(t.app, t.worker, startNs), status, p)
            && s'.stage == Sleeping && s'.log == t.log + [t.stage.entry]
  {
    OthersIdle(u, t, o.beforeReset);
    RunConcat(u, t, o.beforeReset, [Work(ClearSample)]);
    RunOne(u, Run(u, t, o.beforeReset), Work(ClearSample));
  }

  function AtProcess(u: Setup, t: Daemon, o: Others, p: Pass): (s': Daemon)
    requires ValidSetup(u) && Sane(t)
    ensures Sane(s')
  {
    Step(u, Run(u, t, o.beforeReset), Work(Process(p.realMs, p.world)))
  }

  function AtReport(u: Setup, t: Daemon, o: Others, p: Pass): (s': Daemon)
    requires ValidSetup(u) && Sane(t)
    ensures Sane(s')
  {
    Step(u, Run(u, AtProcess(u, t, o, p), o.beforeHealth), Work(Report(p.logError, p.logErrorMs)))
  }

  /** After a frame: the same for each of its gaps, and for the two readings of the clock. */
  predicate ReadyAccords(u: Setup, t: Daemon, o: Others, p: Pass, startNs: Clock)
    requires ValidSetup(u) && Sane(t)
  {
    var taken := Run(u, t, o.beforeReset);
    && AllByOthers(o) && p.beforeReset == ChangesIn(u, t, o.beforeReset)
    && startNs + p.sampleDelay == taken.clock
    && p.beforeHealth == ChangesIn(u, AtProcess(u, t, o, p), o.beforeHealth)
    && p.beforeMotion == ChangesIn(u, AtReport(u, t, o, p), o.beforeMotion)
    && taken.clock + p.gridDelay == Run(u, AtReport(u, t, o, p), o.beforeMotion).clock
  }

  lemma ProcessIsStep(u: Setup, t: Daemon, o: Others, p: Pass)
    requires ValidSetup(u) && Sane(t) && DecoderContract(u.sizeMax, p.world.decoded)
    requires t.stage == Holding && ByOthers(o.beforeReset)
    ensures var taken, s' := Run(u, t, o.beforeReset), AtProcess(u, t, o, p);
            var out := Processed(u.sizeMax, u.config, t.worker, taken.clock, p.realMs, p.world);
            && s'.app == Entering(AllChanged(t.app, ChangesIn(u, t, o.beforeReset)), t.worker)
            && s'.worker == Counted(t.worker, out, taken.clock) && s'.stage == Reporting && s'.clock == taken.clock
            && |s'.log| == |t.log| + 1 && s'.log[..|t.log|] == t.log && Last(s'.log).Sampled?
            && Last(s'.log).status == out.status && Last(s'.log).result == out.result
            && Last(s'.log).timeNs == taken.clock
  {
    OthersIdle(u, t, o.beforeReset);
    var taken := Run(u, t, o.beforeReset);
    assert AtProcess(u, t, o, p) == ProcessedStep(u, taken, p.realMs, p.world);
  }

  lemma ReportIsStep(u: Setup, t: Daemon, o: Others, p: Pass)
    requires ValidSetup(u) && Sane(t) && ByOthers(o.beforeHealth)
    requires var s := AtProcess(u, t, o, p); s.stage == Reporting && s.log != [] && Last(s.log).Sampled?
    ensures var s, s' := AtProcess(u, t, o, p), AtReport(u, t, o, p);
            && s'.app == HealthReported(AllChanged(s.app, ChangesIn(u, s, o.beforeHealth)), Last(s.log).status,
                                        Last(s.log).result, p.logError, p.logErrorMs)
            && s'.worker == s.worker && s'.log == s.log && s'.stage == Showing
  {
    var s := AtProcess(u, t, o, p);
    OthersIdle(u, s, o.beforeHealth);
    ReportStep(u, Run(u, s, o.beforeHealth), p.logError, p.logErrorMs);
  }

  lemma ReportStep(u: Setup, s: Daemon, error: string, nowMs: Uint64)
    requires ValidSetup(u) && Sane(s) && s.stage == Reporting && s.log != [] && Last(s.log).Sampled?
    ensures var e := Last(s.log);
            Step(u, s, Work(Report(error, nowMs)))
            == s.(app := HealthReported(s.app, e.status, e.result, error, nowMs), stage := Showing)
  {
  }

  lemma ShowIsStep(u: Setup, s: Daemon, others: seq<Action>)
    requires ValidSetup(u) && Sane(s) && ByOthers(others)
    requires s.stage == Showing && s.log != [] && Last(s.log).Sampled?
    ensures var e, before, s' := Last(s.log), Run(u, s, others), Run(u, s, others + [Work(Show)]);
            && s'.app == MotionPublished(AllChanged(s.app, ChangesIn(u, s, others)), e.status, e.result,
                                         ReportedFps(s.worker.rate, e.timeNs))
            && s'.worker == OnGrid(s.worker, Interval(u.config), before.clock)
            && s'.stage == Sleeping && s'.log == s.log && s'.clock == before.clock
  {
    OthersIdle(u, s, others);
    RunConcat(u, s, others, [Work(Show)]);
    RunOne(u, Run(u, s, others), Work(Show));
  }

  /** The five stretches of a pass with a frame, run one after the other. */
  lemma ReadyRunsOn(u: Setup, t: Daemon, o: Others, p: Pass)
    requires ValidSetup(u) && Sane(t)
    ensures Run(u, t, ActsOn(JpegReady, o, p)) == Run(u, AtReport(u, t, o, p), o.beforeMotion + [Work(Show)])
  {
    var process, report := Work(Process(p.realMs, p.world)), Work(Report(p.logError, p.logErrorMs));
    var last := o.beforeMotion + [Work(Show)];
    var s1 := Run(u, t, o.beforeReset);
    RunConcat(u, t, o.beforeReset, [process] + (o.beforeHealth + ([report] + last)));
    RunConcat(u, s1, [process], o.beforeHealth + ([report] + last));
    RunOne(u, s1, process);
    var s2 := AtProcess(u, t, o, p);
    RunConcat(u, s2, o.beforeHealth, [report] + last);
    var s3 := Run(u, s2, o.beforeHealth);
    RunConcat(u, s3, [report], last);
    RunOne(u, s3, report);
  }

  /** AfterWait for a frame, with the two readings of the clock named. */
  lemma AfterWaitReady(u: Setup, b: Both, p: Pass, sampled: Clock, done: Clock)
    requires ValidSetup(u) && BaselineWellSized(b.worker.pipeline.detector)
    requires DecoderContract(u.sizeMax, p.world.decoded)
    requires b.clock + p.sampleDelay == sampled && sampled + p.gridDelay == done
    ensures var out := Processed(u.sizeMax, u.config, b.worker, sampled, p.realMs, p.world);
            AfterWait(u.sizeMax, u.config, b, JpegReady, p)
            == AfterFrame(u.config, b.app, b.worker, out, sampled, done, p)
  {
  }

  lemma ReadyIsRun(u: Setup, t: Daemon, o: Others, p: Pass, startNs: Clock)
    requires ValidSetup(u) && Sane(t) && DecoderContract(u.sizeMax, p.world.decoded)
    requires t.stage == Holding && ReadyAccords(u, t, o, p, startNs)
    ensures var s' := Run(u, t, ActsOn(JpegReady, o, p));
            && Both(s'.app, s'.worker, s'.clock)
               == AfterWait(u.sizeMax, u.config, Both(t.app, t.worker, startNs), JpegReady, p)
            && s'.stage == Sleeping && |s'.log| == |t.log| + 1 && s'.log[..|t.log|] == t.log && Last(s'.log).Sampled?
  {
    var processed, reported := AtProcess(u, t, o, p), AtReport(u, t, o, p);
    var sampled, done := Run(u, t, o.beforeReset).clock, Run(u, reported, o.beforeMotion).clock;
    ProcessIsStep(u, t, o, p);
    ReportIsStep(u, t, o, p);
    ShowIsStep(u, reported, o.beforeMotion);
    ReadyRunsOn(u, t, o, p);
    AfterWaitReady(u, Both(t.app, t.worker, startNs), p, sampled, done);
    ReportedInSteps(processed.app, Last(processed.log).status, Last(processed.log).result, p,
                    ReportedFps(processed.worker.rate, sampled));
  }

  lemma ReportedInSteps(a: AppView, status: PipelineStatus, r: PipelineResult, p: Pass, fps: real)
    ensures var healthy := HealthReported(AllChanged(a, p.beforeHealth), status, r, p.logError, p.logErrorMs);
            Reported(a, status, r, p, fps) == MotionPublished(AllChanged(healthy, p.beforeMotion), status, r, fps)
  {
  }

  /** All gaps and clock readings of a pass are accounted for by the others' actions. */
  predicate Accords(u: Setup, s: Daemon, o: Others, p: Pass, n: nat, status: JpegStatus)
    requires ValidSetup(u) && Sane(s)
  {
    && WaitAccords(u, s, o, p, n)
    && (status == JpegReady ==> ReadyAccords(u, AtAnswer(u, s, o, p), o, p, s.clock))
    && (status !in {JpegReady, JpegStopped} ==> ClearAccords(u, AtAnswer(u, s, o, p), o, p, s.clock))
  }

  /**
   Every pass of the loop is a run of the machine: whatever the other threads do
   in its gaps, the worker's steps CheckSlot, Process, Report and Show, or the
   clearing step, lead the machine exactly where the loop gets, and the machine's
   record grows by this pass.
   */
  lemma PassIsRun(u: Setup, s: Daemon, o: Others, p: Pass, n: nat, status: JpegStatus, seen: Both)
    requires ValidSetup(u) && Sane(s) && s.stage == Checking && DecoderContract(u.sizeMax, p.world.decoded)
    requires WaitedIn(Both(s.app, s.worker, s.clock), p, n, status, seen)
    requires Accords(u, s, o, p, n, status)
    ensures BaselineWellSized(seen.worker.pipeline.detector)
    ensures var s', b := Run(u, s, PassActions(u, s, o, p, status)), AfterWait(u.sizeMax, u.config, seen, status, p);
            && s'.app == b.app && s'.worker == b.worker
            && (if status == JpegStopped then s'.stage == Leaving && s'.log == s.log
                else s'.stage == Sleeping && s'.clock == b.clock
                     && |s'.log| == |s.log| + 1 && s'.log[..|s.log|] == s.log
                     && (Last(s'.log).Sampled? <==> status == JpegReady))
  {
    WaitIsRun(u, s, o, p, n, status, seen);
    var t := AtAnswer(u, s, o, p);
    PassSplits(u, s, o, p, status);
    if status == JpegReady {
      ReadyIsRun(u, t, o, p, s.clock);
    } else if status != JpegStopped {
      ClearIsRun(u, t, o, p, status, s.clock);
    }
  }

  lemma PassSplits(u: Setup, s: Daemon, o: Others, p: Pass, status: JpegStatus)
    requires ValidSetup(u) && Sane(s) && |o.waits| <= |p.wakes|
    ensures Run(u, s, PassActions(u, s, o, p, status)) == Run(u, AtAnswer(u, s, o, p), ActsOn(status, o, p))
  {
    var waits := WaitActions(Work(CheckSlot(p.copyMemory)), o.waits);
    var answer, acts := Answering(u, s, o, p), ActsOn(status, o, p);
    var s1 := AtCheck(u, s, o);
    RunConcat(u, s, o.beforeCheck, waits + (answer + acts));
    RunConcat(u, s1, waits, answer + acts);
    RunConcat(u, AfterWaits(u, s1, Work(CheckSlot(p.copyMemory)), o.waits), answer, acts);
  }

  lemma ReachableRun(u: Setup, s: Daemon, actions: seq<Action>)
    requires Reachable(u, s)
    ensures Sane(s) && Reachable(u, Run(u, s, actions))
  {
    var nowMs: Uint64, clock: Clock, first: seq<Action> :| Arrives(u, nowMs, clock, first, s);
    RunConcat(u, Start(u, nowMs, clock), first, actions);
    assert Arrives(u, nowMs, clock, first + actions, Run(u, s, actions));
  }

  /** The machine's state when the worker has slept to its deadline and found no stop. */
  function Awake(u: Setup, s: Daemon, asleep: seq<Action>): (s': Daemon)
    requires ValidSetup(u) && Sane(s)
    ensures Sane(s')
  {
    Step(u, Run(u, s, asleep), Work(Wake))
  }

  /**
   So every state the loop is in between two passes is a reachable state of the
   machine, and every theorem about those holds there.
   */
  lemma LoopStaysReachable(u: Setup, s: Daemon, asleep: seq<Action>, o: Others, p: Pass, n: nat, status: JpegStatus,
                           seen: Both)
    returns (s': Daemon)
    requires Reachable(u, s) && Sane(s) && s.stage == Sleeping && ByOthers(asleep)
    requires var t := Run(u, s, asleep); t.worker.nextSampleNs <= t.clock && !Stopping(t.app.slot)
    requires DecoderContract(u.sizeMax, p.world.decoded)
    requires var t := Awake(u, s, asleep); WaitedIn(Both(t.app, t.worker, t.clock), p, n, status, seen)
    requires Accords(u, Awake(u, s, asleep), o, p, n, status)
    ensures BaselineWellSized(seen.worker.pipeline.detector)
    ensures var b := AfterWait(u.sizeMax, u.config, seen, status, p);
            && Reachable(u, s') && s'.app == b.app && s'.worker == b.worker
            && s'.stage == if status == JpegStopped then Leaving else Sleeping
  {
    var t := Awake(u, s, asleep);
    AwakeIsReachable(u, s, asleep);
    PassIsRun(u, t, o, p, n, status, seen);
    s' := Run(u, t, PassActions(u, t, o, p, status));
    ReachableRun(u, t, PassActions(u, t, o, p, status));
  }

  lemma AwakeIsReachable(u: Setup, s: Daemon, asleep: seq<Action>)
    requires Reachable(u, s) && Sane(s) && s.stage == Sleeping && ByOthers(asleep)
    requires var t := Run(u, s, asleep); t.worker.nextSampleNs <= t.clock && !Stopping(t.app.slot)
    ensures Reachable(u, Awake(u, s, asleep)) && Awake(u, s, asleep).stage == Checking
  {
    OthersIdle(u, s, asleep);
    ReachableRun(u, s, asleep);
    ReachableStep(u, Run(u, s, asleep), Work(Wake));
  }
}
