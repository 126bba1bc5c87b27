/**
 What the motion worker's passes amount to, read off their record alone.

 A `Entry` is the outcome of one pass.  `Replay` computes the worker's private
 memory from the entries; the lemmas relate every verdict to the frames it
 compares, the gate and the log file to the verdicts.
 */
module WorkerLog {
  import opened CTypes
  import opened Config
  import opened Detector
  import opened EventGate
  import opened Pipeline
  import opened Worker

  datatype Entry =
    | Lapsed
    | Refused(acknowledged: Uint64)
    | Failed
    | Sampled(sample: JpegSample, generation: Uint64, timeNs: Clock, world: World,
              status: PipelineStatus, result: PipelineResult)

  /** The daemon's fixed parameters: target and configuration. */
  datatype Setup = Setup(sizeMax: nat, config: SenseConfig)

  predicate ValidSetup(u: Setup) {
    u.sizeMax <= UINT64_MAX && ValidConfig(u.config)
  }

  function Chain(u: Setup): PipelineConfig
    requires ValidSetup(u)
  {
    MakePipelineConfig(u.config)
  }

  predicate WellFed(u: Setup, log: seq<Entry>) {
    forall i :: 0 <= i < |log| && log[i].Sampled? ==>
      SampleIsValid(log[i].sample) && DecoderContract(u.sizeMax, log[i].world.decoded)
  }

  datatype Memory = Memory(pipeline: PipelineState, lastGeneration: Uint64, rate: Rate)

  function Forget(m: Memory): Memory {
    Memory(WithoutBaseline(m.pipeline), 0, NO_RATE)
  }

  function Enter(m: Memory, generation: Uint64): Memory {
    if generation == m.lastGeneration then m else Memory(WithoutBaseline(m.pipeline), generation, NO_RATE)
  }

  /** The pipeline's answer to an entry's sample, from the memory before it. */
  function Answer(u: Setup, m: Memory, e: Entry): PipelineOutcome
    requires ValidSetup(u) && e.Sampled? && DecoderContract(u.sizeMax, e.world.decoded)
    requires BaselineWellSized(m.pipeline.detector)
  {
    PipelineStep(u.sizeMax, Enter(m, e.generation).pipeline, Chain(u), e.sample, e.world)
  }

  function Remember(u: Setup, m: Memory, e: Entry): (m': Memory)
    requires ValidSetup(u) && (e.Sampled? ==> DecoderContract(u.sizeMax, e.world.decoded))
    requires BaselineWellSized(m.pipeline.detector)
    ensures BaselineWellSized(m'.pipeline.detector)
  {
    match e
    case Lapsed => Forget(m)
    case Refused(_) => Forget(m)
    case Failed => m
    case Sampled(s, g, t, w, _, _) =>
      var o := Answer(u, m, e);
      StepKeepsSizes(u.sizeMax, Enter(m, g).pipeline, Chain(u), s, w);
      Memory(o.state, g, if Judged(o.status) then Observed(Enter(m, g).rate, t) else Enter(m, g).rate)
  }

  function Replay(u: Setup, log: seq<Entry>): (m: Memory)
    requires ValidSetup(u) && WellFed(u, log)
    ensures BaselineWellSized(m.pipeline.detector)
  {
    if log == [] then Memory(ZERO_PIPELINE, 0, NO_RATE)
    else Remember(u, Replay(u, log[..|log| - 1]), log[|log| - 1])
  }

  /** Every entry records the answer the pipeline gives after the entries before it. */
  ghost predicate Truthful(u: Setup, log: seq<Entry>)
    requires ValidSetup(u) && WellFed(u, log)
  {
    forall i :: 0 <= i < |log| && log[i].Sampled? ==>
      var o := Answer(u, Replay(u, log[..i]), log[i]);
      log[i].status == o.status && log[i].result == o.result
  }

  lemma TruthfulPrefix(u: Setup, log: seq<Entry>, n: nat)
    requires ValidSetup(u) && WellFed(u, log) && Truthful(u, log) && n <= |log|
    ensures WellFed(u, log[..n]) && Truthful(u, log[..n])
  {
    var prefix := log[..n];
    forall i | 0 <= i < n && prefix[i].Sampled?
      ensures var o := Answer(u, Replay(u, prefix[..i]), prefix[i]);
              prefix[i].status == o.status && prefix[i].result == o.result
    {
      PrefixOfPrefix(log, n, i);
    }
  }

  lemma PrefixOfPrefix(log: seq<Entry>, n: nat, i: nat)
    requires i <= n <= |log|
    ensures log[..n][..i] == log[..i]
  {
  }

  lemma TruthfulSnoc(u: Setup, log: seq<Entry>, e: Entry)
    requires ValidSetup(u) && WellFed(u, log) && Truthful(u, log)
    requires e.Sampled? ==> SampleIsValid(e.sample) && DecoderContract(u.sizeMax, e.world.decoded)
    requires e.Sampled? ==> var o := Answer(u, Replay(u, log), e); e.status == o.status && e.result == o.result
    ensures WellFed(u, log + [e]) && Truthful(u, log + [e])
    ensures Replay(u, log + [e]) == Remember(u, Replay(u, log), e)
  {
    var all := log + [e];
    assert all[..|log|] == log;
    forall i | 0 <= i < |log| ensures all[..i] == log[..i] {
    }
  }

  // ------------------------------------------------------- the baseline's origin

  predicate IsJudged(e: Entry) {
    e.Sampled? && Judged(e.status)
  }

  /**
   Pass j was judged, and no pass between j and i was, timed out, found the
   camera unavailable, or belonged to another capture session: the worker holds
   pass j's image when pass i begins.
   */
  predicate Origin(log: seq<Entry>, j: nat, i: nat) {
    && j < i <= |log| && IsJudged(log[j])
    && forall k :: j < k < i ==> Calm(log[k], log[j].generation)
  }

  predicate Calm(e: Entry, generation: Uint64) {
    e.Failed? || (e.Sampled? && !IsJudged(e) && e.generation == generation)
  }

  /** The generation the worker last worked in, 0 when it has been told to forget. */
  function LastGeneration(log: seq<Entry>): Uint64 {
    if log == [] then 0
    else
      match log[|log| - 1]
      case Lapsed => 0
      case Refused(_) => 0
      case Failed => LastGeneration(log[..|log| - 1])
      case Sampled(_, g, _, _, _, _) => g
  }

  function ImageOf(e: Entry): Gray
    requires e.Sampled? && e.world.decoded.Decodes?
  {
    e.world.decoded.image
  }

  /** A judged sample was decoded, and its image is what the detector keeps. */
  lemma JudgedKeepsImage(u: Setup, m: Memory, e: Entry)
    requires ValidSetup(u) && e.Sampled? && SampleIsValid(e.sample) && DecoderContract(u.sizeMax, e.world.decoded)
    requires BaselineWellSized(m.pipeline.detector) && WellPhased(m.pipeline.gate)
    ensures var o := Answer(u, m, e);
            && (Judged(o.status) ==>
                  e.world.decoded.Decodes? && o.state.detector.baseline == Some(e.world.decoded.image))
            && (!Judged(o.status) ==> o.state.detector.baseline == Enter(m, e.generation).pipeline.detector.baseline)
            && WellPhased(o.state.gate)
  {
    if e.world.decoded.Decodes? {
      var image := e.world.decoded.image;
      DecodedObligations(u.sizeMax, e.world.decoded, Chain(u).thresholds, e.world.memory);
      FrameOfDecoded(image, Chain(u).thresholds, e.world.memory);
    }
  }

  /** What one pass does to the baseline. */
  lemma RememberedBaseline(u: Setup, m: Memory, e: Entry)
    requires ValidSetup(u) && BaselineWellSized(m.pipeline.detector) && WellPhased(m.pipeline.gate)
    requires e.Sampled? ==> SampleIsValid(e.sample) && DecoderContract(u.sizeMax, e.world.decoded)
    requires e.Sampled? ==> e.status == Answer(u, m, e).status
    ensures var m' := Remember(u, m, e);
            && WellPhased(m'.pipeline.gate)
            && m'.lastGeneration == (if e.Sampled? then e.generation else if e.Failed? then m.lastGeneration else 0)
            && (IsJudged(e) ==> e.world.decoded.Decodes?)
            && m'.pipeline.detector.baseline ==
               if IsJudged(e) then Some(ImageOf(e))
               else if Calm(e, m.lastGeneration) then m.pipeline.detector.baseline
               else None
  {
    if e.Sampled? {
      JudgedKeepsImage(u, m, e);
    }
  }

  /** How origins change with one more pass. */
  lemma OriginStep(log: seq<Entry>)
    requires log != []
    ensures var n := |log| - 1;
            forall j: nat :: Origin(log, j, n + 1) <==>
              if j == n then IsJudged(log[n]) else Origin(log[..n], j, n) && Calm(log[n], log[j].generation)
  {
    var n := |log| - 1;
    assert forall k :: 0 <= k < n ==> log[..n][k] == log[k];
  }

  /** The baseline is the image of its origin, and there is one only with an origin. */
  ghost predicate BaselineFrom(log: seq<Entry>, baseline: Option<Gray>) {
    && (baseline.Some? ==> exists j: nat :: Origin(log, j, |log|))
    && (forall j: nat :: Origin(log, j, |log|) ==>
          && log[j].world.decoded.Decodes? && baseline == Some(ImageOf(log[j]))
          && log[j].generation == LastGeneration(log))
  }

  /** One more pass keeps that, if it stores its image, is calm, or drops the baseline. */
  lemma OriginCarries(log: seq<Entry>, before: Option<Gray>, after: Option<Gray>)
    requires log != [] && BaselineFrom(log[..|log| - 1], before)
    requires var e, g := log[|log| - 1], LastGeneration(log[..|log| - 1]);
             && (IsJudged(e) ==> e.world.decoded.Decodes?)
             && after == if IsJudged(e) then Some(ImageOf(e)) else if Calm(e, g) then before else None
    ensures BaselineFrom(log, after)
  {
    var n := |log| - 1;
    var prefix, e := log[..n], log[n];
    OriginStep(log);
    if IsJudged(e) {
      assert Origin(log, n, n + 1);
    } else if after.Some? {
      var j: nat :| Origin(prefix, j, n);
      assert Origin(log, j, n + 1);
    }
    forall j: nat | Origin(log, j, n + 1)
      ensures log[j].world.decoded.Decodes? && after == Some(ImageOf(log[j]))
      ensures log[j].generation == LastGeneration(log)
    {
      if j < n {
        assert Origin(prefix, j, n) && prefix[j] == log[j];
      }
    }
  }

  lemma {:induction false} BaselineOrigin(u: Setup, log: seq<Entry>)
    requires ValidSetup(u) && WellFed(u, log) && Truthful(u, log)
    ensures WellPhased(Replay(u, log).pipeline.gate)
    ensures Replay(u, log).lastGeneration == LastGeneration(log)
    ensures BaselineFrom(log, Replay(u, log).pipeline.detector.baseline)
  {
    if log != [] {
      var n := |log| - 1;
      TruthfulPrefix(u, log, n);
      BaselineOrigin(u, log[..n]);
      var m := Replay(u, log[..n]);
      RememberedBaseline(u, m, log[n]);
      OriginCarries(log, m.pipeline.detector.baseline, Replay(u, log).pipeline.detector.baseline);
    }
  }

  // ------------------------------------------------------------------ verdicts

  function MotionPart(r: PipelineResult): MotionResult {
    MotionResult(r.totalPixels, r.changedPixels, r.score, r.motionDetected, r.baselineCreated)
  }

  /** Pass i compares with pass j: it holds j's image, and that is of the same session and size. */
  predicate Compares(u: Setup, log: seq<Entry>, j: nat, i: nat)
    requires WellFed(u, log)
  {
    && i < |log| && Origin(log, j, i) && IsJudged(log[i])
    && log[j].world.decoded.Decodes? && log[i].world.decoded.Decodes?
    && log[j].generation == log[i].generation
    && ImageOf(log[j]).width == ImageOf(log[i]).width && ImageOf(log[j]).height == ImageOf(log[i]).height
  }

  /** What a judged pass reports, from the memory before it. */
  lemma JudgedReport(u: Setup, m: Memory, e: Entry)
    requires ValidSetup(u) && e.Sampled? && SampleIsValid(e.sample) && DecoderContract(u.sizeMax, e.world.decoded)
    requires BaselineWellSized(m.pipeline.detector) && WellPhased(m.pipeline.gate)
    requires Judged(Answer(u, m, e).status)
    ensures e.world.decoded.Decodes?
    ensures var before := Enter(m, e.generation).pipeline.detector.baseline;
            var image, r := ImageOf(e), Answer(u, m, e).result;
            if before.Some? && before.value.width == image.width && before.value.height == image.height
            then ReportsDifference(before.value.pixels, image.pixels, Chain(u).thresholds, MotionPart(r))
            else r.baselineCreated && !r.motionDetected && !r.eventEmitted && r.changedPixels == 0
  {
    var image := e.world.decoded.image;
    var d := Enter(m, e.generation).pipeline.detector;
    var c := DecodedCall(image, Chain(u).thresholds, e.world.memory);
    DecodedObligations(u.sizeMax, e.world.decoded, Chain(u).thresholds, e.world.memory);
    CountsFit(u.sizeMax, d, c);
    FrameOfDecoded(image, Chain(u).thresholds, e.world.memory);
    var o := DetectorStep(u.sizeMax, d, c);
    assert o.status == MotionOk && MotionPart(Answer(u, m, e).result) == o.result;
    if d.baseline.Some? && d.baseline.value.width == image.width && d.baseline.value.height == image.height {
      ComparisonReports(u.sizeMax, d, c);
    }
  }

  /**
   Every verdict is justified: a judged pass reports exactly the difference to
   the image of the pass it compares with, and with nothing to compare with it
   reports no motion and no event.
   */
  lemma VerdictsAreJustified(u: Setup, log: seq<Entry>, i: nat)
    requires ValidSetup(u) && WellFed(u, log) && Truthful(u, log)
    requires i < |log| && IsJudged(log[i])
    ensures log[i].world.decoded.Decodes?
    ensures forall j: nat :: Compares(u, log, j, i) ==>
              ReportsDifference(ImageOf(log[j]).pixels, ImageOf(log[i]).pixels, Chain(u).thresholds,
                                MotionPart(log[i].result))
    ensures (forall j: nat :: !Compares(u, log, j, i)) ==>
              log[i].result.baselineCreated && !log[i].result.motionDetected && !log[i].result.eventEmitted
    ensures log[i].result.eventEmitted ==> log[i].result.motionDetected
  {
    var prefix, e := log[..i], log[i];
    TruthfulPrefix(u, log, i);
    BaselineOrigin(u, prefix);
    OriginPrefix(log, i);
    var m := Replay(u, prefix);
    assert e.status == Answer(u, m, e).status && e.result == Answer(u, m, e).result;
    JudgedReport(u, m, e);
    EmitsOnlyMotion(u, m, e);
    if forall j: nat :: !Compares(u, log, j, i) {
      var before := Enter(m, e.generation).pipeline.detector.baseline;
      if before.Some? {
        var j: nat :| Origin(prefix, j, i);
        assert !Compares(u, log, j, i);
      }
    }
  }

  lemma OriginPrefix(log: seq<Entry>, i: nat)
    requires i <= |log|
    ensures forall j: nat :: Origin(log[..i], j, i) <==> Origin(log, j, i)
    ensures forall j: nat :: j < i ==> log[..i][j] == log[j]
  {
  }

  lemma EmitsOnlyMotion(u: Setup, m: Memory, e: Entry)
    requires ValidSetup(u) && e.Sampled? && DecoderContract(u.sizeMax, e.world.decoded)
    requires BaselineWellSized(m.pipeline.detector)
    ensures Answer(u, m, e).result.eventEmitted ==> Answer(u, m, e).result.motionDetected
  {
  }

  // --------------------------------------------------- the chain behind the log

  /** The pipeline calls the passes made. */
  function Ops(log: seq<Entry>): seq<ChainOp> {
    if log == [] then []
    else
      var n := |log| - 1;
      var before := Ops(log[..n]);
      match log[n]
      case Lapsed => before + [ResetBaselineOp]
      case Refused(_) => before + [ResetBaselineOp]
      case Failed => before
      case Sampled(s, g, _, w, _, _) =>
        (if g == LastGeneration(log[..n]) then before else before + [ResetBaselineOp]) + [Feed(s, w)]
  }

  /** Time and verdict of every judged pass. */
  function Verdicts(log: seq<Entry>): seq<Sample> {
    if log == [] then []
    else
      var n := |log| - 1;
      if IsJudged(log[n])
      then Verdicts(log[..n]) + [Sample(log[n].sample.monotonicMs, log[n].result.motionDetected)]
      else Verdicts(log[..n])
  }

  lemma OpsObligations(u: Setup, log: seq<Entry>)
    requires ValidSetup(u) && WellFed(u, log)
    ensures ChainObligations(u.sizeMax, Chain(u), Ops(log))
  {
    if log != [] {
      OpsObligations(u, log[..|log| - 1]);
    }
  }

  lemma ResetSnoc(u: Setup, ops: seq<ChainOp>)
    requires ValidSetup(u) && ChainObligations(u.sizeMax, Chain(u), ops)
    ensures var ops', c := ops + [ResetBaselineOp], Chain(u);
            && ChainObligations(u.sizeMax, c, ops')
            && RunChain(u.sizeMax, c, ops') == WithoutBaseline(RunChain(u.sizeMax, c, ops))
            && GateSamples(u.sizeMax, c, ops') == GateSamples(u.sizeMax, c, ops)
            && Attempts(u.sizeMax, c, ops') == Attempts(u.sizeMax, c, ops)
  {
    assert (ops + [ResetBaselineOp])[..|ops|] == ops;
  }

  lemma FeedSnoc(u: Setup, ops: seq<ChainOp>, s: JpegSample, w: World)
    requires ValidSetup(u) && ChainObligations(u.sizeMax, Chain(u), ops)
    requires SampleIsValid(s) && DecoderContract(u.sizeMax, w.decoded)
    ensures var ops', c := ops + [Feed(s, w)], Chain(u);
            && ChainObligations(u.sizeMax, c, ops')
            && var o := PipelineStep(u.sizeMax, RunChain(u.sizeMax, c, ops), c, s, w);
               && RunChain(u.sizeMax, c, ops') == o.state
               && GateSamples(u.sizeMax, c, ops') == GateSamples(u.sizeMax, c, ops)
                    + if Judged(o.status) then [Sample(s.monotonicMs, o.result.motionDetected)] else []
  {
    assert (ops + [Feed(s, w)])[..|ops|] == ops;
  }

  /** The worker's pipeline is where its calls bring it, and the gate saw the verdicts. */
  lemma {:induction false} LogIsChain(u: Setup, log: seq<Entry>)
    requires ValidSetup(u) && WellFed(u, log) && Truthful(u, log)
    ensures ChainObligations(u.sizeMax, Chain(u), Ops(log))
    ensures RunChain(u.sizeMax, Chain(u), Ops(log)) == Replay(u, log).pipeline
    ensures GateSamples(u.sizeMax, Chain(u), Ops(log)) == Verdicts(log)
  {
    OpsObligations(u, log);
    if log != [] {
      var n := |log| - 1;
      var prefix, e := log[..n], log[n];
      TruthfulPrefix(u, log, n);
      LogIsChain(u, prefix);
      BaselineOrigin(u, prefix);
      ResetSnoc(u, Ops(prefix));
      if e.Sampled? {
        var entered := if e.generation == LastGeneration(prefix) then Ops(prefix) else Ops(prefix) + [ResetBaselineOp];
        FeedSnoc(u, entered, e.sample, e.world);
      }
    }
  }

  /** The place of pass i among the judged ones. */
  function Rank(log: seq<Entry>, i: nat): nat
    requires i <= |log|
  {
    |Verdicts(log[..i])|
  }

  lemma {:induction false} VerdictAt(log: seq<Entry>, i: nat)
    requires i < |log| && IsJudged(log[i])
    ensures Rank(log, i) < |Verdicts(log)|
    ensures Verdicts(log)[Rank(log, i)] == Sample(log[i].sample.monotonicMs, log[i].result.motionDetected)
  {
    var n := |log| - 1;
    if i == n {
    } else {
      VerdictAt(log[..n], i);
      assert log[..n][..i] == log[..i];
    }
  }

  lemma {:induction false} RankGrows(log: seq<Entry>, i: nat, j: nat)
    requires i < j < |log| && IsJudged(log[i])
    ensures Rank(log, i) < Rank(log, j)
  {
    VerdictAt(log[..j], i);
    assert log[..j][..i] == log[..i];
  }

  /** Position r of the verdicts belongs to some judged pass. */
  lemma {:induction false} PassOfRank(log: seq<Entry>, r: nat) returns (i: nat)
    requires r < |Verdicts(log)|
    ensures i < |log| && IsJudged(log[i]) && Rank(log, i) == r
  {
    var n := |log| - 1;
    if IsJudged(log[n]) && r == |Verdicts(log[..n])| {
      i := n;
    } else {
      i := PassOfRank(log[..n], r);
      assert log[..n][..i] == log[..i];
    }
  }

  lemma {:induction false} EmitsIsLocal(g: Gate, samples: seq<Sample>, more: seq<Sample>, cooldown: Uint64)
    ensures |Emits(g, samples + more, cooldown)| >= |samples|
    ensures Emits(g, samples + more, cooldown)[..|samples|] == Emits(g, samples, cooldown)
    decreases |more|
  {
    if more == [] {
      assert samples + more == samples;
    } else {
      var front, last := more[..|more| - 1], more[|more| - 1];
      EmitsIsLocal(g, samples, front, cooldown);
      RunSnoc(g, samples + front, last, cooldown);
      assert samples + more == (samples + front) + [last];
    }
  }

  lemma {:induction false} VerdictsGrow(log: seq<Entry>, n: nat)
    requires n <= |log|
    ensures exists more :: Verdicts(log) == Verdicts(log[..n]) + more
  {
    if n == |log| {
      assert log[..n] == log;
      assert Verdicts(log) == Verdicts(log[..n]) + [];
    } else {
      var m := |log| - 1;
      VerdictsGrow(log[..m], n);
      assert log[..m][..n] == log[..n];
      var more :| Verdicts(log[..m]) == Verdicts(log[..n]) + more;
      if IsJudged(log[m]) {
        var last := Sample(log[m].sample.monotonicMs, log[m].result.motionDetected);
        assert Verdicts(log) == Verdicts(log[..n]) + (more + [last]);
      }
    }
  }

  lemma RanksOrder(log: seq<Entry>, i: nat, j: nat)
    requires i < |log| && j < |log| && IsJudged(log[i]) && IsJudged(log[j])
    ensures i < j <==> Rank(log, i) < Rank(log, j)
  {
    if i < j { RankGrows(log, i, j); }
    if j < i { RankGrows(log, j, i); }
  }

  /** The events of the log are the gate's emissions over the verdicts. */
  lemma EventAt(u: Setup, log: seq<Entry>, i: nat)
    requires ValidSetup(u) && WellFed(u, log) && Truthful(u, log)
    requires i < |log| && IsJudged(log[i])
    ensures Rank(log, i) < |Verdicts(log)|
    ensures Emits(RESET_GATE, Verdicts(log), Chain(u).cooldownMs)[Rank(log, i)] == log[i].result.eventEmitted
  {
    VerdictAt(log, i);
    var before := Verdicts(log[..i]);
    var x := Sample(log[i].sample.monotonicMs, log[i].result.motionDetected);
    assert Verdicts(log[..i + 1]) == before + [x] by {
      assert log[..i + 1][..i] == log[..i];
    }
    VerdictsGrow(log, i + 1);
    var more :| Verdicts(log) == before + [x] + more;
    EventAtEnd(u, log, i);
    FlagInside(before, x, more, Chain(u).cooldownMs, log[i].result.eventEmitted);
  }

  lemma FlagInside(before: seq<Sample>, x: Sample, more: seq<Sample>, cooldown: Uint64, flag: bool)
    requires Emits(RESET_GATE, before + [x], cooldown) == Emits(RESET_GATE, before, cooldown) + [flag]
    ensures Emits(RESET_GATE, before + [x] + more, cooldown)[|before|] == flag
  {
    EmitsIsLocal(RESET_GATE, before + [x], more, cooldown);
    var all := Emits(RESET_GATE, before + [x] + more, cooldown);
    assert all[|before|] == all[..|before| + 1][|before|];
  }

  lemma EventAtEnd(u: Setup, log: seq<Entry>, i: nat)
    requires ValidSetup(u) && WellFed(u, log) && Truthful(u, log)
    requires i < |log| && IsJudged(log[i])
    ensures Emits(RESET_GATE,
                  Verdicts(log[..i]) + [Sample(log[i].sample.monotonicMs, log[i].result.motionDetected)],
                  Chain(u).cooldownMs)
         == Emits(RESET_GATE, Verdicts(log[..i]), Chain(u).cooldownMs) + [log[i].result.eventEmitted]
  {
    var c, prefix := Chain(u), log[..i];
    TruthfulPrefix(u, log, i);
    LogIsChain(u, prefix);
    ChainRun(u.sizeMax, c, Ops(prefix));
    BaselineOrigin(u, prefix);
    var p := Enter(Replay(u, prefix), log[i].generation).pipeline;
    assert p.gate == GateAfter(RESET_GATE, Verdicts(prefix), c.cooldownMs);
    StepIntoRun(u.sizeMax, p, c, log[i].sample, log[i].world);
    var x := Sample(log[i].sample.monotonicMs, log[i].result.motionDetected);
    RunSnoc(RESET_GATE, Verdicts(prefix), x, c.cooldownMs);
  }

  /**
   Between two events, the first at time t, some judged pass was stamped
   t + cooldown or later, whatever the clock did and however often the baseline
   was reset in between.
   */
  lemma LogIsRateLimited(u: Setup, log: seq<Entry>, i: nat, j: nat) returns (k: nat)
    requires ValidSetup(u) && WellFed(u, log) && Truthful(u, log)
    requires i < j < |log| && IsJudged(log[i]) && IsJudged(log[j])
    requires log[i].result.eventEmitted && log[j].result.eventEmitted
    ensures i < k <= j && IsJudged(log[k])
    ensures log[k].sample.monotonicMs >= log[i].sample.monotonicMs + Chain(u).cooldownMs
  {
    EventAt(u, log, i);
    EventAt(u, log, j);
    VerdictAt(log, i);
    RanksOrder(log, i, j);
    var r := EventsAreRateLimited(RESET_GATE, Verdicts(log), Chain(u).cooldownMs, Rank(log, i), Rank(log, j));
    k := PassOfRank(log, r);
    VerdictAt(log, k);
    RanksOrder(log, i, k);
    RanksOrder(log, j, k);
  }

  // ------------------------------------------------------------ rate and health

  function JudgedIn(log: seq<Entry>): (n: nat)
    ensures n <= |log|
  {
    if log == [] then 0 else JudgedIn(log[..|log| - 1]) + if IsJudged(log[|log| - 1]) then 1 else 0
  }

  /** Where the current session's passes begin: after the last lapse, refusal or change of generation. */
  function SessionStart(log: seq<Entry>): (n: nat)
    ensures n <= |log|
  {
    if log == [] then 0
    else
      var m := |log| - 1;
      match log[m]
      case Lapsed => |log|
      case Refused(_) => |log|
      case Failed => SessionStart(log[..m])
      case Sampled(_, g, _, _, _, _) => if g == LastGeneration(log[..m]) then SessionStart(log[..m]) else m
  }

  /** From there on nothing was forgotten and no other generation was sampled. */
  lemma {:induction false} SessionIsUnbroken(log: seq<Entry>)
    ensures forall k :: SessionStart(log) <= k < |log| ==>
              log[k].Failed? || (log[k].Sampled? && log[k].generation == LastGeneration(log))
    ensures var n := SessionStart(log);
            n > 0 ==> log[n - 1].Lapsed? || log[n - 1].Refused?
                      || (n < |log| && log[n].Sampled? && log[n].generation != LastGeneration(log[..n]))
  {
    if log != [] {
      var m := |log| - 1;
      SessionIsUnbroken(log[..m]);
      assert forall k :: 0 <= k < m ==> log[..m][k] == log[k];
      var n := SessionStart(log);
      if n < m {
        assert log[..m][..n] == log[..n];
      }
    }
  }

  predicate FirstJudged(log: seq<Entry>, start: nat, f: nat) {
    start <= f < |log| && IsJudged(log[f]) && forall k :: start <= k < f ==> !IsJudged(log[k])
  }

  lemma {:induction false} JudgedFrom(log: seq<Entry>, start: nat)
    requires start <= |log|
    ensures JudgedIn(log[start..]) > 0 <==> exists f: nat :: FirstJudged(log, start, f)
    decreases |log|
  {
    if start < |log| {
      var m := |log| - 1;
      assert log[start..][..m - start] == log[..m][start..];
      JudgedFrom(log[..m], start);
      assert forall k :: 0 <= k < m ==> log[..m][k] == log[k];
      if f: nat :| FirstJudged(log[..m], start, f) {
        assert FirstJudged(log, start, f);
      } else if IsJudged(log[m]) {
        assert forall k :: start <= k < m ==> !IsJudged(log[k]) by { NoneJudged(log[..m], start); }
        assert FirstJudged(log, start, m);
      }
      if f: nat :| FirstJudged(log, start, f) {
        if f < m { assert FirstJudged(log[..m], start, f); }
      }
    }
  }

  lemma {:induction false} NoneJudged(log: seq<Entry>, start: nat)
    requires start <= |log| && forall f: nat :: !FirstJudged(log, start, f)
    ensures forall k :: start <= k < |log| ==> !IsJudged(log[k])
    decreases |log|
  {
    if start < |log| {
      var m := |log| - 1;
      assert forall k :: 0 <= k < m ==> log[..m][k] == log[k];
      forall f: nat ensures !FirstJudged(log[..m], start, f) {
        assert !FirstJudged(log, start, f);
      }
      NoneJudged(log[..m], start);
      assert !FirstJudged(log, start, m);
    }
  }

  /** The rate counts the judged passes from `start` on, and started at the first of them. */
  ghost predicate RateFrom(log: seq<Entry>, start: nat, r: Rate)
    requires start <= |log|
  {
    && r.samples == JudgedIn(log[start..])
    && (r.samples > 0 ==> exists f: nat :: FirstJudged(log, start, f) && log[f].timeNs == r.startedNs)
  }

  lemma JudgedSnoc(log: seq<Entry>, e: Entry, start: nat)
    requires start <= |log|
    ensures JudgedIn((log + [e])[start..]) == JudgedIn(log[start..]) + if IsJudged(e) then 1 else 0
  {
    assert (log + [e])[start..] == log[start..] + [e];
    assert (log[start..] + [e])[..|log| - start] == log[start..];
  }

  /** A judged pass adds itself, any other leaves the count alone. */
  lemma RateGrows(log: seq<Entry>, e: Entry, start: nat, r: Rate)
    requires start <= |log| && RateFrom(log, start, r)
    ensures IsJudged(e) ==> RateFrom(log + [e], start, Observed(r, e.timeNs))
    ensures !IsJudged(e) ==> RateFrom(log + [e], start, r)
  {
    var all, n := log + [e], |log|;
    JudgedSnoc(log, e, start);
    if r.samples > 0 {
      var f: nat :| FirstJudged(log, start, f) && log[f].timeNs == r.startedNs;
      assert FirstJudged(all, start, f) && all[f] == log[f];
    } else if IsJudged(e) {
      NoneJudgedIn(log, start);
      assert FirstJudged(all, start, n) && all[n] == e;
    }
  }

  lemma SessionStartSnoc(log: seq<Entry>, e: Entry)
    ensures SessionStart(log + [e])
         == match e
            case Lapsed => |log| + 1
            case Refused(_) => |log| + 1
            case Failed => SessionStart(log)
            case Sampled(_, g, _, _, _, _) => if g == LastGeneration(log) then SessionStart(log) else |log|
  {
    assert (log + [e])[..|log|] == log;
  }

  lemma RateStep(u: Setup, log: seq<Entry>, e: Entry)
    requires ValidSetup(u) && WellFed(u, log) && RateFrom(log, SessionStart(log), Replay(u, log).rate)
    requires Replay(u, log).lastGeneration == LastGeneration(log)
    requires e.Sampled? ==> DecoderContract(u.sizeMax, e.world.decoded)
    requires e.Sampled? ==> e.status == Answer(u, Replay(u, log), e).status
    ensures RateFrom(log + [e], SessionStart(log + [e]), Remember(u, Replay(u, log), e).rate)
  {
    var m, all := Replay(u, log), log + [e];
    SessionStartSnoc(log, e);
    if e.Lapsed? || e.Refused? {
      assert all[|all|..] == [];
    } else if e.Sampled? && e.generation != m.lastGeneration {
      assert log[|log|..] == [];
      RateGrows(log, e, |log|, NO_RATE);
    } else {
      RateGrows(log, e, SessionStart(log), m.rate);
    }
  }

  /** The sample rate counts exactly the judged passes of the session, from the time of its first one on. */
  lemma {:induction false} RateStart(u: Setup, log: seq<Entry>)
    requires ValidSetup(u) && WellFed(u, log) && Truthful(u, log)
    ensures RateFrom(log, SessionStart(log), Replay(u, log).rate)
  {
    if log != [] {
      var n := |log| - 1;
      TruthfulPrefix(u, log, n);
      RateStart(u, log[..n]);
      BaselineOrigin(u, log[..n]);
      RateStep(u, log[..n], log[n]);
      assert log == log[..n] + [log[n]];
    }
  }

  lemma NoneJudgedIn(log: seq<Entry>, start: nat)
    requires start <= |log| && JudgedIn(log[start..]) == 0
    ensures forall k :: start <= k < |log| ==> !IsJudged(log[k])
  {
    JudgedFrom(log, start);
    NoneJudged(log, start);
  }

  lemma {:induction false} JudgedAfterFirst(log: seq<Entry>, start: nat, f: nat)
    requires FirstJudged(log, start, f)
    ensures JudgedIn(log[start..]) <= |log| - f
    decreases |log|
  {
    var m := |log| - 1;
    assert log[start..][..m - start] == log[..m][start..];
    assert forall k :: 0 <= k < m ==> log[..m][k] == log[k];
    if f < m {
      assert FirstJudged(log[..m], start, f);
      JudgedAfterFirst(log[..m], start, f);
    } else {
      JudgedFrom(log[..m], start);
    }
  }

  /** Whether the most recent append of an event failed; false before the first. */
  function LastAppendFailed(log: seq<Entry>): bool {
    if log == [] then false
    else
      var e := log[|log| - 1];
      if e.Sampled? && e.result.eventEmitted then e.status == PipelineEventLogError
      else LastAppendFailed(log[..|log| - 1])
  }
}
