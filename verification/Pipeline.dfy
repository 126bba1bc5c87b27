/**
 The motion pipeline (app/daemon/motion_pipeline.c): decode, compare, gate, log.

 The JPEG decoder is known by its contract only: it fails, or yields a padded-free
 image with positive dimensions.
 */
module Pipeline {
  import opened CTypes
  import opened Detector
  import opened EventGate
  import opened EventLog

  datatype PipelineStatus =
    | PipelineOk
    | PipelineInvalidArgument
    | PipelineDecodeError
    | PipelineDetectorError
    | PipelineGateError
    | PipelineEventLogError

  datatype PipelineConfig = PipelineConfig(scaleDenom: nat, thresholds: Thresholds, cooldownMs: Uint64,
                                           eventLogPath: string)

  datatype JpegSample = JpegSample(jpeg: seq<Byte>, sequence: Uint64, monotonicMs: Uint64, realtimeMs: Uint64)

  datatype PipelineResult = PipelineResult(
    sequence: Uint64, changedPixels: nat, totalPixels: nat, score: real, baselineCreated: bool, motionDetected: bool,
    eventEmitted: bool, eventLogged: bool, phase: int, eventCount: Uint64, cooldownRemainingMs: Uint64)

  const EMPTY_RESULT := PipelineResult(0, 0, 0, 0.0, false, false, false, false, IDLE, 0, 0)

  datatype Decoded = DecodeFails | Decodes(image: Gray)

  /** The decoder's contract, for a target whose size_t reaches `sizeMax`. */
  predicate DecoderContract(sizeMax: nat, d: Decoded) {
    d.Decodes? ==>
      0 < d.image.width <= sizeMax && 0 < d.image.height
      && |d.image.pixels| == d.image.width * d.image.height <= sizeMax
  }

  predicate ScaleIsValid(denom: nat) {
    denom == 1 || denom == 2 || denom == 4 || denom == 8
  }

  predicate ConfigIsValid(c: PipelineConfig) {
    ScaleIsValid(c.scaleDenom) && ThresholdsValid(c.thresholds) && c.cooldownMs > 0 && c.eventLogPath != ""
  }

  predicate SampleIsValid(s: JpegSample) {
    |s.jpeg| > 0
  }

  /** Everything outside the program's control during one call. */
  datatype World = World(decoded: Decoded, memory: bool, io: AppendIo)

  datatype PipelineState = PipelineState(detector: DetectorState, gate: Gate, log: string)

  datatype PipelineOutcome = PipelineOutcome(status: PipelineStatus, state: PipelineState, result: PipelineResult)

  predicate BaselineWellSized(d: DetectorState) {
    d.baseline.Some? ==> |d.baseline.value.pixels| == d.baseline.value.width * d.baseline.value.height
  }

  function ResultOf(s: JpegSample, m: MotionResult, d: Decision): PipelineResult {
    PipelineResult(s.sequence, m.changedPixels, m.totalPixels, m.changedRatio, m.baselineCreated, m.motionDetected,
                   d.eventEmitted, false, d.phase, d.eventCount, d.cooldownRemainingMs)
  }

  function MakeEventRecord(c: PipelineConfig, s: JpegSample, r: PipelineResult): MotionEventRecord
    requires r.changedPixels <= UINT64_MAX && r.totalPixels <= UINT64_MAX
  {
    MotionEventRecord(s.realtimeMs, s.sequence, r.score, c.thresholds.changedRatio,
                      r.changedPixels, r.totalPixels, c.cooldownMs)
  }

  function DecodedCall(image: Gray, t: Thresholds, memory: bool): Call {
    Call(image.pixels, image.width, image.height, image.width, t, memory)
  }

  lemma DecodedObligations(sizeMax: nat, d: Decoded, t: Thresholds, memory: bool)
    requires DecoderContract(sizeMax, d) && d.Decodes?
    ensures CallerObligations(sizeMax, DecodedCall(d.image, t, memory))
    ensures ValidateFrameLayout(sizeMax, d.image.width, d.image.height, d.image.width) == MotionOk
  {
    RowFits(d.image.height - 1, d.image.height, d.image.width);
    assert d.image.width * d.image.height == d.image.height * d.image.width;
  }

  lemma FrameOfDecoded(image: Gray, t: Thresholds, memory: bool)
    requires 0 < image.width && 0 < image.height && |image.pixels| == image.width * image.height
    ensures (image.height - 1) * image.width + image.width <= |image.pixels|
    ensures Frame(DecodedCall(image, t, memory)) == image
  {
    RowFits(image.height - 1, image.height, image.width);
    assert image.height * image.width == image.width * image.height;
    CompactIdentity(image.pixels, image.width, image.height);
    assert image.pixels[..image.height * image.width] == image.pixels;
  }

  /** Results of a detector call stay within size_t. */
  lemma CountsFit(sizeMax: nat, d: DetectorState, c: Call)
    requires CallerObligations(sizeMax, c) && BaselineWellSized(d)
    ensures var r := DetectorStep(sizeMax, d, c).result;
            r.changedPixels <= r.totalPixels <= sizeMax
    ensures BaselineWellSized(DetectorStep(sizeMax, d, c).state)
  {
    assert c.width * c.height == c.height * c.width;
  }

  function PipelineStep(sizeMax: nat, p: PipelineState, c: PipelineConfig, s: JpegSample, w: World): PipelineOutcome
    requires sizeMax <= UINT64_MAX && DecoderContract(sizeMax, w.decoded) && BaselineWellSized(p.detector)
  {
    if !ConfigIsValid(c) || !SampleIsValid(s) then PipelineOutcome(PipelineInvalidArgument, p, EMPTY_RESULT)
    else if w.decoded.DecodeFails? then PipelineOutcome(PipelineDecodeError, p, EMPTY_RESULT)
    else
      var call := DecodedCall(w.decoded.image, c.thresholds, w.memory);
      DecodedObligations(sizeMax, w.decoded, c.thresholds, w.memory);
      CountsFit(sizeMax, p.detector, call);
      var d := DetectorStep(sizeMax, p.detector, call);
      var detected := p.(detector := d.state);
      if d.status != MotionOk then PipelineOutcome(PipelineDetectorError, detected, EMPTY_RESULT)
      else
        var g := GateStep(p.gate, if d.result.motionDetected then 1 else 0, s.monotonicMs, c.cooldownMs);
        if g.status != GateOk then PipelineOutcome(PipelineGateError, detected.(gate := g.gate), EMPTY_RESULT)
        else
          var r := ResultOf(s, d.result, g.decision);
          if !g.decision.eventEmitted then PipelineOutcome(PipelineOk, detected.(gate := g.gate), r)
          else
            var a := AppendStep(c.eventLogPath, MakeEventRecord(c, s, r), w.io);
            var next := PipelineState(d.state, g.gate, p.log + a.written);
            if a.status != LogOk then PipelineOutcome(PipelineEventLogError, next, r)
            else PipelineOutcome(PipelineOk, next, r.(eventLogged := true))
  }

  /** What decides how a call ends, in the order in which the tests are made. */
  lemma StepStatus(sizeMax: nat, p: PipelineState, c: PipelineConfig, s: JpegSample, w: World)
    requires sizeMax <= UINT64_MAX && DecoderContract(sizeMax, w.decoded) && BaselineWellSized(p.detector)
    ensures var o, t := PipelineStep(sizeMax, p, c, s, w), c.thresholds;
            if c.scaleDenom !in {1, 2, 4, 8} || t.pixelDelta < 1 || t.pixelDelta > 255
               || t.changedRatio <= 0.0 || t.changedRatio > 1.0
               || c.cooldownMs == 0 || c.eventLogPath == "" || s.jpeg == [] then
              o == PipelineOutcome(PipelineInvalidArgument, p, EMPTY_RESULT)
            else if w.decoded.DecodeFails? then o == PipelineOutcome(PipelineDecodeError, p, EMPTY_RESULT)
            else if p.detector.capacity < |w.decoded.image.pixels| && !w.memory then
              o == PipelineOutcome(PipelineDetectorError, p, EMPTY_RESULT)
            else
              && o.state.detector.baseline == Some(w.decoded.image)
              && (o.status == PipelineGateError <==> p.gate.phase != 0 && p.gate.phase != 1)
              && (o.status != PipelineGateError ==> o.status == PipelineOk || o.status == PipelineEventLogError)
  {
    if ConfigIsValid(c) && SampleIsValid(s) && w.decoded.Decodes? {
      DecodedObligations(sizeMax, w.decoded, c.thresholds, w.memory);
      FrameOfDecoded(w.decoded.image, c.thresholds, w.memory);
    }
  }

  class MotionPipeline {
    const sizeMax: nat
    const detector: MotionDetector
    const gate: MotionEventGate
    const log: LogFile
    var grayPixels: array<Byte>
    var grayWidth: nat
    var grayHeight: nat
    var grayStride: nat

    ghost predicate Valid()
      reads this, detector
    {
      && sizeMax == detector.sizeMax <= UINT64_MAX
      && detector.Valid()
      && grayPixels != detector.previousPixels
    }

    ghost function View(): (p: PipelineState)
      requires Valid()
      reads this, detector, detector.previousPixels, gate, log
      ensures BaselineWellSized(p.detector)
    {
      PipelineState(detector.View(), gate.View(), log.text)
    }

    constructor (sizeMax: nat)
      requires sizeMax <= UINT64_MAX
      ensures Valid() && this.sizeMax == sizeMax && View() == PipelineState(ZERO_DETECTOR, RESET_GATE, "")
      ensures fresh(detector) && fresh(detector.previousPixels) && fresh(gate) && fresh(log)
    {
      this.sizeMax := sizeMax;
      detector := new MotionDetector(sizeMax);
      gate := new MotionEventGate();
      log := new LogFile();
      grayPixels := new Byte[0];
      grayWidth, grayHeight, grayStride := 0, 0, 0;
    }

    /** jpeg_gray_decode, as its contract describes it. */
    method JpegGrayDecode(decoded: Decoded) returns (ok: bool)
      requires Valid() && DecoderContract(sizeMax, decoded)
      modifies this
      ensures Valid() && ok == decoded.Decodes?
      ensures ok ==> grayPixels[..] == decoded.image.pixels && grayWidth == grayStride == decoded.image.width
                     && grayHeight == decoded.image.height
      ensures !ok ==> grayWidth == old(grayWidth) && grayHeight == old(grayHeight) && grayStride == old(grayStride)
    {
      if decoded.DecodeFails? {
        return false;
      }
      var pixels := decoded.image.pixels;
      var target := new Byte[|pixels|];
      forall i | 0 <= i < |pixels| {
        target[i] := pixels[i];
      }
      grayPixels := target;
      grayWidth, grayHeight, grayStride := decoded.image.width, decoded.image.height, decoded.image.width;
      return true;
    }

    method ProcessJpeg(c: PipelineConfig, s: JpegSample, w: World)
      returns (status: PipelineStatus, result: PipelineResult)
      requires Valid() && DecoderContract(sizeMax, w.decoded)
      modifies this, detector, detector.previousPixels, gate, log
      ensures Valid() && (detector.previousPixels == old(detector.previousPixels) || fresh(detector.previousPixels))
      ensures PipelineOutcome(status, View(), result) == PipelineStep(sizeMax, old(View()), c, s, w)
    {
      result := EMPTY_RESULT;
      if !ConfigIsValid(c) || !SampleIsValid(s) {
        return PipelineInvalidArgument, result;
      }
      var decoded := JpegGrayDecode(w.decoded);
      if !decoded {
        return PipelineDecodeError, result;
      }
      DecodedObligations(sizeMax, w.decoded, c.thresholds, w.memory);
      CountsFit(sizeMax, detector.View(), DecodedCall(w.decoded.image, c.thresholds, w.memory));
      var detectorStatus, motion :=
        detector.Process(grayPixels, grayWidth, grayHeight, grayStride, c.thresholds, w.memory);
      if detectorStatus != MotionOk {
        return PipelineDetectorError, result;
      }
      var gateStatus, decision := gate.Update(if motion.motionDetected then 1 else 0, s.monotonicMs, c.cooldownMs);
      if gateStatus != GateOk {
        return PipelineGateError, result;
      }
      result := ResultOf(s, motion, decision);
      if decision.eventEmitted {
        var event := MakeEventRecord(c, s, result);
        var logStatus := log.AppendMotion(c.eventLogPath, event, w.io);
        if logStatus != LogOk {
          return PipelineEventLogError, result;
        }
        result := result.(eventLogged := true);
      }
      return PipelineOk, result;
    }

    /** The next frame becomes a baseline; cooldown and event count stay. */
    method ResetBaseline()
      requires Valid()
      modifies detector
      ensures Valid() && detector.previousPixels == old(detector.previousPixels)
      ensures View() == old(View()).(detector := old(View()).detector.(baseline := None))
    {
      detector.Reset();
    }
  }

  // ------------------------------------------------------- one call, in general

  /**
   With valid arguments and a gate in one of its two phases, the only failures
   left are those of the world: decoding, memory, and opening, writing or
   closing the log.  Every event is a valid record with something changed.
   */
  lemma OnlyTheWorldFails(sizeMax: nat, p: PipelineState, c: PipelineConfig, s: JpegSample, w: World)
    requires sizeMax <= UINT64_MAX && DecoderContract(sizeMax, w.decoded) && BaselineWellSized(p.detector)
    requires ConfigIsValid(c) && SampleIsValid(s) && WellPhased(p.gate)
    ensures var o := PipelineStep(sizeMax, p, c, s, w);
            && o.status !in {PipelineInvalidArgument, PipelineGateError}
            && (o.status == PipelineDecodeError <==> w.decoded.DecodeFails?)
            && (o.status == PipelineDetectorError ==> !w.memory)
            && (o.result.eventEmitted ==>
                  && 0 < o.result.changedPixels <= o.result.totalPixels <= UINT64_MAX
                  && 0.0 < o.result.score <= 1.0
                  && o.result.motionDetected
                  && EventIsValid(MakeEventRecord(c, s, o.result))
                  && |Line(MakeEventRecord(c, s, o.result))| < LINE_CAPACITY
                  && o.state.log == p.log + AppendStep(c.eventLogPath, MakeEventRecord(c, s, o.result), w.io).written)
            && (o.status == PipelineEventLogError ==>
                  o.result.eventEmitted
                  && AppendStep(c.eventLogPath, MakeEventRecord(c, s, o.result), w.io).status
                     in {LogOpenError, LogWriteError, LogCloseError})
            && (!o.result.eventEmitted ==> o.state.log == p.log)
            && (o.status == PipelineOk ==> o.result.eventLogged == o.result.eventEmitted)
  {
    if w.decoded.Decodes? {
      var call := DecodedCall(w.decoded.image, c.thresholds, w.memory);
      DecodedObligations(sizeMax, w.decoded, c.thresholds, w.memory);
      CountsFit(sizeMax, p.detector, call);
      DetectorVerdict(sizeMax, p.detector, call);
      var o := PipelineStep(sizeMax, p, c, s, w);
      if o.result.eventEmitted {
        var e := MakeEventRecord(c, s, o.result);
        assert EventIsValid(e);
        LineFits(e);
      }
    }
  }

  /** A detector answer that reports motion counts at least one and at most all pixels. */
  lemma DetectorVerdict(sizeMax: nat, d: DetectorState, c: Call)
    requires CallerObligations(sizeMax, c) && BaselineWellSized(d)
    ensures var o := DetectorStep(sizeMax, d, c);
            && (o.result.motionDetected ==>
                  0 < o.result.changedPixels <= o.result.totalPixels && 0.0 < o.result.changedRatio <= 1.0)
            && (o.status == MotionOk ==> o.result.totalPixels > 0)
            && (o.status == MotionNoMemory ==> !c.memory)
  {
    var o := DetectorStep(sizeMax, d, c);
    if o.status == MotionOk {
      RowFits(0, c.height, c.width);
      assert c.width * c.height == c.height * c.width;
    }
  }

  // -------------------------------------------------------------- whole runs

  datatype ChainOp = ResetBaselineOp | Feed(sample: JpegSample, world: World)

  predicate ChainObligations(sizeMax: nat, c: PipelineConfig, ops: seq<ChainOp>) {
    && sizeMax <= UINT64_MAX && ConfigIsValid(c)
    && forall i :: 0 <= i < |ops| && ops[i].Feed? ==>
         SampleIsValid(ops[i].sample) && DecoderContract(sizeMax, ops[i].world.decoded)
  }

  const ZERO_PIPELINE := PipelineState(ZERO_DETECTOR, RESET_GATE, "")

  /** The pipeline's state after a run of calls, from the zero state. */
  function RunChain(sizeMax: nat, c: PipelineConfig, ops: seq<ChainOp>): (p: PipelineState)
    requires ChainObligations(sizeMax, c, ops)
    ensures BaselineWellSized(p.detector)
  {
    if ops == [] then ZERO_PIPELINE
    else
      var n := |ops| - 1;
      var p := RunChain(sizeMax, c, ops[..n]);
      match ops[n]
      case ResetBaselineOp => p.(detector := p.detector.(baseline := None))
      case Feed(s, w) =>
        StepKeepsSizes(sizeMax, p, c, s, w);
        PipelineStep(sizeMax, p, c, s, w).state
  }

  lemma StepKeepsSizes(sizeMax: nat, p: PipelineState, c: PipelineConfig, s: JpegSample, w: World)
    requires sizeMax <= UINT64_MAX && DecoderContract(sizeMax, w.decoded) && BaselineWellSized(p.detector)
    ensures BaselineWellSized(PipelineStep(sizeMax, p, c, s, w).state.detector)
  {
    if w.decoded.Decodes? {
      DecodedObligations(sizeMax, w.decoded, c.thresholds, w.memory);
      CountsFit(sizeMax, p.detector, DecodedCall(w.decoded.image, c.thresholds, w.memory));
    }
  }

  /** The outcome of the last call, when that was a sample. */
  function LastFed(sizeMax: nat, c: PipelineConfig, ops: seq<ChainOp>): PipelineOutcome
    requires ChainObligations(sizeMax, c, ops) && ops != [] && ops[|ops| - 1].Feed?
  {
    var n := |ops| - 1;
    PipelineStep(sizeMax, RunChain(sizeMax, c, ops[..n]), c, ops[n].sample, ops[n].world)
  }

  /** A sample that got as far as the gate. */
  predicate Judged(status: PipelineStatus) {
    status == PipelineOk || status == PipelineEventLogError
  }

  /** What the gate saw: time and verdict of every sample that was decoded and compared. */
  function GateSamples(sizeMax: nat, c: PipelineConfig, ops: seq<ChainOp>): seq<Sample>
    requires ChainObligations(sizeMax, c, ops)
  {
    if ops == [] then []
    else
      var n := |ops| - 1;
      var before := GateSamples(sizeMax, c, ops[..n]);
      if ops[n].Feed? && Judged(LastFed(sizeMax, c, ops).status)
      then before + [Sample(ops[n].sample.monotonicMs, LastFed(sizeMax, c, ops).result.motionDetected)]
      else before
  }

  /** The appends a run makes. */
  function Attempts(sizeMax: nat, c: PipelineConfig, ops: seq<ChainOp>): seq<Attempt>
    requires ChainObligations(sizeMax, c, ops)
  {
    if ops == [] then []
    else
      var n := |ops| - 1;
      var before := Attempts(sizeMax, c, ops[..n]);
      if ops[n].Feed? && LastFed(sizeMax, c, ops).result.eventEmitted
                      && LastFed(sizeMax, c, ops).result.totalPixels <= UINT64_MAX
                      && LastFed(sizeMax, c, ops).result.changedPixels <= UINT64_MAX
      then before + [Attempt(MakeEventRecord(c, ops[n].sample, LastFed(sizeMax, c, ops).result), ops[n].world.io)]
      else before
  }

  lemma {:induction false} NewTextSnoc(path: string, attempts: seq<Attempt>, a: Attempt)
    ensures NewText(path, attempts + [a]) == NewText(path, attempts) + AppendStep(path, a.event, a.io).written
  {
    if attempts == [] {
      assert attempts + [a] == [a] && [a][1..] == [];
    } else {
      var written := AppendStep(path, a.event, a.io).written;
      NewTextSnoc(path, attempts[1..], a);
      assert (attempts + [a])[0] == attempts[0] && (attempts + [a])[1..] == attempts[1..] + [a];
      Joined(AppendStep(path, attempts[0].event, attempts[0].io).written, NewText(path, attempts[1..]), written);
    }
  }

  lemma {:induction false} CountTrueSnoc(flags: seq<bool>, b: bool)
    ensures CountTrue(flags + [b]) == CountTrue(flags) + if b then 1 else 0
  {
    if flags == [] {
      assert flags + [b] == [b] && [b][1..] == [];
    } else {
      CountTrueSnoc(flags[1..], b);
      assert (flags + [b])[1..] == flags[1..] + [b];
    }
  }

  /**
   A run of samples and baseline resets: the gate is exactly where its judged
   samples bring it, resets never show in it, and the log is exactly what the
   appends of the gate's events wrote, one append per event.
   */
  lemma {:induction false} ChainRun(sizeMax: nat, c: PipelineConfig, ops: seq<ChainOp>)
    requires ChainObligations(sizeMax, c, ops)
    ensures RunChain(sizeMax, c, ops).gate == GateAfter(RESET_GATE, GateSamples(sizeMax, c, ops), c.cooldownMs)
    ensures AllValid(Attempts(sizeMax, c, ops))
    ensures RunChain(sizeMax, c, ops).log == NewText(c.eventLogPath, Attempts(sizeMax, c, ops))
    ensures |Attempts(sizeMax, c, ops)| == CountTrue(Emits(RESET_GATE, GateSamples(sizeMax, c, ops), c.cooldownMs))
  {
    if ops != [] {
      var n := |ops| - 1;
      ChainRun(sizeMax, c, ops[..n]);
      if ops[n].Feed? {
        FedToGate(sizeMax, c, ops);
        FedToLog(sizeMax, c, ops);
      }
    }
  }

  /** One more sample, seen from the gate. */
  lemma FedToGate(sizeMax: nat, c: PipelineConfig, ops: seq<ChainOp>)
    requires ChainObligations(sizeMax, c, ops) && ops != [] && ops[|ops| - 1].Feed?
    requires var front := ops[..|ops| - 1];
             RunChain(sizeMax, c, front).gate == GateAfter(RESET_GATE, GateSamples(sizeMax, c, front), c.cooldownMs)
    ensures RunChain(sizeMax, c, ops).gate == GateAfter(RESET_GATE, GateSamples(sizeMax, c, ops), c.cooldownMs)
    ensures WellPhased(RunChain(sizeMax, c, ops[..|ops| - 1]).gate)
    ensures var before := GateSamples(sizeMax, c, ops[..|ops| - 1]);
            CountTrue(Emits(RESET_GATE, GateSamples(sizeMax, c, ops), c.cooldownMs))
            == CountTrue(Emits(RESET_GATE, before, c.cooldownMs))
               + if LastFed(sizeMax, c, ops).result.eventEmitted then 1 else 0
  {
    var n := |ops| - 1;
    var p, s, w := RunChain(sizeMax, c, ops[..n]), ops[n].sample, ops[n].world;
    var before := GateSamples(sizeMax, c, ops[..n]);
    CountsEvents(RESET_GATE, before, c.cooldownMs);
    StepIntoRun(sizeMax, p, c, s, w);
    var o := LastFed(sizeMax, c, ops);
    if Judged(o.status) {
      RunSnoc(RESET_GATE, before, Sample(s.monotonicMs, o.result.motionDetected), c.cooldownMs);
      CountTrueSnoc(Emits(RESET_GATE, before, c.cooldownMs), o.result.eventEmitted);
    }
  }

  /** And from the log. */
  lemma FedToLog(sizeMax: nat, c: PipelineConfig, ops: seq<ChainOp>)
    requires ChainObligations(sizeMax, c, ops) && ops != [] && ops[|ops| - 1].Feed?
    requires WellPhased(RunChain(sizeMax, c, ops[..|ops| - 1]).gate)
    requires var front := ops[..|ops| - 1];
             AllValid(Attempts(sizeMax, c, front))
             && RunChain(sizeMax, c, front).log == NewText(c.eventLogPath, Attempts(sizeMax, c, front))
    ensures AllValid(Attempts(sizeMax, c, ops))
    ensures RunChain(sizeMax, c, ops).log == NewText(c.eventLogPath, Attempts(sizeMax, c, ops))
    ensures |Attempts(sizeMax, c, ops)|
         == |Attempts(sizeMax, c, ops[..|ops| - 1])| + if LastFed(sizeMax, c, ops).result.eventEmitted then 1 else 0
  {
    var n := |ops| - 1;
    var p, s, w := RunChain(sizeMax, c, ops[..n]), ops[n].sample, ops[n].world;
    OnlyTheWorldFails(sizeMax, p, c, s, w);
    var o := LastFed(sizeMax, c, ops);
    if o.result.eventEmitted {
      NewTextSnoc(c.eventLogPath, Attempts(sizeMax, c, ops[..n]), Attempt(MakeEventRecord(c, s, o.result), w.io));
    }
  }

  /** One call, seen from the gate. */
  lemma StepIntoRun(sizeMax: nat, p: PipelineState, c: PipelineConfig, s: JpegSample, w: World)
    requires sizeMax <= UINT64_MAX && DecoderContract(sizeMax, w.decoded) && BaselineWellSized(p.detector)
    requires ConfigIsValid(c) && SampleIsValid(s) && WellPhased(p.gate)
    ensures var o := PipelineStep(sizeMax, p, c, s, w);
            if Judged(o.status) then
              var g := StepOn(p.gate, Sample(s.monotonicMs, o.result.motionDetected), c.cooldownMs);
              o.state.gate == g.gate && o.result.eventEmitted == g.decision.eventEmitted
              && o.result.eventCount == g.gate.eventCount
            else
              o.state.gate == p.gate && !o.result.eventEmitted && !o.result.motionDetected && o.state.log == p.log
  {
  }

  function Failures(path: string, attempts: seq<Attempt>): nat {
    if attempts == [] then 0
    else
      (if AppendStep(path, attempts[0].event, attempts[0].io).status == LogOk then 0 else 1)
      + Failures(path, attempts[1..])
  }

  lemma {:induction false} LoggedPlusFailed(path: string, attempts: seq<Attempt>)
    requires AllValid(attempts)
    ensures |Logged(path, attempts)| + Failures(path, attempts) == |attempts|
  {
    if attempts != [] {
      LoggedPlusFailed(path, attempts[1..]);
    }
  }

  /**
   Conservation, over every run with every pattern of failures and resets: the
   gate's events are the logged records plus the failed appends, and the log
   decodes to exactly the logged records unless an append tore a line.
   */
  lemma EventsAreConserved(sizeMax: nat, c: PipelineConfig, ops: seq<ChainOp>)
    requires ChainObligations(sizeMax, c, ops)
    ensures AllValid(Attempts(sizeMax, c, ops))
    ensures CountTrue(Emits(RESET_GATE, GateSamples(sizeMax, c, ops), c.cooldownMs))
         == |Logged(c.eventLogPath, Attempts(sizeMax, c, ops))| + Failures(c.eventLogPath, Attempts(sizeMax, c, ops))
    ensures DecodeLog(RunChain(sizeMax, c, ops).log) == Some(Logged(c.eventLogPath, Attempts(sizeMax, c, ops)))
        <==> NoneTorn(c.eventLogPath, Attempts(sizeMax, c, ops))
  {
    ChainRun(sizeMax, c, ops);
    LoggedPlusFailed(c.eventLogPath, Attempts(sizeMax, c, ops));
    DecodesExactly(c.eventLogPath, Attempts(sizeMax, c, ops));
  }
}
