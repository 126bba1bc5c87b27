/**
 The second implementation: the lab page's JavaScript (site/js/motion-math.js),
 which has to stay in step with the daemon's detector, gate and log line.

 The functions carry the JavaScript's branches; the lemmas hold them against the
 C chain, over whole runs.  A JavaScript number is an exact integer or real here.
 */
module LabModel {
  import opened CTypes
  import opened Detector
  import opened Doubles
  import opened EventGate
  import opened EventLog
  import opened Pipeline

  // ------------------------------------------------------------------- scoring

  /** changedRatio is None where the division yields NaN. */
  datatype LabScore = LabScore(baselineCreated: bool, changedPixels: nat, totalPixels: nat, changedRatio: Option<real>,
                               motionDetected: bool)

  /** Whether the loop counts position i; past the end of an array every comparison is false. */
  predicate PixelChanged(prev: seq<Byte>, curr: seq<Byte>, i: nat, delta: nat) {
    i < |prev| && i < |curr| && AbsDiff(curr[i], prev[i]) >= delta
  }

  function FlatCount(prev: seq<Byte>, curr: seq<Byte>, n: nat, delta: nat): (count: nat)
    ensures count <= n
  {
    if n == 0 then 0 else FlatCount(prev, curr, n - 1, delta) + if PixelChanged(prev, curr, n - 1, delta) then 1 else 0
  }

  /** JavaScript divides doubles, as C does. */
  function Ratio(changed: nat, total: nat): Option<real>
    requires changed <= total
  {
    if total == 0 then None else Some(Quotient(changed, total))
  }

  function ScoreOf(prev: Option<seq<Byte>>, curr: seq<Byte>, width: nat, height: nat, t: Thresholds): (r: LabScore)
    ensures r.motionDetected ==> r.changedRatio.Some? && r.totalPixels > 0
  {
    var total := width * height;
    match prev
    case None => LabScore(true, 0, total, Some(0.0), false)
    case Some(p) =>
      var changed := FlatCount(p, curr, total, t.pixelDelta);
      var ratio := Ratio(changed, total);
      LabScore(false, changed, total, ratio, ratio.Some? && ratio.value >= t.changedRatio)
  }

  /** scoreGrayFrames: one flat loop over both frames. */
  method ScoreGrayFrames(prev: Option<seq<Byte>>, curr: seq<Byte>, width: nat, height: nat, t: Thresholds)
    returns (r: LabScore)
    ensures r == ScoreOf(prev, curr, width, height, t)
  {
    var total := width * height;
    if prev == None {
      return LabScore(true, 0, total, Some(0.0), false);
    }
    var p := prev.value;
    var changed := 0;
    for i := 0 to total
      invariant changed == FlatCount(p, curr, i, t.pixelDelta)
    {
      if i < |p| && i < |curr| {
        var delta := if curr[i] > p[i] then curr[i] - p[i] else p[i] - curr[i];
        if delta >= t.pixelDelta {
          changed := changed + 1;
        }
      }
    }
    var changedRatio := Ratio(changed, total);
    return LabScore(false, changed, total, changedRatio, changedRatio.Some? && changedRatio.value >= t.changedRatio);
  }

  lemma {:induction false} FlatCountIsChangedCount(prev: seq<Byte>, curr: seq<Byte>, n: nat, delta: nat)
    requires n <= |prev| == |curr|
    ensures FlatCount(prev, curr, n, delta) == ChangedCount(prev[..n], curr[..n], delta)
  {
    if n > 0 {
      FlatCountIsChangedCount(prev, curr, n - 1, delta);
      assert prev[..n][..n - 1] == prev[..n - 1] && curr[..n][..n - 1] == curr[..n - 1];
    }
  }

  /** The baseline the lab is handed: the detector's, if it has the new frame's size. */
  function BaselineFor(baseline: Option<Gray>, width: nat, height: nat): Option<seq<Byte>> {
    match baseline
    case Some(b) => if b.width == width && b.height == height then Some(b.pixels) else None
    case None => None
  }

  /**
   The flat loop over two compact frames says what the C detector says about a
   strided image, whatever the padding of its rows.
   */
  lemma ScoresMirror(sizeMax: nat, d: DetectorState, c: Call)
    requires CallerObligations(sizeMax, c) && BaselineWellSized(d) && DetectorStep(sizeMax, d, c).status == MotionOk
    ensures 0 < c.width <= c.stride && c.height > 0
    ensures var r := DetectorStep(sizeMax, d, c).result;
            ScoreOf(BaselineFor(d.baseline, c.width, c.height), Frame(c).pixels, c.width, c.height, c.thresholds)
            == LabScore(r.baselineCreated, r.changedPixels, r.totalPixels, Some(r.changedRatio), r.motionDetected)
  {
    var curr := Frame(c).pixels;
    assert c.width * c.height == c.height * c.width;
    RowFits(0, c.height, c.width);
    match BaselineFor(d.baseline, c.width, c.height) {
      case None =>
      case Some(prev) =>
        FlatCountIsChangedCount(prev, curr, |curr|, c.thresholds.pixelDelta);
        assert prev[..|curr|] == prev && curr[..|curr|] == curr;
    }
  }

  // ---------------------------------------------------------------------- gate

  const IDLE_NAME := "idle"
  const COOLDOWN_NAME := "cooldown"

  datatype LabGate = LabGate(phase: string, cooldownStartedMs: real, eventCount: nat)

  const LAB_GATE := LabGate(IDLE_NAME, 0.0, 0)

  datatype LabDecision = LabDecision(gate: LabGate, eventEmitted: nat, phase: string, eventCount: nat,
                                     cooldownRemainingMs: real, counterfactual: bool)

  /** gateUpdate, with its branch for a cooldown of zero, which the C gate refuses. */
  function GateUpdate(gate: LabGate, motionDetected: bool, nowMs: real, cooldownMs: real): (d: LabDecision)
    ensures d.eventEmitted == 1 ==> motionDetected
  {
    var started := LabGate(COOLDOWN_NAME, nowMs, gate.eventCount + 1);
    if cooldownMs == 0.0 then
      var next := if motionDetected then gate.(eventCount := gate.eventCount + 1) else gate;
      LabDecision(next, if motionDetected then 1 else 0, IDLE_NAME, next.eventCount, 0.0, true)
    else if gate.phase == IDLE_NAME then
      if motionDetected then LabDecision(started, 1, started.phase, started.eventCount, cooldownMs, false)
      else LabDecision(gate, 0, gate.phase, gate.eventCount, 0.0, false)
    else if nowMs < gate.cooldownStartedMs then
      LabDecision(gate, 0, gate.phase, gate.eventCount, cooldownMs, false)
    else if nowMs - gate.cooldownStartedMs < cooldownMs then
      LabDecision(gate, 0, gate.phase, gate.eventCount, cooldownMs - (nowMs - gate.cooldownStartedMs), false)
    else if motionDetected then
      LabDecision(started, 1, started.phase, started.eventCount, cooldownMs, false)
    else
      LabDecision(gate.(phase := IDLE_NAME), 0, IDLE_NAME, gate.eventCount, 0.0, false)
  }

  predicate PhaseNamed(phase: int, name: string) {
    (phase == IDLE && name == IDLE_NAME) || (phase == COOLDOWN && name == COOLDOWN_NAME)
  }

  /** One gate in C, one in JavaScript; only the C counter stops at its maximum. */
  predicate Mirrors(c: Gate, j: LabGate) {
    PhaseNamed(c.phase, j.phase) && c.cooldownStartedMs as real == j.cooldownStartedMs
    && c.eventCount == Saturated(j.eventCount)
  }

  lemma NamesDiffer()
    ensures IDLE_NAME != COOLDOWN_NAME
  {
    assert |IDLE_NAME| != |COOLDOWN_NAME|;
  }

  lemma GateStepMirrors(g: Gate, j: LabGate, s: Sample, cooldown: Uint64)
    requires Mirrors(g, j) && cooldown > 0
    ensures var o := StepOn(g, s, cooldown);
            var d := GateUpdate(j, s.motion, s.timeMs as real, cooldown as real);
            && o.status == GateOk && Mirrors(o.gate, d.gate) && !d.counterfactual && d.phase == d.gate.phase
            && d.eventEmitted == (if o.decision.eventEmitted then 1 else 0)
            && PhaseNamed(o.decision.phase, d.phase)
            && o.decision.eventCount == Saturated(d.eventCount)
            && o.decision.cooldownRemainingMs as real == d.cooldownRemainingMs
  {
    NamesDiffer();
  }

  function LabGateAfter(j: LabGate, samples: seq<Sample>, cooldown: Uint64): LabGate
    decreases samples
  {
    if samples == [] then j
    else
      var d := GateUpdate(j, samples[0].motion, samples[0].timeMs as real, cooldown as real);
      LabGateAfter(d.gate, samples[1..], cooldown)
  }

  function LabEmits(j: LabGate, samples: seq<Sample>, cooldown: Uint64): (flags: seq<bool>)
    ensures |flags| == |samples|
    decreases samples
  {
    if samples == [] then []
    else
      var d := GateUpdate(j, samples[0].motion, samples[0].timeMs as real, cooldown as real);
      [d.eventEmitted == 1] + LabEmits(d.gate, samples[1..], cooldown)
  }

  /** Over every run and every clock the two gates emit at the same samples and stay equal. */
  lemma {:induction false} GateRunsMirror(g: Gate, j: LabGate, samples: seq<Sample>, cooldown: Uint64)
    requires Mirrors(g, j) && cooldown > 0
    ensures Mirrors(GateAfter(g, samples, cooldown), LabGateAfter(j, samples, cooldown))
    ensures Emits(g, samples, cooldown) == LabEmits(j, samples, cooldown)
    decreases samples
  {
    if samples != [] {
      GateStepMirrors(g, j, samples[0], cooldown);
      GateRunsMirror(StepOn(g, samples[0], cooldown).gate,
                     GateUpdate(j, samples[0].motion, samples[0].timeMs as real, cooldown as real).gate,
                     samples[1..], cooldown);
    }
  }

  /** The lab's counter counts its events, without a ceiling. */
  lemma {:induction false} LabCounts(j: LabGate, samples: seq<Sample>, cooldown: Uint64)
    ensures LabGateAfter(j, samples, cooldown).eventCount == j.eventCount + CountTrue(LabEmits(j, samples, cooldown))
    decreases samples
  {
    if samples != [] {
      var d := GateUpdate(j, samples[0].motion, samples[0].timeMs as real, cooldown as real);
      LabCounts(d.gate, samples[1..], cooldown);
    }
  }

  /** From the reset gates, the two counters agree exactly as long as the events fit 64 bits. */
  lemma CountersAgreeIff(samples: seq<Sample>, cooldown: Uint64)
    requires cooldown > 0
    ensures GateAfter(RESET_GATE, samples, cooldown).eventCount == LabGateAfter(LAB_GATE, samples, cooldown).eventCount
        <==> CountTrue(Emits(RESET_GATE, samples, cooldown)) <= UINT64_MAX
  {
    GateRunsMirror(RESET_GATE, LAB_GATE, samples, cooldown);
    LabCounts(LAB_GATE, samples, cooldown);
  }

  function CountMotion(samples: seq<Sample>): nat {
    if samples == [] then 0 else (if samples[0].motion then 1 else 0) + CountMotion(samples[1..])
  }

  /** Without a cooldown the lab counts every motion sample; the C gate refuses each and keeps its state. */
  lemma {:induction false} ZeroCooldownDiverges(g: Gate, j: LabGate, samples: seq<Sample>)
    ensures LabGateAfter(j, samples, 0) == j.(eventCount := j.eventCount + CountMotion(samples))
    ensures GateAfter(g, samples, 0) == g
    decreases samples
  {
    if samples != [] {
      ZeroCooldownDiverges(StepOn(g, samples[0], 0).gate,
                           GateUpdate(j, samples[0].motion, samples[0].timeMs as real, 0.0).gate, samples[1..]);
    }
  }

  // ------------------------------------------------------------------ log line

  datatype LabRecord = LabRecord(tsMs: nat, sequence: nat, score: real, threshold: real,
                                 changedPixels: nat, totalPixels: nat, cooldownMs: nat)

  /** Millionths of x as toFixed(6) takes them: ties go up. */
  function RoundedUp(x: real): nat
    requires x >= 0.0
  {
    (x * 1000000.0 + 0.5).Floor
  }

  /** x lies halfway between two millionths, the lower of them even. */
  predicate DownwardTie(x: real) {
    var scaled := x * 1000000.0;
    scaled - scaled.Floor as real == 0.5 && scaled.Floor % 2 == 0
  }

  lemma RoundingsAgreeIff(x: real)
    requires x >= 0.0
    ensures RoundedUp(x) == RoundedToEven(x) <==> !DownwardTie(x)
  {
    var scaled := x * 1000000.0;
    var below := scaled.Floor;
    if scaled - below as real < 0.5 {
      assert (scaled + 0.5).Floor == below;
    } else {
      assert (scaled + 0.5).Floor == below + 1;
    }
  }

  /** What the lab's fields look like in the file's terms. */
  function LabLogged(r: LabRecord): LoggedRecord
    requires r.score >= 0.0 && r.threshold >= 0.0
  {
    LoggedRecord(r.tsMs, r.sequence, RoundedUp(r.score), RoundedUp(r.threshold),
                 r.changedPixels, r.totalPixels, r.cooldownMs)
  }

  /** A template literal: labels and numbers, closed by a brace and no newline. */
  function Template(fields: seq<Field>): string {
    if fields == [] then "}" else fields[0].caption + NumberText(fields[0].number) + Template(fields[1..])
  }

  function FormatJsonlLine(r: LabRecord): string
    requires r.score >= 0.0 && r.threshold >= 0.0
  {
    Template(RecordFields(LabLogged(r)))
  }

  lemma {:induction false} TemplateLacksNewline(fields: seq<Field>)
    ensures Render(fields) == Template(fields) + "\n"
  {
    if fields != [] {
      TemplateLacksNewline(fields[1..]);
      var front := fields[0].caption + NumberText(fields[0].number);
      assert front + (Template(fields[1..]) + "\n") == front + Template(fields[1..]) + "\n";
    }
  }

  function AsLabRecord(e: MotionEventRecord): LabRecord {
    LabRecord(e.timestampMs, e.sequence, e.score, e.threshold, e.changedPixels, e.totalPixels, e.cooldownMs)
  }

  /**
   The daemon's line is the lab's line and a newline, unless a score or threshold
   is a downward tie.  Both are stored doubles, so it is those that have to lie
   halfway between two millionths.
   */
  lemma LinesAgreeIff(e: MotionEventRecord)
    requires EventIsValid(e)
    ensures Line(e) == FormatJsonlLine(AsLabRecord(e)) + "\n" <==> !DownwardTie(e.score) && !DownwardTie(e.threshold)
  {
    var ours, labs := AsLogged(e), LabLogged(AsLabRecord(e));
    TemplateLacksNewline(RecordFields(labs));
    RoundingsAgreeIff(e.score);
    RoundingsAgreeIff(e.threshold);
    RecordRoundTrip(ours);
    RecordRoundTrip(labs);
  }

  lemma HalfIsKept(k: nat)
    requires k <= SUBNORMAL
    ensures Fraction(0.5, k) == 0.5
  {
    KeptOnGrid(0.5, 4503599627370496);
  }

  lemma TieOneIn128()
    ensures Quotient(1, 128) == 0.0078125 && DownwardTie(0.0078125)
  {
    OneIn128();
    assert 1 as real / 128 as real == 0.0078125;
    StoredAs(1, 128, 0.0078125, 0.0078125);
    TieAt7812();
  }

  lemma TieAt7812()
    ensures DownwardTie(0.0078125)
  {
    assert 0.0078125 * 1000000.0 == 7812.5;
    assert 7812.5.Floor == 7812;
  }

  /** The stored quotient of two counts, from the double of their ratio. */
  lemma StoredAs(part: nat, total: nat, ratio: real, stored: real)
    requires part <= total && 0 < total <= MANTISSAS && ratio == part as real / total as real
    requires ratio >= 0.0 && Double(ratio) == stored
    ensures Quotient(part, total) == stored
  {
    QuotientOfCounts(part, total);
  }

  lemma OneIn128()
    ensures Double(0.0078125) == 0.0078125
  {
    HalfIsKept(6);
    FractionDoubles(0.25, 5);
    FractionDoubles(0.125, 4);
    FractionDoubles(0.0625, 3);
    FractionDoubles(0.03125, 2);
    FractionDoubles(0.015625, 1);
    FractionDoubles(0.0078125, 0);
  }

  /** One changed pixel of 128 is such a tie: 0.0078125 ends in ...812 in the daemon's log, ...813 on the page. */
  lemma LinesCanDiffer()
    ensures exists e: MotionEventRecord ::
      EventIsValid(e) && e.changedPixels > 0 && e.score == Quotient(e.changedPixels, e.totalPixels)
      && Line(e) != FormatJsonlLine(AsLabRecord(e)) + "\n"
  {
    TieOneIn128();
    var e := MotionEventRecord(0, 1, 0.0078125, 0.005, 1, 128, 1500);
    LinesAgreeIff(e);
  }

  const STORED_64: nat := 5764607523034235

  lemma Rounded64()
    ensures Rounded(0.64) == STORED_64 as real / MANTISSA
  {
    assert 0.64 * MANTISSA == 5764607523034234.88;
    assert 5764607523034234.88.Floor == 5764607523034234;
  }

  /** Six of 19200 are 312.5 millionths, but the double nearest to that is a little more: no tie, no difference. */
  lemma StoredQuotientCanMissTheTie()
    ensures DownwardTie(6 as real / 19200 as real) && !DownwardTie(Quotient(6, 19200))
  {
    assert 6 as real / 19200 as real == 0.0003125;
    TieAt312();
    DoubledTo64();
    StoredAs(6, 19200, 0.0003125, STORED_64 as real / MANTISSA / 2048.0);
    JustAbove(STORED_64 as real / MANTISSA);
  }

  lemma TieAt312()
    ensures DownwardTie(0.0003125)
  {
    assert 0.0003125 * 1000000.0 == 312.5;
    assert 312.5.Floor == 312;
  }

  lemma DoubledTo64()
    ensures Double(0.0003125) == STORED_64 as real / MANTISSA / 2048.0
  {
    Rounded64();
    FractionDoubles(0.32, 10);
    FractionDoubles(0.16, 9);
    FractionDoubles(0.08, 8);
    FractionDoubles(0.04, 7);
    FractionDoubles(0.02, 6);
    FractionDoubles(0.01, 5);
    FractionDoubles(0.005, 4);
    FractionDoubles(0.0025, 3);
    FractionDoubles(0.00125, 2);
    FractionDoubles(0.000625, 1);
    FractionDoubles(0.0003125, 0);
  }

  lemma JustAbove(d: real)
    requires d == STORED_64 as real / MANTISSA
    ensures 312.5 < d / 2048.0 * 1000000.0 < 313.0
  {
  }

  // --------------------------------------------------------------- whole chain

  /** mapUiPhase. */
  function MapUiPhase(gatePhase: string, motionDetected: bool, eventEmitted: nat): string {
    if eventEmitted == 1 && motionDetected then "motion"
    else if gatePhase == COOLDOWN_NAME then COOLDOWN_NAME
    else IDLE_NAME
  }

  datatype LabAttempt = LabAttempt(score: LabScore, decision: LabDecision, uiPhase: string, line: Option<string>,
                                   wrote: bool, writeFailed: bool)

  const COUNTERFACTUAL_NOTE := " /* counterfactual — C would reject this record */"

  /** attemptMotionEmit: score, gate, line. */
  function AttemptMotionEmit(prev: Option<seq<Byte>>, curr: seq<Byte>, width: nat, height: nat, t: Thresholds,
                             gate: LabGate, nowMs: real, cooldownMs: nat, sequence: nat, writable: bool): LabAttempt
    requires nowMs >= 0.0 && t.changedRatio >= 0.0
  {
    var score := ScoreOf(prev, curr, width, height, t);
    var decision := GateUpdate(gate, score.motionDetected, nowMs, cooldownMs as real);
    var uiPhase := MapUiPhase(decision.phase, score.motionDetected, decision.eventEmitted);
    if decision.eventEmitted != 1 then LabAttempt(score, decision, uiPhase, None, false, false)
    else
      assert score.changedRatio.value >= t.changedRatio;
      var record := LabRecord(nowMs.Floor, sequence, score.changedRatio.value, t.changedRatio,
                              score.changedPixels, score.totalPixels, cooldownMs);
      var line := FormatJsonlLine(record) + if cooldownMs == 0 then COUNTERFACTUAL_NOTE else "";
      LabAttempt(score, decision, uiPhase, Some(line), writable, !writable)
  }

  /** What the page carries from sample to sample. */
  datatype LabState = LabState(prev: Option<Gray>, gate: LabGate, lines: string)

  const LAB_START := LabState(None, LAB_GATE, "")

  function AttemptOn(l: LabState, c: PipelineConfig, s: JpegSample, image: Gray, writable: bool): LabAttempt
    requires ConfigIsValid(c)
  {
    AttemptMotionEmit(BaselineFor(l.prev, image.width, image.height), image.pixels, image.width, image.height,
                      c.thresholds, l.gate, s.monotonicMs as real, c.cooldownMs, s.sequence, writable)
  }

  function LabFeed(l: LabState, c: PipelineConfig, s: JpegSample, image: Gray, writable: bool): LabState
    requires ConfigIsValid(c)
  {
    var a := AttemptOn(l, c, s, image, writable);
    LabState(Some(image), a.decision.gate, if a.wrote then l.lines + (a.line.value + "\n") else l.lines)
  }

  /** One sample that reaches the gate: both implementations score, gate and remember alike. */
  lemma ChainStepMirrors(sizeMax: nat, p: PipelineState, c: PipelineConfig, s: JpegSample, w: World, l: LabState,
                         writable: bool)
    requires sizeMax <= UINT64_MAX && DecoderContract(sizeMax, w.decoded) && BaselineWellSized(p.detector)
    requires ConfigIsValid(c) && SampleIsValid(s)
    requires Mirrors(p.gate, l.gate) && p.detector.baseline == l.prev
    requires Judged(PipelineStep(sizeMax, p, c, s, w).status)
    ensures w.decoded.Decodes?
    ensures var o := PipelineStep(sizeMax, p, c, s, w);
            var a := AttemptOn(l, c, s, w.decoded.image, writable);
            && Mirrors(o.state.gate, a.decision.gate)
            && o.state.detector.baseline == Some(w.decoded.image)
            && a.score == LabScore(o.result.baselineCreated, o.result.changedPixels, o.result.totalPixels,
                                   Some(o.result.score), o.result.motionDetected)
            && a.decision.eventEmitted == (if o.result.eventEmitted then 1 else 0)
            && PhaseNamed(o.result.phase, a.decision.phase)
            && o.result.eventCount == Saturated(a.decision.eventCount)
            && o.result.cooldownRemainingMs as real == a.decision.cooldownRemainingMs
            && a.uiPhase == (if o.result.eventEmitted then "motion" else a.decision.phase)
  {
    var image := w.decoded.image;
    var call := DecodedCall(image, c.thresholds, w.memory);
    DecodedObligations(sizeMax, w.decoded, c.thresholds, w.memory);
    FrameOfDecoded(image, c.thresholds, w.memory);
    CountsFit(sizeMax, p.detector, call);
    var d := DetectorStep(sizeMax, p.detector, call);
    assert d.status == MotionOk;
    assert Frame(call) == image;
    ScoresMirror(sizeMax, p.detector, call);
    GateStepMirrors(p.gate, l.gate, Sample(s.monotonicMs, d.result.motionDetected), c.cooldownMs);
    NamesDiffer();
  }

  // ------------------------------------------------------------------ whole runs

  /** The page, fed every sample of a run that reaches the gate; a baseline reset clears its previous frame. */
  function LabRun(sizeMax: nat, c: PipelineConfig, ops: seq<ChainOp>): LabState
    requires ChainObligations(sizeMax, c, ops)
  {
    if ops == [] then LAB_START
    else
      var n := |ops| - 1;
      var l := LabRun(sizeMax, c, ops[..n]);
      match ops[n]
      case ResetBaselineOp => l.(prev := None)
      case Feed(s, w) =>
        var o := LastFed(sizeMax, c, ops);
        if Judged(o.status) && w.decoded.Decodes? then LabFeed(l, c, s, w.decoded.image, o.status == PipelineOk) else l
  }

  /**
   Over every run of samples and resets, with every failure of the decoder and
   of memory, the page's previous frame and gate are the daemon's.
   */
  lemma {:induction false} RunsMirror(sizeMax: nat, c: PipelineConfig, ops: seq<ChainOp>)
    requires ChainObligations(sizeMax, c, ops)
    ensures RunChain(sizeMax, c, ops).detector.baseline == LabRun(sizeMax, c, ops).prev
    ensures Mirrors(RunChain(sizeMax, c, ops).gate, LabRun(sizeMax, c, ops).gate)
  {
    if ops != [] {
      var n := |ops| - 1;
      RunsMirror(sizeMax, c, ops[..n]);
      if ops[n].Feed? {
        var p, l := RunChain(sizeMax, c, ops[..n]), LabRun(sizeMax, c, ops[..n]);
        var s, w := ops[n].sample, ops[n].world;
        var o := PipelineStep(sizeMax, p, c, s, w);
        assert o == LastFed(sizeMax, c, ops);
        if Judged(o.status) {
          ChainStepMirrors(sizeMax, p, c, s, w, l, o.status == PipelineOk);
        } else {
          UnjudgedKeepsState(sizeMax, p, c, s, w);
        }
      }
    }
  }

  lemma UnjudgedKeepsState(sizeMax: nat, p: PipelineState, c: PipelineConfig, s: JpegSample, w: World)
    requires sizeMax <= UINT64_MAX && DecoderContract(sizeMax, w.decoded) && BaselineWellSized(p.detector)
    requires ConfigIsValid(c) && SampleIsValid(s) && p.gate.phase in {IDLE, COOLDOWN}
    requires !Judged(PipelineStep(sizeMax, p, c, s, w).status)
    ensures PipelineStep(sizeMax, p, c, s, w).state == p
  {
  }

  predicate OneClock(ops: seq<ChainOp>) {
    forall i :: 0 <= i < |ops| && ops[i].Feed? ==> ops[i].sample.realtimeMs == ops[i].sample.monotonicMs
  }

  /** The page's text for one append of the daemon: the line if the append succeeded. */
  function LabWritten(path: string, a: Attempt): string
    requires EventIsValid(a.event)
  {
    if AppendStep(path, a.event, a.io).status == LogOk then FormatJsonlLine(AsLabRecord(a.event)) + "\n" else ""
  }

  function LabText(path: string, attempts: seq<Attempt>): string
    requires AllValid(attempts)
  {
    if attempts == [] then "" else LabWritten(path, attempts[0]) + LabText(path, attempts[1..])
  }

  lemma {:induction false} LabTextSnoc(path: string, attempts: seq<Attempt>, a: Attempt)
    requires AllValid(attempts) && EventIsValid(a.event)
    ensures AllValid(attempts + [a])
    ensures LabText(path, attempts + [a]) == LabText(path, attempts) + LabWritten(path, a)
  {
    if attempts == [] {
      assert attempts + [a] == [a] && [a][1..] == [];
    } else {
      LabTextSnoc(path, attempts[1..], a);
      assert (attempts + [a])[0] == attempts[0] && (attempts + [a])[1..] == attempts[1..] + [a];
      Joined(LabWritten(path, attempts[0]), LabText(path, attempts[1..]), LabWritten(path, a));
    }
  }

  /** One sample that reaches the gate: the page gains what `LabWritten` says of the daemon's append. */
  lemma StepLines(sizeMax: nat, p: PipelineState, c: PipelineConfig, s: JpegSample, w: World, l: LabState)
    requires sizeMax <= UINT64_MAX && DecoderContract(sizeMax, w.decoded) && BaselineWellSized(p.detector)
    requires ConfigIsValid(c) && SampleIsValid(s) && s.realtimeMs == s.monotonicMs
    requires Mirrors(p.gate, l.gate) && p.detector.baseline == l.prev
    requires Judged(PipelineStep(sizeMax, p, c, s, w).status)
    ensures w.decoded.Decodes?
    ensures var o := PipelineStep(sizeMax, p, c, s, w);
            var lines := LabFeed(l, c, s, w.decoded.image, o.status == PipelineOk).lines;
            if o.result.eventEmitted then
              && o.result.changedPixels <= UINT64_MAX && o.result.totalPixels <= UINT64_MAX
              && var e := MakeEventRecord(c, s, o.result);
                 EventIsValid(e) && lines == l.lines + LabWritten(c.eventLogPath, Attempt(e, w.io))
            else lines == l.lines
  {
    var o := PipelineStep(sizeMax, p, c, s, w);
    ChainStepMirrors(sizeMax, p, c, s, w, l, o.status == PipelineOk);
    OnlyTheWorldFails(sizeMax, p, c, s, w);
    if o.result.eventEmitted {
      EmittedLine(sizeMax, p, c, s, w, l);
    }
  }

  lemma EmittedLine(sizeMax: nat, p: PipelineState, c: PipelineConfig, s: JpegSample, w: World, l: LabState)
    requires sizeMax <= UINT64_MAX && DecoderContract(sizeMax, w.decoded) && BaselineWellSized(p.detector)
    requires ConfigIsValid(c) && SampleIsValid(s) && s.realtimeMs == s.monotonicMs
    requires Mirrors(p.gate, l.gate) && p.detector.baseline == l.prev
    requires Judged(PipelineStep(sizeMax, p, c, s, w).status) && PipelineStep(sizeMax, p, c, s, w).result.eventEmitted
    requires PipelineStep(sizeMax, p, c, s, w).result.changedPixels <= UINT64_MAX
    requires PipelineStep(sizeMax, p, c, s, w).result.totalPixels <= UINT64_MAX
    requires EventIsValid(MakeEventRecord(c, s, PipelineStep(sizeMax, p, c, s, w).result))
    ensures w.decoded.Decodes?
    ensures var o := PipelineStep(sizeMax, p, c, s, w);
            && LabFeed(l, c, s, w.decoded.image, o.status == PipelineOk).lines
               == l.lines + LabWritten(c.eventLogPath, Attempt(MakeEventRecord(c, s, o.result), w.io))
  {
    var o := PipelineStep(sizeMax, p, c, s, w);
    ChainStepMirrors(sizeMax, p, c, s, w, l, o.status == PipelineOk);
    var e, a := MakeEventRecord(c, s, o.result), AttemptOn(l, c, s, w.decoded.image, o.status == PipelineOk);
    assert (s.monotonicMs as real).Floor == s.monotonicMs;
    assert FormatJsonlLine(AsLabRecord(e)) + "" == FormatJsonlLine(AsLabRecord(e));
    assert a.line == Some(FormatJsonlLine(AsLabRecord(e)));
    assert (o.status == PipelineOk) == (AppendStep(c.eventLogPath, e, w.io).status == LogOk);
    assert l.lines + "" == l.lines;
  }

  /** On one clock, the page's text is made of the daemon's appends. */
  lemma {:induction false} LabLines(sizeMax: nat, c: PipelineConfig, ops: seq<ChainOp>)
    requires ChainObligations(sizeMax, c, ops) && OneClock(ops)
    ensures AllValid(Attempts(sizeMax, c, ops))
    ensures LabRun(sizeMax, c, ops).lines == LabText(c.eventLogPath, Attempts(sizeMax, c, ops))
  {
    ChainRun(sizeMax, c, ops);
    if ops != [] {
      var n := |ops| - 1;
      LabLines(sizeMax, c, ops[..n]);
      RunsMirror(sizeMax, c, ops[..n]);
      if ops[n].Feed? {
        var p, l := RunChain(sizeMax, c, ops[..n]), LabRun(sizeMax, c, ops[..n]);
        var s, w := ops[n].sample, ops[n].world;
        var o := PipelineStep(sizeMax, p, c, s, w);
        assert o == LastFed(sizeMax, c, ops);
        OnlyTheWorldFails(sizeMax, p, c, s, w);
        if Judged(o.status) {
          StepLines(sizeMax, p, c, s, w, l);
        }
        if o.result.eventEmitted {
          LabTextSnoc(c.eventLogPath, Attempts(sizeMax, c, ops[..n]), Attempt(MakeEventRecord(c, s, o.result), w.io));
        }
      }
    }
  }

  // ------------------------------------------------------ when the texts are equal

  /** An append that leaves nothing behind when it fails, and no downward tie when it succeeds. */
  predicate Followed(path: string, a: Attempt) {
    && !Torn(path, a)
    && (AppendStep(path, a.event, a.io).status == LogOk ==>
          !DownwardTie(a.event.score) && !DownwardTie(a.event.threshold))
  }

  lemma UnitWidth(m: nat)
    requires m <= 1000000
    ensures |NumberText(Millionths(m))| == 8
  {
  }

  lemma RoundedUpStaysInUnit(x: real)
    requires 0.0 <= x <= 1.0
    ensures RoundedUp(x) <= 1000000
  {
    assert x * 1000000.0 + 0.5 < 1000001.0;
  }

  lemma {:induction false} SameRenderLength(a: seq<Field>, b: seq<Field>)
    requires |a| == |b|
    requires forall i :: 0 <= i < |a| ==>
               a[i].caption == b[i].caption && |NumberText(a[i].number)| == |NumberText(b[i].number)|
    ensures |Render(a)| == |Render(b)|
  {
    if a != [] {
      SameRenderLength(a[1..], b[1..]);
    }
  }

  /** Rounding never changes how long a line is. */
  lemma LinesAreAsLong(e: MotionEventRecord)
    requires EventIsValid(e)
    ensures |Line(e)| == |FormatJsonlLine(AsLabRecord(e)) + "\n"|
  {
    var ours, labs := AsLogged(e), LabLogged(AsLabRecord(e));
    RoundingStaysInUnit(e.score);
    RoundingStaysInUnit(e.threshold);
    RoundedUpStaysInUnit(e.score);
    RoundedUpStaysInUnit(e.threshold);
    UnitWidth(ours.scoreMillionths);
    UnitWidth(labs.scoreMillionths);
    UnitWidth(ours.thresholdMillionths);
    UnitWidth(labs.thresholdMillionths);
    TemplateLacksNewline(RecordFields(labs));
    SameRenderLength(RecordFields(ours), RecordFields(labs));
  }

  lemma AttemptAgreesIff(path: string, a: Attempt)
    requires EventIsValid(a.event)
    ensures var written := AppendStep(path, a.event, a.io).written;
            && |written| >= |LabWritten(path, a)|
            && (written == LabWritten(path, a) <==> Followed(path, a))
  {
    LinesAgreeIff(a.event);
    LinesAreAsLong(a.event);
    WholeLine(path, a.event, a.io);
  }

  lemma WholeLine(path: string, e: MotionEventRecord, io: AppendIo)
    ensures AppendStep(path, e, io).status == LogOk ==> EventIsValid(e) && AppendStep(path, e, io).written == Line(e)
  {
  }

  lemma SplitEqual(a: string, b: string, c: string, d: string)
    requires |a| >= |c| && |b| >= |d|
    ensures a + b == c + d <==> a == c && b == d
  {
    if a + b == c + d {
      assert |a| + |b| == |a + b| == |c + d| == |c| + |d|;
      assert a == (a + b)[..|a|] && c == (c + d)[..|c|];
      assert b == (a + b)[|a|..] && d == (c + d)[|c|..];
    }
  }

  lemma {:induction false} TextsAgreeIff(path: string, attempts: seq<Attempt>)
    requires AllValid(attempts)
    ensures |NewText(path, attempts)| >= |LabText(path, attempts)|
    ensures NewText(path, attempts) == LabText(path, attempts)
        <==> forall i :: 0 <= i < |attempts| ==> Followed(path, attempts[i])
  {
    if attempts != [] {
      var a, rest := attempts[0], attempts[1..];
      TextsAgreeIff(path, rest);
      AttemptAgreesIff(path, a);
      SplitEqual(AppendStep(path, a.event, a.io).written, NewText(path, rest),
                 LabWritten(path, a), LabText(path, rest));
      assert forall i :: 0 < i < |attempts| ==> attempts[i] == rest[i - 1];
      assert forall i :: 0 <= i < |rest| ==> rest[i] == attempts[i + 1];
    }
  }

  /**
   On one clock, the page's lines are the daemon's log, character for character,
   exactly when no append failed after bytes of its line reached the file and no
   logged record holds a downward tie.
   */
  lemma LogsMirrorIff(sizeMax: nat, c: PipelineConfig, ops: seq<ChainOp>)
    requires ChainObligations(sizeMax, c, ops) && OneClock(ops)
    ensures var attempts := Attempts(sizeMax, c, ops);
            RunChain(sizeMax, c, ops).log == LabRun(sizeMax, c, ops).lines
            <==> forall i :: 0 <= i < |attempts| ==> Followed(c.eventLogPath, attempts[i])
  {
    ChainRun(sizeMax, c, ops);
    LabLines(sizeMax, c, ops);
    TextsAgreeIff(c.eventLogPath, Attempts(sizeMax, c, ops));
  }
}
