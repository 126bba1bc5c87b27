/**
 The motion event gate (app/daemon/motion_event_gate.c): one event per cooldown
 window, on a 64-bit millisecond clock.

 `GateStep` says declaratively what one update does; the class carries the C
 code's branches and is proved against it.  The lemmas are about whole runs.
 */
module EventGate {
  import opened CTypes

  // The C enum is an int, so an update can find a phase that is neither.
  const IDLE := 0
  const COOLDOWN := 1

  datatype Gate = Gate(phase: int, cooldownStartedMs: Uint64, eventCount: Uint64)

  const RESET_GATE := Gate(IDLE, 0, 0)

  datatype Decision = Decision(eventEmitted: bool, phase: int, eventCount: Uint64, cooldownRemainingMs: Uint64)

  const NO_DECISION := Decision(false, IDLE, 0, 0)

  datatype GateStatus = GateOk | GateInvalidArgument | GateInvalidState

  datatype GateOutcome = GateOutcome(status: GateStatus, gate: Gate, decision: Decision)

  /** A motion sample at `now` would become an event: no cooldown window covers it. */
  predicate Armed(g: Gate, now: nat, cooldown: nat) {
    g.phase == IDLE || now >= g.cooldownStartedMs + cooldown
  }

  function Saturated(n: nat): Uint64 {
    Min(n, UINT64_MAX)
  }

  /** What one update does to the gate, as a function of the window it is in. */
  function GateStep(g: Gate, motion: int, now: Uint64, cooldown: Uint64): GateOutcome {
    if motion !in {0, 1} || cooldown == 0 then
      GateOutcome(GateInvalidArgument, g, NO_DECISION)
    else if g.phase !in {IDLE, COOLDOWN} then
      GateOutcome(GateInvalidState, g, NO_DECISION)
    else
      var emitted := motion == 1 && Armed(g, now, cooldown);
      var next :=
        if emitted then Gate(COOLDOWN, now, Saturated(g.eventCount + 1))
        else if Armed(g, now, cooldown) then g.(phase := IDLE)
        else g;
      var remaining :=
        if emitted then cooldown
        else if Armed(g, now, cooldown) then 0
        else Min(cooldown, g.cooldownStartedMs + cooldown - now);
      GateOutcome(GateOk, next, Decision(emitted, next.phase, next.eventCount, remaining))
  }

  class MotionEventGate {
    var phase: int
    var cooldownStartedMs: Uint64
    var eventCount: Uint64

    function View(): Gate
      reads this
    {
      Gate(phase, cooldownStartedMs, eventCount)
    }

    constructor ()
      ensures View() == RESET_GATE
    {
      phase, cooldownStartedMs, eventCount := IDLE, 0, 0;
    }

    method EmitEvent(now: Uint64)
      modifies this
      ensures View() == Gate(COOLDOWN, now, Saturated(old(eventCount) + 1))
    {
      phase := COOLDOWN;
      cooldownStartedMs := now;
      if eventCount != UINT64_MAX {
        eventCount := eventCount + 1;
      }
    }

    method FillDecision(emitted: bool, remaining: Uint64) returns (decision: Decision)
      ensures decision == Decision(emitted, phase, eventCount, remaining)
    {
      decision := Decision(emitted, phase, eventCount, remaining);
    }

    method Update(motion: int, now: Uint64, cooldown: Uint64) returns (status: GateStatus, decision: Decision)
      modifies this
      ensures GateOutcome(status, View(), decision) == GateStep(old(View()), motion, now, cooldown)
    {
      decision := NO_DECISION;
      if (motion != 0 && motion != 1) || cooldown == 0 {
        return GateInvalidArgument, decision;
      }
      if phase != IDLE && phase != COOLDOWN {
        return GateInvalidState, decision;
      }

      var emitted := false;
      var remaining := 0;
      if phase == IDLE {
        if motion != 0 {
          EmitEvent(now);
          emitted := true;
          remaining := cooldown;
        }
        decision := FillDecision(emitted, remaining);
        return GateOk, decision;
      }

      if now < cooldownStartedMs {
        decision := FillDecision(false, cooldown);
        return GateOk, decision;
      }

      var elapsed := now - cooldownStartedMs;
      if elapsed < cooldown {
        remaining := cooldown - elapsed;
        decision := FillDecision(false, remaining);
        return GateOk, decision;
      }

      phase := IDLE;
      if motion != 0 {
        EmitEvent(now);
        emitted := true;
        remaining := cooldown;
      }
      decision := FillDecision(emitted, remaining);
      return GateOk, decision;
    }

    method Reset()
      modifies this
      ensures View() == RESET_GATE
    {
      phase, cooldownStartedMs, eventCount := IDLE, 0, 0;
    }
  }

  // ---------------------------------------------------------------- whole runs

  datatype Sample = Sample(timeMs: Uint64, motion: bool)

  /** An update is refused exactly for a motion that is no flag, no cooldown or no phase, and then changes nothing. */
  lemma RefusedUpdate(g: Gate, motion: int, now: Uint64, cooldown: Uint64)
    ensures var o := GateStep(g, motion, now, cooldown);
            && (o.status == GateInvalidArgument <==> (motion != 0 && motion != 1) || cooldown == 0)
            && (o.status == GateInvalidState <==>
                  (motion == 0 || motion == 1) && cooldown > 0 && g.phase != 0 && g.phase != 1)
            && (o.status != GateOk ==> o.gate == g && o.decision == Decision(false, 0, 0, 0))
  {
  }

  predicate WellPhased(g: Gate) {
    g.phase in {IDLE, COOLDOWN}
  }

  function StepOn(g: Gate, s: Sample, cooldown: Uint64): GateOutcome {
    GateStep(g, if s.motion then 1 else 0, s.timeMs, cooldown)
  }

  /** Which samples of a run become events. */
  function Emits(g: Gate, samples: seq<Sample>, cooldown: Uint64): (flags: seq<bool>)
    ensures |flags| == |samples|
    decreases samples
  {
    if samples == [] then []
    else
      var o := StepOn(g, samples[0], cooldown);
      [o.decision.eventEmitted] + Emits(o.gate, samples[1..], cooldown)
  }

  function GateAfter(g: Gate, samples: seq<Sample>, cooldown: Uint64): Gate
    decreases samples
  {
    if samples == [] then g else GateAfter(StepOn(g, samples[0], cooldown).gate, samples[1..], cooldown)
  }

  function CountTrue(flags: seq<bool>): nat {
    if flags == [] then 0 else (if flags[0] then 1 else 0) + CountTrue(flags[1..])
  }

  predicate NondecreasingClock(samples: seq<Sample>) {
    forall i, j :: 0 <= i < j < |samples| ==> samples[i].timeMs <= samples[j].timeMs
  }

  /** A choice of motion samples whose times lie at least `cooldown` apart. */
  predicate Spaced(samples: seq<Sample>, pick: seq<bool>, cooldown: nat) {
    && |pick| == |samples|
    && (forall i :: 0 <= i < |pick| && pick[i] ==> samples[i].motion)
    && (forall i, j :: 0 <= i < j < |pick| && pick[i] && pick[j] ==>
          samples[j].timeMs >= samples[i].timeMs + cooldown)
  }

  /** Every event of the run falls outside the window that `g` starts in. */
  lemma {:induction false} EmitsAreSpaced(g: Gate, samples: seq<Sample>, cooldown: Uint64)
    requires WellPhased(g) && cooldown > 0 && NondecreasingClock(samples)
    ensures Spaced(samples, Emits(g, samples, cooldown), cooldown)
    ensures forall i :: 0 <= i < |samples| && Emits(g, samples, cooldown)[i] ==> Armed(g, samples[i].timeMs, cooldown)
    decreases samples
  {
    if samples != [] {
      var rest := samples[1..];
      var o := StepOn(g, samples[0], cooldown);
      EmitsAreSpaced(o.gate, rest, cooldown);
      var flags := Emits(g, samples, cooldown);
      assert forall i :: 0 < i < |flags| ==> flags[i] == Emits(o.gate, rest, cooldown)[i-1] && samples[i] == rest[i-1];
    }
  }

  lemma {:induction false} CountWithout(flags: seq<bool>, k: nat)
    requires k < |flags| && flags[k]
    ensures CountTrue(flags[k := false]) + 1 == CountTrue(flags)
  {
    if k > 0 {
      CountWithout(flags[1..], k - 1);
      assert flags[k := false][1..] == flags[1..][k - 1 := false];
    } else {
      assert flags[k := false][1..] == flags[1..];
    }
  }

  lemma {:induction false} CountZero(flags: seq<bool>)
    requires forall i :: 0 <= i < |flags| ==> !flags[i]
    ensures CountTrue(flags) == 0
  {
    if flags != [] {
      CountZero(flags[1..]);
    }
  }

  /** A choice that the gate's window admits. */
  ghost predicate Admitted(g: Gate, samples: seq<Sample>, cooldown: nat, pick: seq<bool>) {
    && Spaced(samples, pick, cooldown)
    && forall i :: 0 <= i < |pick| && pick[i] ==> Armed(g, samples[i].timeMs, cooldown)
  }

  /** Where the gate passes over the first sample, so does every choice its window admits. */
  lemma PassedOver(g: Gate, samples: seq<Sample>, cooldown: Uint64, pick: seq<bool>)
    requires WellPhased(g) && cooldown > 0 && samples != [] && Admitted(g, samples, cooldown, pick)
    requires !StepOn(g, samples[0], cooldown).decision.eventEmitted
    ensures !pick[0] && Admitted(StepOn(g, samples[0], cooldown).gate, samples[1..], cooldown, pick[1..])
  {
  }

  /** Where the gate takes the first sample, that takes the place of the first sample chosen. */
  lemma Exchanged(g: Gate, samples: seq<Sample>, cooldown: Uint64, pick: seq<bool>) returns (rest: seq<bool>)
    requires WellPhased(g) && cooldown > 0 && samples != [] && Admitted(g, samples, cooldown, pick)
    requires NondecreasingClock(samples) && StepOn(g, samples[0], cooldown).decision.eventEmitted
    requires exists i :: 0 <= i < |pick| && pick[i]
    ensures CountTrue(pick) == CountTrue(rest) + 1
    ensures Admitted(StepOn(g, samples[0], cooldown).gate, samples[1..], cooldown, rest)
  {
    var f, later := FirstTrue(pick), samples[1..];
    var trimmed := pick[f := false];
    CountWithout(pick, f);
    assert !trimmed[0];
    rest := trimmed[1..];
    forall j | 0 <= j < |later| && rest[j]
      ensures later[j].motion && later[j].timeMs >= samples[0].timeMs + cooldown
    {
      assert pick[j + 1] && samples[j + 1].timeMs >= samples[f].timeMs + cooldown;
    }
  }

  /** No admissible choice outside the current window beats the gate. */
  lemma {:induction false} GreedyBound(g: Gate, samples: seq<Sample>, cooldown: Uint64, pick: seq<bool>)
    requires WellPhased(g) && cooldown > 0 && NondecreasingClock(samples)
    requires Spaced(samples, pick, cooldown)
    requires forall i :: 0 <= i < |pick| && pick[i] ==> Armed(g, samples[i].timeMs, cooldown)
    ensures CountTrue(pick) <= CountTrue(Emits(g, samples, cooldown))
    decreases samples
  {
    if samples != [] {
      var o := StepOn(g, samples[0], cooldown);
      if !o.decision.eventEmitted {
        PassedOver(g, samples, cooldown, pick);
        GreedyBound(o.gate, samples[1..], cooldown, pick[1..]);
      } else if exists i :: 0 <= i < |pick| && pick[i] {
        var rest := Exchanged(g, samples, cooldown, pick);
        GreedyBound(o.gate, samples[1..], cooldown, rest);
      } else {
        CountZero(pick);
      }
    }
  }

  function FirstTrue(flags: seq<bool>): (k: nat)
    requires exists i :: 0 <= i < |flags| && flags[i]
    ensures k < |flags| && flags[k] && forall i :: 0 <= i < k ==> !flags[i]
  {
    if flags[0] then 0 else 1 + FirstTrue(flags[1..])
  }

  lemma {:induction false} CountsEvents(g: Gate, samples: seq<Sample>, cooldown: Uint64)
    requires WellPhased(g) && cooldown > 0
    ensures WellPhased(GateAfter(g, samples, cooldown))
    ensures GateAfter(g, samples, cooldown).eventCount
         == Saturated(g.eventCount + CountTrue(Emits(g, samples, cooldown)))
    decreases samples
  {
    if samples != [] {
      CountsEvents(StepOn(g, samples[0], cooldown).gate, samples[1..], cooldown);
    }
  }

  /**
   With a clock that does not run backwards, the events of a reset gate are a
   largest set of motion samples at least one cooldown apart, and `eventCount`
   is the size of that set, saturated.
   */
  lemma GreedyIsOptimal(samples: seq<Sample>, cooldown: Uint64)
    requires cooldown > 0 && NondecreasingClock(samples)
    ensures Spaced(samples, Emits(RESET_GATE, samples, cooldown), cooldown)
    ensures forall pick: seq<bool> :: Spaced(samples, pick, cooldown) ==>
              CountTrue(pick) <= CountTrue(Emits(RESET_GATE, samples, cooldown))
    ensures GateAfter(RESET_GATE, samples, cooldown).eventCount
         == Saturated(CountTrue(Emits(RESET_GATE, samples, cooldown)))
  {
    EmitsAreSpaced(RESET_GATE, samples, cooldown);
    forall pick: seq<bool> | Spaced(samples, pick, cooldown)
      ensures CountTrue(pick) <= CountTrue(Emits(RESET_GATE, samples, cooldown))
    {
      GreedyBound(RESET_GATE, samples, cooldown, pick);
    }
    CountsEvents(RESET_GATE, samples, cooldown);
  }

  /** A gate that entered its window at `start` has to see a sample past the window before it emits. */
  lemma {:induction false} WindowIsServed(g: Gate, samples: seq<Sample>, cooldown: Uint64, j: nat) returns (k: nat)
    requires g.phase == COOLDOWN && cooldown > 0
    requires j < |samples| && Emits(g, samples, cooldown)[j]
    ensures k <= j && samples[k].timeMs >= g.cooldownStartedMs + cooldown
  {
    if Armed(g, samples[0].timeMs, cooldown) {
      k := 0;
    } else {
      var m := WindowIsServed(g, samples[1..], cooldown, j - 1);
      k := m + 1;
    }
  }

  /**
   The rate limit, with no assumption at all on the clock: between two events,
   the first at time t, the gate has seen a sample stamped t + cooldown or later.
   */
  lemma {:induction false} EventsAreRateLimited(g: Gate, samples: seq<Sample>, cooldown: Uint64, i: nat, j: nat)
    returns (k: nat)
    requires WellPhased(g) && cooldown > 0 && i < j < |samples|
    requires Emits(g, samples, cooldown)[i] && Emits(g, samples, cooldown)[j]
    ensures i < k <= j && samples[k].timeMs >= samples[i].timeMs + cooldown
    decreases samples
  {
    var o := StepOn(g, samples[0], cooldown);
    if i == 0 {
      var m := WindowIsServed(o.gate, samples[1..], cooldown, j - 1);
      k := m + 1;
    } else {
      var m := EventsAreRateLimited(o.gate, samples[1..], cooldown, i - 1, j - 1);
      k := m + 1;
    }
  }

  /** Runs extend at the end one sample at a time. */
  lemma {:induction false} RunSnoc(g: Gate, samples: seq<Sample>, s: Sample, cooldown: Uint64)
    ensures GateAfter(g, samples + [s], cooldown) == StepOn(GateAfter(g, samples, cooldown), s, cooldown).gate
    ensures Emits(g, samples + [s], cooldown)
         == Emits(g, samples, cooldown) + [StepOn(GateAfter(g, samples, cooldown), s, cooldown).decision.eventEmitted]
    decreases samples
  {
    if samples == [] {
      assert samples + [s] == [s];
    } else {
      RunSnoc(StepOn(g, samples[0], cooldown).gate, samples[1..], s, cooldown);
      assert (samples + [s])[1..] == samples[1..] + [s];
    }
  }
}
