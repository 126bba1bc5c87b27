/**
 The client's loop as runs of the interleaved machine, down to what a reader of
 its bytes makes of them.

 `ClientStream.HandleStream` is proved to take a `Course` of rounds, whatever
 sections the other threads execute in between.  Here those sections are the
 actions of everybody else, the worker and the other clients included, and such a
 course is shown to be a run of the steps Check, Lapse and Close of this client.
 Only the slot matters to a client, so it is the slot that is followed.
 */
module StreamRefinement {
  import opened SharedState
  import opened ClientStream
  import opened WorkerLog
  import opened Interleaving
  import opened DaemonProperties
  import opened LoopRefinement

  // ------------------------------------------------------------- everybody else

  predicate NotBy(id: nat, actions: seq<Action>) {
    forall i :: 0 <= i < |actions| && actions[i].Client? ==> actions[i].id != id
  }

  /** What a section does to the slot depends on the slot alone. */
  lemma SlotChanges(a: AppView, b: AppView, c: Change)
    requires a.slot == b.slot
    ensures Changed(a, c).slot == Changed(b, c).slot
  {
  }

  lemma {:induction false} SlotsChange(a: AppView, b: AppView, changes: seq<Change>)
    requires a.slot == b.slot
    ensures AllChanged(a, changes).slot == AllChanged(b, changes).slot
    decreases |changes|
  {
    if changes != [] {
      SlotChanges(a, b, changes[0]);
      SlotsChange(Changed(a, changes[0]), Changed(b, changes[0]), changes[1..]);
    }
  }

  /** The machine shows the client the slot of `a`, and its stream is `c`. */
  predicate Shows(s: Daemon, id: nat, a: AppView, c: Stream) {
    s.app.slot == a.slot && id in s.streams && s.streams[id] == c
  }

  lemma OneKeeps(u: Setup, s: Daemon, id: nat, a: AppView, c: Stream, action: Action)
    requires ValidSetup(u) && Sane(s) && Shows(s, id, a, c) && (action.Client? ==> action.id != id)
    ensures Shows(Step(u, s, action), id, AllChanged(a, ChangesOf(s, action)), c)
  {
    if action.Work? {
      WorkerFrame(u, s, action.work);
    } else {
      OneIdles(u, s, action);
      SlotsChange(a, s.app, ChangesOf(s, action));
      StreamsKept(u, s, id, action);
    }
  }

  lemma StreamsKept(u: Setup, s: Daemon, id: nat, action: Action)
    requires ValidSetup(u) && Sane(s) && id in s.streams && !action.Work? && (action.Client? ==> action.id != id)
    ensures var s' := Step(u, s, action); id in s'.streams && s'.streams[id] == s.streams[id]
  {
    if action.Capture? { CaptureFrame(s, action.capture); }
  }

  lemma {:induction false} OthersKeep(u: Setup, s: Daemon, id: nat, a: AppView, c: Stream, actions: seq<Action>)
    requires ValidSetup(u) && Sane(s) && Shows(s, id, a, c) && NotBy(id, actions)
    ensures Shows(Run(u, s, actions), id, AllChanged(a, ChangesIn(u, s, actions)), c)
    decreases |actions|
  {
    if actions != [] {
      var s1, changes := Step(u, s, actions[0]), ChangesOf(s, actions[0]);
      OneKeeps(u, s, id, a, c, actions[0]);
      OthersKeep(u, s1, id, AllChanged(a, changes), c, actions[1..]);
      AllChangedConcat(a, changes, ChangesIn(u, s1, actions[1..]));
    }
  }

  // ------------------------------------------------------------------ the wait

  function CheckBy(id: nat, memory: bool): Action {
    Client(id, Check(memory))
  }

  lemma StreamCheckWaits(u: Setup, s: Daemon, id: nat, a: AppView, c: Stream, memory: bool)
    requires ValidSetup(u) && Sane(s) && Shows(s, id, a, c) && c.open && StreamMustWait(a.slot, c.copy.sequence)
    ensures Shows(Step(u, s, CheckBy(id, memory)), id, a, c.(waiting := true))
  {
  }

  lemma {:induction false} StreamWaitsRun(u: Setup, s: Daemon, id: nat, a: AppView, c: Stream,
                                          waits: seq<seq<Action>>, wakes: seq<Wake>, memory: bool)
    requires ValidSetup(u) && Sane(s) && Shows(s, id, a, c) && c.open && !c.waiting
    requires WakesMatch(u, s, CheckBy(id, memory), waits, wakes) && forall wait :: wait in waits ==> NotBy(id, wait)
    requires StreamWaited(a, wakes, |waits|, c.copy.sequence)
    ensures Shows(AfterWaits(u, s, CheckBy(id, memory), waits), id, AllChanged(a, Seen(wakes, |waits|)),
                  c.(waiting := |waits| > 0))
  {
    if waits != [] {
      var n := |waits| - 1;
      var front, wait := waits[..n], waits[n];
      StreamWaitsRun(u, s, id, a, c, front, wakes, memory);
      assert StreamMustWait(AllChanged(a, Seen(wakes, n)).slot, c.copy.sequence);
      OneMoreStreamWait(u, s, id, a, c, front, wait, wakes, memory);
      assert waits == front + [wait];
    }
  }

  lemma OneMoreStreamWait(u: Setup, s: Daemon, id: nat, a: AppView, c: Stream, front: seq<seq<Action>>,
                          wait: seq<Action>, wakes: seq<Wake>, memory: bool)
    requires ValidSetup(u) && Sane(s) && c.open && NotBy(id, wait)
    requires |front| < |wakes| && WakeMatches(u, s, CheckBy(id, memory), front, wait, wakes[|front|])
    requires var reached := AfterWaits(u, s, CheckBy(id, memory), front);
             Shows(reached, id, AllChanged(a, Seen(wakes, |front|)), c.(waiting := |front| > 0))
    requires StreamMustWait(AllChanged(a, Seen(wakes, |front|)).slot, c.copy.sequence)
    ensures var reached := AfterWaits(u, s, CheckBy(id, memory), front + [wait]);
            Shows(reached, id, AllChanged(a, Seen(wakes, |front| + 1)), c.(waiting := true))
  {
    var check := CheckBy(id, memory);
    var before, seen := AfterWaits(u, s, check, front), AllChanged(a, Seen(wakes, |front|));
    StreamCheckWaits(u, before, id, seen, c.(waiting := |front| > 0), memory);
    OthersKeep(u, Step(u, before, check), id, seen, c.(waiting := true), wait);
    AllChangedConcat(a, Seen(wakes, |front|), wakes[|front|].changes);
    WaitsSplit(u, s, check, front, wait);
  }

  /** How the wait ends, as steps of the machine. */
  function StreamAnswerActions(id: nat, wakes: seq<Wake>, n: nat, mustWait: bool, memory: bool): seq<Action> {
    if 0 < n <= |wakes| && wakes[n - 1].TimedOut? then [Client(id, Lapse)]
    else if 0 < n <= |wakes| && wakes[n - 1].WaitFails? then [Client(id, Close)]
    else if mustWait then [CheckBy(id, memory), Client(id, Lapse)]
    else [CheckBy(id, memory)]
  }

  /** The stream after an answer: it has one delivery more, or waits again, or is over. */
  predicate Answered(c: Stream, take: StreamTake, c': Stream) {
    match take.code
    case StreamFrame => c' == Stream(take.copy, false, true, c.delivered + [take.copy])
    case StreamTimeout => c' == c.(waiting := false)
    case _ => !c'.open && c'.delivered == c.delivered && c'.copy == c.copy
  }

  lemma StreamAnswerRuns(u: Setup, s: Daemon, id: nat, a: AppView, c: Stream, wakes: seq<Wake>, n: nat, memory: bool)
    requires ValidSetup(u) && Sane(s) && n <= |wakes| && Shows(s, id, a, c) && c.open
    ensures var s' := Run(u, s, StreamAnswerActions(id, wakes, n, StreamMustWait(a.slot, c.copy.sequence), memory));
            && id in s'.streams && Shows(s', id, a, s'.streams[id])
            && Answered(c, StreamAnswer(a.slot, c.copy, wakes, n, memory), s'.streams[id])
  {
    if n > 0 && wakes[n - 1].TimedOut? {
      RunOne(u, s, Client(id, Lapse));
    } else if n > 0 && wakes[n - 1].WaitFails? {
      RunOne(u, s, Client(id, Close));
    } else if StreamMustWait(a.slot, c.copy.sequence) {
      StreamCheckThenLapse(u, s, id, a, c, memory);
    } else {
      RunOne(u, s, CheckBy(id, memory));
    }
  }

  lemma StreamCheckThenLapse(u: Setup, s: Daemon, id: nat, a: AppView, c: Stream, memory: bool)
    requires ValidSetup(u) && Sane(s) && Shows(s, id, a, c) && c.open && StreamMustWait(a.slot, c.copy.sequence)
    ensures Shows(Run(u, s, [CheckBy(id, memory), Client(id, Lapse)]), id, a, c.(waiting := false))
  {
    var check, lapse := CheckBy(id, memory), Client(id, Lapse);
    assert [check, lapse] == [check] + [lapse];
    StreamCheckWaits(u, s, id, a, c, memory);
    RunConcat(u, s, [check], [lapse]);
    RunOne(u, s, check);
    RunOne(u, Step(u, s, check), lapse);
  }

  // ----------------------------------------------------------------- the rounds

  /** What everybody else does before a round's check, and in each of its waits. */
  datatype Gaps = Gaps(before: seq<Action>, waits: seq<seq<Action>>)

  /** The machine's state when the round starts to wait. */
  function AtRound(u: Setup, s: Daemon, gaps: Gaps): (s': Daemon)
    requires ValidSetup(u) && Sane(s)
    ensures Sane(s')
  {
    Run(u, s, gaps.before)
  }

  /** The round's changes are those of the others' actions in its gaps. */
  predicate RoundAccords(u: Setup, s: Daemon, id: nat, gaps: Gaps, round: Round, v: Visit)
    requires ValidSetup(u) && Sane(s)
  {
    && NotBy(id, gaps.before) && (forall wait :: wait in gaps.waits ==> NotBy(id, wait))
    && round.changes == ChangesIn(u, s, gaps.before) && |gaps.waits| == v.wakes <= |round.wakes|
    && WakesMatch(u, AtRound(u, s, gaps), CheckBy(id, round.memory), gaps.waits, round.wakes)
  }

  function RoundActions(a: AppView, c: StreamCopy, id: nat, gaps: Gaps, round: Round, v: Visit): seq<Action> {
    if Stopping(AllChanged(a, round.changes).slot) then gaps.before + [Client(id, Close)]
    else gaps.before + (WaitActions(CheckBy(id, round.memory), gaps.waits)
                        + StreamAnswerActions(id, round.wakes, v.wakes, StreamMustWait(v.after.slot, c.sequence),
                                              round.memory))
  }

  /** One round of the loop is a run: the machine ends with the same slot and the same answer. */
  lemma RoundIsRun(u: Setup, s: Daemon, id: nat, a: AppView, c: Stream, gaps: Gaps, round: Round, v: Visit)
    requires ValidSetup(u) && Sane(s) && Shows(s, id, a, c) && c.open && !c.waiting
    requires Visits(a, c.copy, round, v) && RoundAccords(u, s, id, gaps, round, v)
    ensures var s' := Run(u, s, RoundActions(a, c.copy, id, gaps, round, v));
            && id in s'.streams && Shows(s', id, v.after, s'.streams[id]) && Answered(c, v.take, s'.streams[id])
  {
    var s1, checked := AtRound(u, s, gaps), AllChanged(a, round.changes);
    OthersKeep(u, s, id, a, c, gaps.before);
    if Stopping(checked.slot) {
      RunConcat(u, s, gaps.before, [Client(id, Close)]);
      RunOne(u, s1, Client(id, Close));
    } else {
      WaitedRoundIsRun(u, s1, id, checked, c, gaps.waits, round, v);
      RunConcat(u, s, gaps.before, RoundActions(a, c.copy, id, gaps, round, v)[|gaps.before|..]);
    }
  }

  lemma WaitedRoundIsRun(u: Setup, s: Daemon, id: nat, a: AppView, c: Stream, waits: seq<seq<Action>>, round: Round,
                         v: Visit)
    requires ValidSetup(u) && Sane(s) && Shows(s, id, a, c) && c.open && !c.waiting
    requires |waits| == v.wakes <= |round.wakes| && v.after == AllChanged(a, Seen(round.wakes, v.wakes))
    requires StreamWaited(a, round.wakes, v.wakes, c.copy.sequence)
    requires v.take == StreamAnswer(v.after.slot, c.copy, round.wakes, v.wakes, round.memory)
    requires WakesMatch(u, s, CheckBy(id, round.memory), waits, round.wakes)
    requires forall wait :: wait in waits ==> NotBy(id, wait)
    ensures var answer := StreamAnswerActions(id, round.wakes, v.wakes, StreamMustWait(v.after.slot, c.copy.sequence),
                                              round.memory);
            var s' := Run(u, s, WaitActions(CheckBy(id, round.memory), waits) + answer);
            && id in s'.streams && Shows(s', id, v.after, s'.streams[id])
            && Answered(c.(waiting := v.wakes > 0), v.take, s'.streams[id])
  {
    var check := CheckBy(id, round.memory);
    StreamWaitsRun(u, s, id, a, c, waits, round.wakes, round.memory);
    var waited := AfterWaits(u, s, check, waits);
    StreamAnswerRuns(u, waited, id, v.after, c.(waiting := v.wakes > 0), round.wakes, v.wakes, round.memory);
    RunConcat(u, s, WaitActions(check, waits),
              StreamAnswerActions(id, round.wakes, v.wakes, StreamMustWait(v.after.slot, c.copy.sequence),
                                  round.memory));
  }

  // ---------------------------------------------------------------- the course

  function CourseActions(a: AppView, id: nat, gaps: seq<Gaps>, rounds: seq<Round>, visits: seq<Visit>): seq<Action>
    requires |visits| <= |gaps| && |visits| <= |rounds|
  {
    if visits == [] then []
    else
      var n := |visits| - 1;
      CourseActions(a, id, gaps, rounds, visits[..n])
      + RoundActions(StateAfter(a, visits[..n]), CopyAfter(visits[..n]), id, gaps[n], rounds[n], visits[n])
  }

  predicate CourseAccords(u: Setup, s: Daemon, a: AppView, id: nat, gaps: seq<Gaps>, rounds: seq<Round>,
                          visits: seq<Visit>)
    requires ValidSetup(u) && Sane(s)
  {
    && |visits| <= |gaps| && |visits| <= |rounds|
    && (visits != [] ==>
          var n := |visits| - 1;
          && CourseAccords(u, s, a, id, gaps, rounds, visits[..n])
          && RoundAccords(u, Run(u, s, CourseActions(a, id, gaps, rounds, visits[..n])), id, gaps[n], rounds[n],
                          visits[n]))
  }

  /** The machine stands where the loop does. */
  predicate Follows(s: Daemon, id: nat, a: AppView, visits: seq<Visit>) {
    && id in s.streams && Shows(s, id, StateAfter(a, visits), s.streams[id])
    && s.streams[id].delivered == Taken(visits) && s.streams[id].copy == CopyAfter(visits)
    && (GoesOn(visits) ==> s.streams[id].open && !s.streams[id].waiting)
  }

  lemma OneVisitMore(a: AppView, visits: seq<Visit>, v: Visit)
    ensures Taken(visits + [v]) == Taken(visits) + if v.take.code == StreamFrame then [v.take.copy] else []
    ensures StateAfter(a, visits + [v]) == v.after && CopyAfter(visits + [v]) == v.take.copy
    ensures GoesOn(visits + [v]) <==> v.take.code in {StreamTimeout, StreamFrame}
  {
    assert (visits + [v])[..|visits|] == visits;
  }

  lemma FollowsOn(s: Daemon, s': Daemon, id: nat, a: AppView, visits: seq<Visit>, v: Visit)
    requires Follows(s, id, a, visits) && GoesOn(visits)
    requires id in s'.streams && Shows(s', id, v.after, s'.streams[id])
    requires Answered(s.streams[id], v.take, s'.streams[id])
    requires v.take.code != StreamFrame ==> v.take.copy == CopyAfter(visits)
    ensures Follows(s', id, a, visits + [v])
  {
    OneVisitMore(a, visits, v);
  }

  /** Only a frame changes the copy. */
  lemma CopyKept(a: AppView, c: StreamCopy, round: Round, v: Visit)
    requires Visits(a, c, round, v) && v.take.code != StreamFrame
    ensures v.take.copy == c
  {
  }

  /** The machine's state after the course. */
  function Reached(u: Setup, s: Daemon, a: AppView, id: nat, gaps: seq<Gaps>, rounds: seq<Round>,
                   visits: seq<Visit>): (s': Daemon)
    requires ValidSetup(u) && Sane(s) && |visits| <= |gaps| && |visits| <= |rounds|
    ensures Sane(s')
  {
    Run(u, s, CourseActions(a, id, gaps, rounds, visits))
  }

  lemma ReachedFirst(u: Setup, s: Daemon, a: AppView, id: nat, gaps: seq<Gaps>, rounds: seq<Round>)
    requires ValidSetup(u) && Sane(s)
    ensures Reached(u, s, a, id, gaps, rounds, []) == s
  {
  }

  lemma CourseActionsNext(a: AppView, id: nat, gaps: seq<Gaps>, rounds: seq<Round>, visits: seq<Visit>)
    requires 0 < |visits| <= |gaps| && |visits| <= |rounds|
    ensures var n := |visits| - 1;
            var front := visits[..n];
            CourseActions(a, id, gaps, rounds, visits)
            == CourseActions(a, id, gaps, rounds, front)
               + RoundActions(StateAfter(a, front), CopyAfter(front), id, gaps[n], rounds[n], visits[n])
  {
  }

  lemma ReachedNext(u: Setup, s: Daemon, a: AppView, id: nat, gaps: seq<Gaps>, rounds: seq<Round>, visits: seq<Visit>)
    requires ValidSetup(u) && Sane(s) && 0 < |visits| <= |gaps| && |visits| <= |rounds|
    ensures var n := |visits| - 1;
            var front, v := visits[..n], visits[n];
            Reached(u, s, a, id, gaps, rounds, visits)
            == Run(u, Reached(u, s, a, id, gaps, rounds, front),
                   RoundActions(StateAfter(a, front), CopyAfter(front), id, gaps[n], rounds[n], v))
  {
    var n := |visits| - 1;
    var front := visits[..n];
    CourseActionsNext(a, id, gaps, rounds, visits);
    RunInTwo(u, s, CourseActions(a, id, gaps, rounds, visits), CourseActions(a, id, gaps, rounds, front),
             RoundActions(StateAfter(a, front), CopyAfter(front), id, gaps[n], rounds[n], visits[n]));
  }

  lemma RunInTwo(u: Setup, s: Daemon, all: seq<Action>, first: seq<Action>, rest: seq<Action>)
    requires ValidSetup(u) && Sane(s) && all == first + rest
    ensures Run(u, s, all) == Run(u, Run(u, s, first), rest)
  {
    RunConcat(u, s, first, rest);
  }

  /**
   Every course of the loop is a run of the machine: whatever everybody else does
   in its gaps, the machine's client has been delivered exactly the copies taken.
   */
  lemma {:induction false} CourseIsRun(u: Setup, s: Daemon, id: nat, a: AppView, gaps: seq<Gaps>, rounds: seq<Round>,
                                       visits: seq<Visit>)
    requires ValidSetup(u) && Sane(s) && Shows(s, id, a, NEW_STREAM)
    requires Course(a, rounds, visits) && CourseAccords(u, s, a, id, gaps, rounds, visits)
    ensures Follows(Reached(u, s, a, id, gaps, rounds, visits), id, a, visits)
    decreases |visits|
  {
    if visits == [] {
      ReachedFirst(u, s, a, id, gaps, rounds);
    } else {
      var n := |visits| - 1;
      var front := visits[..n];
      LastVisit(a, rounds, visits);
      LastAccords(u, s, id, a, gaps, rounds, visits);
      CourseIsRun(u, s, id, a, gaps, rounds, front);
      ReachedFollows(u, s, id, a, gaps, rounds, visits);
    }
  }

  lemma LastVisit(a: AppView, rounds: seq<Round>, visits: seq<Visit>)
    requires visits != [] && Course(a, rounds, visits)
    ensures var n := |visits| - 1;
            var front := visits[..n];
            && Course(a, rounds, front) && GoesOn(front)
            && Visits(StateAfter(a, front), CopyAfter(front), rounds[n], visits[n])
  {
  }

  lemma LastAccords(u: Setup, s: Daemon, id: nat, a: AppView, gaps: seq<Gaps>, rounds: seq<Round>,
                    visits: seq<Visit>)
    requires ValidSetup(u) && Sane(s) && visits != [] && CourseAccords(u, s, a, id, gaps, rounds, visits)
    ensures var n := |visits| - 1;
            var front := visits[..n];
            && CourseAccords(u, s, a, id, gaps, rounds, front)
            && RoundAccords(u, Reached(u, s, a, id, gaps, rounds, front), id, gaps[n], rounds[n], visits[n])
  {
  }

  lemma ReachedFollows(u: Setup, s: Daemon, id: nat, a: AppView, gaps: seq<Gaps>, rounds: seq<Round>,
                       visits: seq<Visit>)
    requires ValidSetup(u) && Sane(s) && 0 < |visits| <= |gaps| && |visits| <= |rounds|
    requires var n := |visits| - 1;
             var front := visits[..n];
             var reached := Reached(u, s, a, id, gaps, rounds, front);
             && Follows(reached, id, a, front) && GoesOn(front)
             && Visits(StateAfter(a, front), CopyAfter(front), rounds[n], visits[n])
             && RoundAccords(u, reached, id, gaps[n], rounds[n], visits[n])
    ensures Follows(Reached(u, s, a, id, gaps, rounds, visits), id, a, visits)
  {
    var n := |visits| - 1;
    var front := visits[..n];
    ReachedNext(u, s, a, id, gaps, rounds, visits);
    RoundFollows(u, Reached(u, s, a, id, gaps, rounds, front), id, a, front, gaps[n], rounds[n], visits[n]);
    LastOf(visits);
  }

  lemma LastOf(visits: seq<Visit>)
    requires visits != []
    ensures visits == visits[..|visits| - 1] + [visits[|visits| - 1]]
  {
  }

  lemma RoundFollows(u: Setup, s: Daemon, id: nat, a: AppView, front: seq<Visit>, gaps: Gaps, round: Round, v: Visit)
    requires ValidSetup(u) && Sane(s) && Follows(s, id, a, front) && GoesOn(front)
    requires Visits(StateAfter(a, front), CopyAfter(front), round, v) && RoundAccords(u, s, id, gaps, round, v)
    ensures var actions := RoundActions(StateAfter(a, front), CopyAfter(front), id, gaps, round, v);
            Follows(Run(u, s, actions), id, a, front + [v])
  {
    var view, copy := StateAfter(a, front), CopyAfter(front);
    RoundIsRun(u, s, id, view, s.streams[id], gaps, round, v);
    if v.take.code != StreamFrame { CopyKept(view, copy, round, v); }
    FollowsOn(s, Run(u, s, RoundActions(view, copy, id, gaps, round, v)), id, a, front, v);
  }

  // ----------------------------------------------------------------- the reader

  /** A frame read back is the published frame of its number. */
  predicate ReadAs(published: seq<Picture>, frame: string, number: nat) {
    1 <= number <= |published| && frame == AsText(published[number - 1].bytes)
  }

  predicate Growing(numbers: seq<nat>) {
    forall i, j :: 0 <= i < j < |numbers| ==> numbers[i] < numbers[j]
  }

  /** Frame by frame, what was read are published frames, in order and without repeats. */
  predicate ReadFrom(published: seq<Picture>, frames: seq<string>, numbers: seq<nat>) {
    && |frames| == |numbers| && Growing(numbers)
    && (forall i :: 0 <= i < |numbers| ==> ReadAs(published, frames[i], numbers[i]))
  }

  lemma {:induction false} FramesAt(delivered: seq<StreamCopy>, i: nat)
    requires i < |delivered|
    ensures Frames(delivered)[i] == AsText(delivered[i].bytes)
  {
    var n := |delivered| - 1;
    if i < n {
      FramesAt(delivered[..n], i);
    }
  }

  function Numbers(delivered: seq<StreamCopy>): (numbers: seq<nat>)
    ensures |numbers| == |delivered|
    ensures forall i :: 0 <= i < |delivered| ==> numbers[i] == delivered[i].sequence
  {
    seq(|delivered|, i requires 0 <= i < |delivered| => delivered[i].sequence)
  }

  /** What was sent is a beginning of what was delivered. */
  lemma SentWasPublished(published: seq<Picture>, c: Stream, delivered: seq<StreamCopy>)
    requires StreamOk(published, c) && |delivered| <= |c.delivered| && delivered == c.delivered[..|delivered|]
    ensures forall i :: 0 <= i < |delivered| ==> DeliveredFrom(published, delivered[i])
    ensures Increasing(delivered)
  {
    forall i | 0 <= i < |delivered| ensures DeliveredFrom(published, delivered[i]) {
      assert delivered[i] == c.delivered[i];
    }
    forall i, j | 0 <= i < j < |delivered| ensures delivered[i].sequence < delivered[j].sequence {
      assert c.delivered[i].sequence < c.delivered[j].sequence;
    }
  }

  lemma ReadsPublished(published: seq<Picture>, delivered: seq<StreamCopy>)
    requires forall i :: 0 <= i < |delivered| ==> DeliveredFrom(published, delivered[i])
    requires Increasing(delivered)
    ensures ReadFrom(published, Frames(delivered), Numbers(delivered))
  {
    forall i | 0 <= i < |delivered|
      ensures ReadAs(published, Frames(delivered)[i], Numbers(delivered)[i])
    {
      ReadAt(published, delivered, i);
    }
    NumbersGrow(delivered);
  }

  lemma NumbersGrow(delivered: seq<StreamCopy>)
    requires Increasing(delivered)
    ensures Growing(Numbers(delivered))
  {
  }

  lemma ReadAt(published: seq<Picture>, delivered: seq<StreamCopy>, i: nat)
    requires i < |delivered| && DeliveredFrom(published, delivered[i])
    ensures ReadAs(published, Frames(delivered)[i], Numbers(delivered)[i])
  {
    FramesAt(delivered, i);
  }

  lemma SentIsBeginning(delivered: seq<StreamCopy>, taken: seq<StreamCopy>, last: string, cut: string)
    requires SentOf(delivered, taken, last, cut)
    ensures |delivered| <= |taken| && delivered == taken[..|delivered|]
  {
  }

  lemma ReaderGets(delivered: seq<StreamCopy>, before: string, last: string, cut: string, received: string)
    requires Arrived(received, before, delivered, last, cut)
    ensures |before + STREAM_HEADER| <= |received|
    ensures ReadParts(received[|before + STREAM_HEADER|..]) == Frames(delivered)
  {
    StreamDecodes(Frames(delivered), last, cut);
    assert received[|before + STREAM_HEADER|..] == Parts(Frames(delivered)) + cut;
  }

  /** Where a client that connects in state `s` leaves the machine. */
  function Streamed(u: Setup, s: Daemon, id: nat, a: AppView, gaps: seq<Gaps>, rounds: seq<Round>,
                    visits: seq<Visit>): (s': Daemon)
    requires ValidSetup(u) && Sane(s) && |visits| <= |gaps| && |visits| <= |rounds|
    ensures Sane(s')
  {
    Reached(u, Step(u, s, Client(id, Open)), a, id, gaps, rounds, visits)
  }

  lemma StreamedFollows(u: Setup, s: Daemon, id: nat, a: AppView, gaps: seq<Gaps>, rounds: seq<Round>,
                        visits: seq<Visit>)
    requires Reachable(u, s) && Sane(s) && id !in s.streams
    requires s.app.slot == a.slot && Course(a, rounds, visits)
    requires CourseAccords(u, Step(u, s, Client(id, Open)), a, id, gaps, rounds, visits)
    ensures var s' := Streamed(u, s, id, a, gaps, rounds, visits);
            && Reachable(u, s') && id in s'.streams && s'.streams[id].delivered == Taken(visits)
            && StreamOk(s'.published, s'.streams[id])
  {
    ReachableStep(u, s, Client(id, Open));
    var start := Step(u, s, Client(id, Open));
    CourseIsRun(u, start, id, a, gaps, rounds, visits);
    ReachableRun(u, start, CourseActions(a, id, gaps, rounds, visits));
    SlotIsSound(u, Streamed(u, s, id, a, gaps, rounds, visits));
  }

  /**
   From the camera to the reader: a client connects to the daemon in any reachable
   state, its loop runs through any rounds, its connection breaks anywhere.  What a
   reader makes of the bytes behind the header are published frames, byte for byte,
   in the order they were published, none of them twice.
   */
  lemma ReaderSeesASubsequence(u: Setup, s: Daemon, id: nat, a: AppView, gaps: seq<Gaps>, rounds: seq<Round>,
                               visits: seq<Visit>, delivered: seq<StreamCopy>, before: string, last: string,
                               cut: string, received: string)
    requires Reachable(u, s) && Sane(s) && id !in s.streams
    requires s.app.slot == a.slot && Course(a, rounds, visits)
    requires CourseAccords(u, Step(u, s, Client(id, Open)), a, id, gaps, rounds, visits)
    requires SentOf(delivered, Taken(visits), last, cut) && Arrived(received, before, delivered, last, cut)
    ensures var s' := Streamed(u, s, id, a, gaps, rounds, visits);
            && Reachable(u, s') && |before + STREAM_HEADER| <= |received|
            && ReadFrom(s'.published, ReadParts(received[|before + STREAM_HEADER|..]), Numbers(delivered))
  {
    var s' := Streamed(u, s, id, a, gaps, rounds, visits);
    StreamedFollows(u, s, id, a, gaps, rounds, visits);
    SentIsBeginning(delivered, Taken(visits), last, cut);
    SentWasPublished(s'.published, s'.streams[id], delivered);
    ReadsPublished(s'.published, delivered);
    ReaderGets(delivered, before, last, cut, received);
  }
}
