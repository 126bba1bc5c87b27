/**
 The capture thread as runs of the interleaved machine, and so the way of a frame
 from the driver to the published history.

 `Capture.CaptureThread` is proved to work on the shared state in sections, one
 after the other, with whatever the others leave in between.  Here what they leave
 is the work of their actions, and the sections are shown to be a run of the steps
 Activate, PublishNext, Lose and EndSession.  The thread counters are not part of
 the machine; sections are compared without them.
 */
module CaptureRefinement {
  import opened CTypes
  import opened SharedState
  import opened Capture
  import opened WorkerLog
  import opened Interleaving
  import opened DaemonProperties
  import opened LoopRefinement

  /** The same state, but for the counters of threads and clients. */
  predicate Alike(a: AppView, b: AppView) {
    a.(workers := b.workers, clients := b.clients) == b
  }

  /** The machine stands where the capture thread does. */
  predicate Carries(s: Daemon, t: Standing) {
    Alike(s.app, t.app) && s.capturing == t.active && s.published == t.frames
  }

  predicate NotByCapture(actions: seq<Action>) {
    forall i :: 0 <= i < |actions| ==> !actions[i].Capture?
  }

  /** What the others' actions make of the state is what the section finds. */
  predicate SectionAccords(u: Setup, s: Daemon, gap: seq<Action>, e: Section)
    requires ValidSetup(u) && Sane(s)
  {
    var found := Run(u, s, gap);
    && NotByCapture(gap)
    && match e
       case Theirs(after) => Alike(found.app, after)
       case SessionOver => found.app == s.app
       case Own(Activates(_, _, _, nowNs)) => found.app == s.app && nowNs == found.clock
       case Own(Publishes(_, _, nowNs)) => found.app == s.app && nowNs == found.clock
       case Own(_) => found.app == s.app
  }

  /** The step of the machine a section is. */
  function SectionActions(e: Section): seq<Action> {
    match e
    case Own(Activates(device, width, height, _)) => [Action.Capture(Activate(device, width, height))]
    case Own(Publishes(bytes, memory, _)) => [Action.Capture(PublishNext(bytes, memory))]
    case Own(Loses(device, error, nowMs)) => [Action.Capture(Lose(device, error, nowMs))]
    case SessionOver => [Action.Capture(EndSession)]
    case _ => []
  }

  /** What the others do before a section, and the section. */
  function Turn(gap: seq<Action>, e: Section): seq<Action> {
    gap + SectionActions(e)
  }

  /** Neither 64-bit counter is at its end. */
  predicate Room(a: AppView, n: nat) {
    a.slot.sequence + n <= UINT64_MAX && a.slot.captureGeneration + n <= UINT64_MAX
  }

  // ---------------------------------------------------------------- one section

  /** The others leave alone what only capture touches. */
  lemma {:induction false} OthersLeaveCapture(u: Setup, s: Daemon, actions: seq<Action>)
    requires ValidSetup(u) && Sane(s) && NotByCapture(actions)
    ensures var s' := Run(u, s, actions);
            && s'.capturing == s.capturing && s'.published == s.published
            && s'.app.slot.sequence == s.app.slot.sequence
            && s'.app.slot.captureGeneration == s.app.slot.captureGeneration
    decreases |actions|
  {
    if actions != [] {
      if actions[0].Work? { WorkerFrame(u, s, actions[0].work); } else { IdleFrame(u, s, actions[0]); }
      OthersLeaveCapture(u, Step(u, s, actions[0]), actions[1..]);
    }
  }

  /** A change by the capture thread does not depend on the counters of threads. */
  lemma ChangedAlike(a: AppView, b: AppView, c: Change)
    requires Alike(a, b) && (c.Activates? || c.Publishes? || c.Loses?)
    ensures Alike(Changed(a, c), Changed(b, c))
  {
  }

  lemma ActivateIsStep(s: Daemon, t: Standing, device: string, width: Uint32, height: Uint32)
    requires Carries(s, t) && !t.active && Room(s.app, 1)
    ensures var s' := CaptureStep(s, Activate(device, width, height));
            Carries(s', Moved(t, Own(Activates(device, width, height, s.clock))).value) && s'.published == s.published
  {
    ChangedAlike(s.app, t.app, Activates(device, width, height, s.clock));
  }

  lemma PublishIsStep(s: Daemon, t: Standing, bytes: seq<Byte>, memory: bool)
    requires Carries(s, t) && t.active && LooksLikeJpeg(bytes) && Room(s.app, 1)
    ensures Carries(CaptureStep(s, PublishNext(bytes, memory)), Moved(t, Own(Publishes(bytes, memory, s.clock))).value)
  {
    ChangedAlike(s.app, t.app, Publishes(bytes, memory, s.clock));
  }

  lemma LoseIsStep(s: Daemon, t: Standing, device: string, error: string, nowMs: Uint64)
    requires Carries(s, t)
    ensures Carries(CaptureStep(s, Lose(device, error, nowMs)), Moved(t, Own(Loses(device, error, nowMs))).value)
  {
    ChangedAlike(s.app, t.app, Loses(device, error, nowMs));
  }

  /** No step of capture advances a counter by more than one. */
  lemma RoomUsed(s: Daemon, a: CaptureAction, n: nat)
    requires Room(s.app, n + 1)
    ensures Room(CaptureStep(s, a).app, n)
  {
  }

  /** One section, after its gap, is a run of the machine. */
  lemma SectionIsRun(u: Setup, s: Daemon, t: Standing, gap: seq<Action>, e: Section, n: nat)
    requires ValidSetup(u) && Sane(s) && Carries(s, t) && Moved(t, e).Some?
    requires SectionAccords(u, s, gap, e) && Room(s.app, n + 1)
    ensures var s' := Run(u, s, Turn(gap, e));
            Carries(s', Moved(t, e).value) && Room(s'.app, n)
  {
    var found, acts := Run(u, s, gap), SectionActions(e);
    OthersLeaveCapture(u, s, gap);
    RunConcat(u, s, gap, acts);
    if acts == [] {
      assert gap + acts == gap;
    } else {
      RunOne(u, found, acts[0]);
      RoomUsed(found, acts[0].capture, n);
      CaptureSectionIsStep(found, t, e);
    }
  }

  lemma CaptureSectionIsStep(s: Daemon, t: Standing, e: Section)
    requires Carries(s, t) && Moved(t, e).Some? && !e.Theirs? && Room(s.app, 1)
    requires e.Own? && e.change.Activates? ==> e.change.nowNs == s.clock
    requires e.Own? && e.change.Publishes? ==> e.change.nowNs == s.clock
    ensures SectionActions(e) != [] && SectionActions(e)[0].Capture?
    ensures Carries(CaptureStep(s, SectionActions(e)[0].capture), Moved(t, e).value)
  {
    match e
    case Own(Activates(device, width, height, _)) => ActivateIsStep(s, t, device, width, height);
    case Own(Publishes(bytes, memory, _)) => PublishIsStep(s, t, bytes, memory);
    case Own(Loses(device, error, nowMs)) => LoseIsStep(s, t, device, error, nowMs);
    case SessionOver =>
  }

  // --------------------------------------------------------------- all sections

  function SectionsActions(gaps: seq<seq<Action>>, sections: seq<Section>): seq<Action>
    requires |sections| <= |gaps|
  {
    if sections == [] then []
    else
      var n := |sections| - 1;
      SectionsActions(gaps, sections[..n]) + Turn(gaps[n], sections[n])
  }

  /** The machine's state after the sections. */
  function AfterSections(u: Setup, s: Daemon, gaps: seq<seq<Action>>, sections: seq<Section>): (s': Daemon)
    requires ValidSetup(u) && Sane(s) && |sections| <= |gaps|
    ensures Sane(s')
  {
    Run(u, s, SectionsActions(gaps, sections))
  }

  predicate SectionsAccord(u: Setup, s: Daemon, gaps: seq<seq<Action>>, sections: seq<Section>)
    requires ValidSetup(u) && Sane(s)
  {
    && |sections| <= |gaps|
    && (sections != [] ==>
          var n := |sections| - 1;
          && SectionsAccord(u, s, gaps, sections[..n])
          && SectionAccords(u, AfterSections(u, s, gaps, sections[..n]), gaps[n], sections[n]))
  }

  lemma LastSectionAccords(u: Setup, s: Daemon, gaps: seq<seq<Action>>, sections: seq<Section>)
    requires ValidSetup(u) && Sane(s) && sections != [] && SectionsAccord(u, s, gaps, sections)
    ensures var n := |sections| - 1;
            && SectionsAccord(u, s, gaps, sections[..n])
            && SectionAccords(u, AfterSections(u, s, gaps, sections[..n]), gaps[n], sections[n])
  {
  }

  lemma LastMove(t: Standing, sections: seq<Section>)
    requires sections != [] && Moves(t, sections).Some?
    ensures var n := |sections| - 1;
            Moves(t, sections[..n]).Some? && Moves(t, sections) == Moved(Moves(t, sections[..n]).value, sections[n])
  {
  }

  lemma SectionsSplit(u: Setup, s: Daemon, gaps: seq<seq<Action>>, sections: seq<Section>)
    requires ValidSetup(u) && Sane(s) && 0 < |sections| <= |gaps|
    ensures var n := |sections| - 1;
            AfterSections(u, s, gaps, sections)
            == Run(u, AfterSections(u, s, gaps, sections[..n]), Turn(gaps[n], sections[n]))
  {
    var n := |sections| - 1;
    SectionsActionsNext(gaps, sections);
    RunSplit(u, s, SectionsActions(gaps, sections), SectionsActions(gaps, sections[..n]), Turn(gaps[n], sections[n]));
  }

  lemma RunSplit(u: Setup, s: Daemon, all: seq<Action>, first: seq<Action>, last: seq<Action>)
    requires ValidSetup(u) && Sane(s) && all == first + last
    ensures Run(u, s, all) == Run(u, Run(u, s, first), last)
  {
    RunConcat(u, s, first, last);
  }

  lemma SectionsActionsNext(gaps: seq<seq<Action>>, sections: seq<Section>)
    requires 0 < |sections| <= |gaps|
    ensures var n := |sections| - 1;
            SectionsActions(gaps, sections)
            == SectionsActions(gaps, sections[..n]) + Turn(gaps[n], sections[n])
  {
  }

  lemma {:induction false} SectionsAreRun(u: Setup, s: Daemon, t: Standing, gaps: seq<seq<Action>>,
                                          sections: seq<Section>, n: nat)
    requires ValidSetup(u) && Sane(s) && Carries(s, t) && Room(s.app, |sections| + n)
    requires Moves(t, sections).Some? && SectionsAccord(u, s, gaps, sections)
    ensures var s' := AfterSections(u, s, gaps, sections);
            Carries(s', Moves(t, sections).value) && Room(s'.app, n)
    decreases |sections|
  {
    if sections != [] {
      var m := |sections| - 1;
      LastSectionAccords(u, s, gaps, sections);
      LastMove(t, sections);
      SectionsAreRun(u, s, t, gaps, sections[..m], n + 1);
      SectionsSplit(u, s, gaps, sections);
      SectionIsRun(u, AfterSections(u, s, gaps, sections[..m]), Moves(t, sections[..m]).value, gaps[m], sections[m], n);
    }
  }

  // ------------------------------------------------------------ from the driver

  /**
   The capture thread's sections, whatever the others do in between, lead the
   machine to a reachable state with the shared state they lead to, and what it has
   published are exactly the frames the trace hands over, in order.
   */
  lemma CaptureThreadIsRun(u: Setup, s: Daemon, t: Standing, gaps: seq<seq<Action>>, sections: seq<Section>,
                           view: AppView, trace: seq<Event>)
    requires Reachable(u, s) && Sane(s) && Carries(s, t) && Room(s.app, |sections|)
    requires Stands(t, sections, view, trace) && SectionsAccord(u, s, gaps, sections)
    ensures var s' := AfterSections(u, s, gaps, sections);
            Reachable(u, s') && Alike(s'.app, view) && s'.published == Handed(trace)
  {
    SectionsAreRun(u, s, t, gaps, sections, 0);
    ReachableRun(u, s, SectionsActions(gaps, sections));
  }

  /**
   So every frame the daemon has published is what the driver left in a buffer
   that was dequeued before and not given back until it was published.
   */
  lemma PublishedCameFromDriver(u: Setup, s: Daemon, t: Standing, gaps: seq<seq<Action>>, sections: seq<Section>,
                                view: AppView, trace: seq<Event>, k: nat)
    returns (p: nat, d: nat)
    requires Reachable(u, s) && Sane(s) && Carries(s, t) && Room(s.app, |sections|)
    requires Stands(t, sections, view, trace) && SectionsAccord(u, s, gaps, sections) && Play(trace).Some?
    requires k < |AfterSections(u, s, gaps, sections).published|
    ensures d < p < |trace| && trace[p].Published? && trace[d] == Dequeued(trace[p].index, trace[p].bytes)
    ensures AfterSections(u, s, gaps, sections).published[k] == Picture(trace[p].bytes, trace[p].generation)
    ensures forall j :: d < j < p ==> trace[j] != Queued(trace[p].index) && !trace[j].StreamedOff?
  {
    CaptureThreadIsRun(u, s, t, gaps, sections, view, trace);
    p := HandedWasPublished(trace, k);
    d := PublishedFromHeldBuffer(trace, p);
  }
}
