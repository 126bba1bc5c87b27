/**
 Who may still touch the shared state, and when it is destroyed: main's start-up
 and shutdown order (app/daemon/main.c), the accept loop and the client threads
 (app/daemon/http_server.c), and the two counters of state.c.

 Each action is one section or one call of main, the capture thread, the motion
 thread or a client thread, in any order the scheduler likes.
 */
module Lifetime {
  import opened CTypes
  import opened SharedState

  /** Where main stands; the server's accept loop is part of it. */
  datatype MainStage =
    | Initialised
    | CaptureCreated
    | Serving
    | CountedClient
    | ClientNotCreated
    | Served
    | StopSent
    | CaptureJoined
    | MotionJoined
    | ClientsGone
    | MotionNotCreated
    | AbortStopSent
    | AbortJoined
    | Exited

  datatype ThreadStage = NotStarted | Running | Finished

  /** A client thread; a finished one frees its context and touches nothing else. */
  datatype ClientStage = Serves | Streams | Closing | Done

  datatype Process = Process(app: AppView, destroyed: bool, main: MainStage, capture: ThreadStage, motion: ThreadStage,
                             clients: map<nat, ClientStage>, nextId: nat)

  datatype Action =
    | CreateCapture(ok: bool)
    | CreateMotion(ok: bool)
    | AcceptClient
    | CreateClient(ok: bool)
    | UncountClient
    | ServerReturns
    | SendStop
    | JoinCapture
    | JoinMotion
    | WaitForClients
    | Destroy
    | CaptureSection(change: Change)
    | CaptureReturns
    | MotionSection(motionFields: Motion, health: Health)
    | MotionReturns
    | ClientSection(id: nat)
    | ClientStreams(id: nat)
    | ClientEndsStream(id: nat)
    | ClientCloses(id: nat)
    | ClientUncounts(id: nat)
    | SignalArrives

  function Launch(nowMs: Uint64, nowNs: Uint64, motionEnabled: bool): Process {
    var app := MotionConfigured(InitialState(nowMs, nowNs), motionEnabled);
    Process(app, false, Initialised, NotStarted, NotStarted, map[], 0)
  }

  predicate InStage(p: Process, id: nat, stage: ClientStage) {
    id in p.clients && p.clients[id] == stage
  }

  /** What the capture thread does to the shared state. */
  predicate OfCapture(c: Change) {
    c.Activates? || c.Publishes? || c.Loses?
  }

  predicate Enabled(p: Process, a: Action) {
    match a
    case CreateCapture(_) => p.main == Initialised
    case CreateMotion(_) => p.main == CaptureCreated
    case AcceptClient => p.main == Serving
    case CreateClient(_) => p.main == CountedClient
    case UncountClient => p.main == ClientNotCreated
    case ServerReturns => p.main == Serving
    case SendStop => p.main == Served || p.main == MotionNotCreated
    case JoinCapture => (p.main == StopSent || p.main == AbortStopSent) && p.capture == Finished
    case JoinMotion => p.main == CaptureJoined && p.motion == Finished
    case WaitForClients => p.main == MotionJoined && p.app.workers == 0
    case Destroy => p.main == ClientsGone || p.main == AbortJoined
    case CaptureSection(c) => p.capture == Running && OfCapture(c)
    case CaptureReturns => p.capture == Running
    case MotionSection(_, _) => p.motion == Running
    case MotionReturns => p.motion == Running
    case ClientSection(id) => InStage(p, id, Serves) || InStage(p, id, Streams)
    case ClientStreams(id) => InStage(p, id, Serves)
    case ClientEndsStream(id) => InStage(p, id, Streams)
    case ClientCloses(id) => InStage(p, id, Serves)
    case ClientUncounts(id) => InStage(p, id, Closing)
    case SignalArrives => true
  }

  /** The actions that use the shared state, its mutex included. */
  predicate Touches(p: Process, a: Action) {
    match a
    case CreateCapture(ok) => !ok
    case CreateMotion(_) => false
    case CreateClient(_) => false
    case JoinCapture => false
    case JoinMotion => false
    case CaptureReturns => false
    case MotionReturns => false
    case ClientCloses(_) => false
    case SignalArrives => false
    case _ => true
  }

  function Next(p: Process, a: Action): Process
    requires Enabled(p, a)
  {
    match a
    case CreateCapture(ok) =>
      if ok then p.(main := CaptureCreated, capture := Running) else p.(main := Exited, destroyed := true)
    case CreateMotion(ok) =>
      if ok then p.(main := Serving, motion := Running) else p.(main := MotionNotCreated)
    case AcceptClient => p.(main := CountedClient, app := WorkersCounted(p.app, 1))
    case CreateClient(ok) =>
      if ok then p.(main := Serving, clients := p.clients[p.nextId := Serves], nextId := p.nextId + 1)
      else p.(main := ClientNotCreated)
    case UncountClient => p.(main := Serving, app := WorkersCounted(p.app, -1))
    case ServerReturns => p.(main := Served)
    case SendStop =>
      p.(main := if p.main == Served then StopSent else AbortStopSent, app := StopRequested(p.app))
    case JoinCapture => p.(main := if p.main == StopSent then CaptureJoined else AbortJoined)
    case JoinMotion => p.(main := MotionJoined)
    case WaitForClients => p.(main := ClientsGone)
    case Destroy => p.(main := Exited, destroyed := true)
    case CaptureSection(c) => p.(app := Changed(p.app, c))
    case CaptureReturns => p.(capture := Finished)
    case MotionSection(m, h) => p.(app := p.app.(motion := m, health := h))
    case MotionReturns => p.(motion := Finished)
    case ClientSection(_) => p
    case ClientStreams(id) => p.(app := ClientsCounted(p.app, 1), clients := p.clients[id := Streams])
    case ClientEndsStream(id) => p.(app := ClientsCounted(p.app, -1), clients := p.clients[id := Closing])
    case ClientCloses(id) => p.(clients := p.clients[id := Closing])
    case ClientUncounts(id) => p.(app := WorkersCounted(p.app, -1), clients := p.clients[id := Done])
    case SignalArrives => p.(app := Signalled(p.app))
  }

  function Unfinished(p: Process): set<nat> {
    set id | id in p.clients && p.clients[id] != Done
  }

  function Streaming(p: Process): set<nat> {
    set id | id in p.clients && p.clients[id] == Streams
  }

  /** One client is counted before its thread exists, or after its creation failed. */
  function Pending(p: Process): nat {
    if p.main == CountedClient || p.main == ClientNotCreated then 1 else 0
  }

  /** Which threads and clients can exist at each stage of main. */
  predicate StageConsistent(p: Process) {
    && (p.capture == NotStarted <==>
          p.main == Initialised || (p.main == Exited && p.motion == NotStarted && p.capture == NotStarted))
    && (p.main in {Initialised, CaptureCreated, MotionNotCreated, AbortStopSent, AbortJoined} ==>
          p.motion == NotStarted)
    && (p.motion == NotStarted ==> p.clients == map[])
    && (p.motion == NotStarted ==>
          p.main !in {Serving, CountedClient, ClientNotCreated, Served, StopSent, CaptureJoined, MotionJoined,
                      ClientsGone})
    && (p.main in {CaptureJoined, MotionJoined, ClientsGone, AbortJoined} ==> p.capture == Finished)
    && (p.main in {MotionJoined, ClientsGone} ==> p.motion == Finished)
    && (p.main == Exited ==> p.capture != Running && p.motion != Running)
    && (p.main in {ClientsGone, Exited} ==> p.app.workers == 0)
    && (p.destroyed <==> p.main == Exited)
  }

  ghost predicate Inv(p: Process) {
    && StageConsistent(p)
    && (forall id :: id in p.clients ==> id < p.nextId)
    && p.app.workers == |Unfinished(p)| + Pending(p)
    && p.app.clients == |Streaming(p)|
  }

  lemma LaunchInv(nowMs: Uint64, nowNs: Uint64, motionEnabled: bool)
    ensures Inv(Launch(nowMs, nowNs, motionEnabled))
  {
    var p := Launch(nowMs, nowNs, motionEnabled);
    assert Unfinished(p) == {} && Streaming(p) == {};
  }

  /** Counting one client's change of stage. */
  lemma StageCounts(p: Process, q: Process, id: nat, stage: ClientStage)
    requires q.clients == p.clients[id := stage]
    ensures |Unfinished(q)| + (if id in Unfinished(p) then 1 else 0)
         == |Unfinished(p)| + (if stage != Done then 1 else 0)
    ensures |Streaming(q)| + (if id in Streaming(p) then 1 else 0)
         == |Streaming(p)| + (if stage == Streams then 1 else 0)
  {
    Membership(Unfinished(p), Unfinished(q), id, stage != Done);
    Membership(Streaming(p), Streaming(q), id, stage == Streams);
  }

  lemma Membership(before: set<nat>, after: set<nat>, id: nat, member: bool)
    requires id in after <==> member
    requires forall x :: x != id ==> (x in after <==> x in before)
    ensures |after| + (if id in before then 1 else 0) == |before| + (if member then 1 else 0)
  {
    var others := before - {id};
    assert after == if member then others + {id} else others;
    assert before == if id in before then others + {id} else others;
  }

  lemma NextInv(p: Process, a: Action)
    requires Inv(p) && Enabled(p, a)
    ensures Inv(Next(p, a))
  {
    CountsKept(p, a);
    StagesKept(p, a);
  }

  lemma StagesKept(p: Process, a: Action)
    requires Inv(p) && Enabled(p, a)
    ensures StageConsistent(Next(p, a)) && forall id :: id in Next(p, a).clients ==> id < Next(p, a).nextId
  {
    if a.ClientUncounts? {
      assert a.id in Unfinished(p);
    }
  }

  /** Both counters stand for the clients there are. */
  ghost predicate Counted(p: Process) {
    p.app.workers == |Unfinished(p)| + Pending(p) && p.app.clients == |Streaming(p)|
  }

  lemma CountsKept(p: Process, a: Action)
    requires Inv(p) && Enabled(p, a)
    ensures Counted(Next(p, a))
  {
    match a
    case ClientStreams(id) => StageMoves(p, id, Streams);
    case ClientEndsStream(id) => StageMoves(p, id, Closing);
    case ClientCloses(id) => StageMoves(p, id, Closing);
    case ClientUncounts(id) => StageMoves(p, id, Done);
    case CreateClient(_) => ClientJoins(p, a);
    case _ => SameClients(p, Next(p, a));
  }

  lemma ClientJoins(p: Process, a: Action)
    requires Inv(p) && Enabled(p, a) && a.CreateClient?
    ensures Counted(Next(p, a))
  {
    if a.ok {
      StageCounts(p, Next(p, a), p.nextId, Serves);
    } else {
      SameClients(p, Next(p, a));
    }
  }

  /** A client passes to a later stage and changes the counters as that stage asks. */
  lemma StageMoves(p: Process, id: nat, stage: ClientStage)
    requires Inv(p) && id in p.clients && p.clients[id] != Done && p.clients[id] != stage
    ensures var app := if stage == Streams then ClientsCounted(p.app, 1)
                       else if stage == Done then WorkersCounted(p.app, -1)
                       else if p.clients[id] == Streams then ClientsCounted(p.app, -1)
                       else p.app;
            (stage != Done || p.clients[id] != Streams) && stage != Serves ==>
              Counted(p.(app := app, clients := p.clients[id := stage]))
  {
    StageCounts(p, p.(clients := p.clients[id := stage]), id, stage);
    assert id in Unfinished(p);
  }

  lemma SameClients(p: Process, q: Process)
    requires q.clients == p.clients
    ensures Unfinished(q) == Unfinished(p) && Streaming(q) == Streaming(p)
  {
  }

  /** A run: every action is enabled when its turn comes. */
  ghost predicate Reachable(p: Process, nowMs: Uint64, nowNs: Uint64, motionEnabled: bool, actions: seq<Action>)
    decreases |actions|
  {
    if actions == [] then p == Launch(nowMs, nowNs, motionEnabled)
    else
      var n := |actions| - 1;
      exists before: Process :: Reachable(before, nowMs, nowNs, motionEnabled, actions[..n])
                                && Enabled(before, actions[n]) && p == Next(before, actions[n])
  }

  lemma {:induction false} ReachableInv(p: Process, nowMs: Uint64, nowNs: Uint64, motionEnabled: bool,
                                        actions: seq<Action>)
    requires Reachable(p, nowMs, nowNs, motionEnabled, actions)
    ensures Inv(p)
    decreases |actions|
  {
    if actions == [] {
      LaunchInv(nowMs, nowNs, motionEnabled);
    } else {
      var n := |actions| - 1;
      var before: Process :| Reachable(before, nowMs, nowNs, motionEnabled, actions[..n])
                             && Enabled(before, actions[n]) && p == Next(before, actions[n]);
      ReachableInv(before, nowMs, nowNs, motionEnabled, actions[..n]);
      NextInv(before, actions[n]);
    }
  }

  /**
   In every interleaving: no thread can use the shared state once it is
   destroyed, and when it is destroyed no thread is left that could.
   */
  lemma NoUseAfterDestroy(p: Process, nowMs: Uint64, nowNs: Uint64, motionEnabled: bool, actions: seq<Action>,
                          a: Action)
    requires Reachable(p, nowMs, nowNs, motionEnabled, actions)
    requires Enabled(p, a) && Touches(p, a)
    ensures !p.destroyed
    ensures Next(p, a).destroyed ==>
              && p.capture != Running && p.motion != Running
              && forall id :: id in p.clients ==> p.clients[id] == Done
  {
    ReachableInv(p, nowMs, nowNs, motionEnabled, actions);
    if p.app.workers == 0 {
      assert Unfinished(p) == {};
      forall id | id in p.clients ensures p.clients[id] == Done {
        assert id !in Unfinished(p);
      }
    }
  }

  /** The counters count exactly the threads they stand for, at every moment. */
  lemma CountersAreExact(p: Process, nowMs: Uint64, nowNs: Uint64, motionEnabled: bool, actions: seq<Action>)
    requires Reachable(p, nowMs, nowNs, motionEnabled, actions)
    ensures p.app.workers == |Unfinished(p)| + Pending(p)
    ensures p.app.clients == |Streaming(p)|
    ensures p.app.clients <= p.app.workers
  {
    ReachableInv(p, nowMs, nowNs, motionEnabled, actions);
    assert Streaming(p) <= Unfinished(p);
    SubsetSize(Streaming(p), Unfinished(p));
  }

  /** Whenever a counter is to be decremented it is positive: the guards against underflow never act. */
  lemma DecrementsAreReal(p: Process, nowMs: Uint64, nowNs: Uint64, motionEnabled: bool, actions: seq<Action>,
                          a: Action)
    requires Reachable(p, nowMs, nowNs, motionEnabled, actions) && Enabled(p, a)
    ensures a.UncountClient? || a.ClientUncounts? ==> p.app.workers > 0 && Next(p, a).app.workers == p.app.workers - 1
    ensures a.ClientEndsStream? ==> p.app.clients > 0 && Next(p, a).app.clients == p.app.clients - 1
  {
    ReachableInv(p, nowMs, nowNs, motionEnabled, actions);
    if a.ClientUncounts? {
      assert a.id in Unfinished(p);
    }
    if a.ClientEndsStream? {
      assert a.id in Streaming(p);
    }
  }

  /** Shutdown waits: main destroys the state only after the stop was requested, or if no thread was ever created. */
  lemma DestroyedAfterStop(p: Process, nowMs: Uint64, nowNs: Uint64, motionEnabled: bool, actions: seq<Action>)
    requires Reachable(p, nowMs, nowNs, motionEnabled, actions) && p.destroyed && p.capture != NotStarted
    ensures Stopping(p.app.slot)
  {
    ReachableInv(p, nowMs, nowNs, motionEnabled, actions);
    StopInv(p, nowMs, nowNs, motionEnabled, actions);
  }

  predicate StopSeen(p: Process) {
    && (p.main in {StopSent, CaptureJoined, MotionJoined, ClientsGone, AbortStopSent, AbortJoined} ==> p.app.slot.stop)
    && (p.main == Exited && p.capture != NotStarted ==> p.app.slot.stop)
  }

  lemma StopKept(p: Process, a: Action)
    requires Inv(p) && StopSeen(p) && Enabled(p, a)
    ensures StopSeen(Next(p, a))
  {
  }

  lemma {:induction false} StopInv(p: Process, nowMs: Uint64, nowNs: Uint64, motionEnabled: bool, actions: seq<Action>)
    requires Reachable(p, nowMs, nowNs, motionEnabled, actions)
    ensures StopSeen(p)
    decreases |actions|
  {
    if actions != [] {
      var n := |actions| - 1;
      var before: Process :| Reachable(before, nowMs, nowNs, motionEnabled, actions[..n])
                             && Enabled(before, actions[n]) && p == Next(before, actions[n]);
      StopInv(before, nowMs, nowNs, motionEnabled, actions[..n]);
      ReachableInv(before, nowMs, nowNs, motionEnabled, actions[..n]);
      StopKept(before, actions[n]);
    }
  }

  // ------------------------------------------------------ shutdown can complete

  function ClientWork(stage: ClientStage): nat {
    match stage
    case Serves => 2
    case Streams => 2
    case Closing => 1
    case Done => 0
  }

  /** What the clients with numbers below n have left to do. */
  function ClientsLeft(clients: map<nat, ClientStage>, n: nat): nat {
    if n == 0 then 0
    else ClientsLeft(clients, n - 1) + if n - 1 in clients then ClientWork(clients[n - 1]) else 0
  }

  function MainLeft(main: MainStage): nat {
    match main
    case Exited => 0
    case Initialised => 1
    case ClientsGone => 1
    case AbortJoined => 1
    case MotionJoined => 2
    case AbortStopSent => 2
    case CaptureJoined => 3
    case MotionNotCreated => 3
    case StopSent => 4
    case CaptureCreated => 4
    case Served => 5
    case Serving => 6
    case ClientNotCreated => 7
    case CountedClient => 8
  }

  function Left(p: Process): nat {
    MainLeft(p.main) + (if p.capture == Running then 1 else 0) + (if p.motion == Running then 1 else 0)
    + ClientsLeft(p.clients, p.nextId)
  }

  /** A client that has moved on leaves less to do. */
  lemma {:induction false} ClientMoves(before: map<nat, ClientStage>, id: nat, stage: ClientStage, n: nat)
    requires id in before && ClientWork(stage) < ClientWork(before[id])
    ensures ClientsLeft(before[id := stage], n) <= ClientsLeft(before, n)
    ensures id < n ==> ClientsLeft(before[id := stage], n) < ClientsLeft(before, n)
  {
    if n > 0 {
      ClientMoves(before, id, stage, n - 1);
    }
  }

  /** What is done next on the way out; main waits for whoever is still at work. */
  function WayOut(p: Process, client: nat): Action {
    match p.main
    case Initialised => CreateCapture(false)
    case CaptureCreated => CreateMotion(false)
    case Serving => ServerReturns
    case CountedClient => CreateClient(false)
    case ClientNotCreated => UncountClient
    case Served => SendStop
    case MotionNotCreated => SendStop
    case StopSent => if p.capture == Running then CaptureReturns else JoinCapture
    case AbortStopSent => if p.capture == Running then CaptureReturns else JoinCapture
    case CaptureJoined => if p.motion == Running then MotionReturns else JoinMotion
    case MotionJoined =>
      if p.app.workers == 0 then WaitForClients
      else if InStage(p, client, Closing) then ClientUncounts(client)
      else if InStage(p, client, Streams) then ClientEndsStream(client)
      else ClientCloses(client)
    case _ => Destroy
  }

  lemma UnfinishedClient(p: Process) returns (id: nat)
    requires Inv(p) && p.main == MotionJoined && p.app.workers > 0
    ensures id in p.clients && p.clients[id] != Done
  {
    assert |Unfinished(p)| > 0;
    id :| id in Unfinished(p);
  }

  /** Wherever the process stands, one of its threads can take a step that leaves less to do. */
  lemma ShutdownMoves(p: Process) returns (a: Action)
    requires Inv(p) && p.main != Exited
    ensures Enabled(p, a) && Left(Next(p, a)) < Left(p)
  {
    var client := 0;
    if p.main == MotionJoined && p.app.workers > 0 {
      client := UnfinishedClient(p);
      var stage := if p.clients[client] == Closing then Done else Closing;
      ClientMoves(p.clients, client, stage, p.nextId);
    }
    a := WayOut(p, client);
  }

  /** Nothing blocks for good: from every reachable state the shutdown can be completed. */
  lemma {:induction false} ShutdownCompletes(p: Process, nowMs: Uint64, nowNs: Uint64, motionEnabled: bool,
                                             actions: seq<Action>)
    returns (last: Process, more: seq<Action>)
    requires Reachable(p, nowMs, nowNs, motionEnabled, actions)
    ensures Reachable(last, nowMs, nowNs, motionEnabled, actions + more) && last.main == Exited && last.destroyed
    decreases Left(p)
  {
    if p.main == Exited {
      ReachableInv(p, nowMs, nowNs, motionEnabled, actions);
      last, more := p, [];
      NothingMore(actions);
    } else {
      var a, q := ShutdownGoesOn(p, nowMs, nowNs, motionEnabled, actions);
      var rest;
      last, rest := ShutdownCompletes(q, nowMs, nowNs, motionEnabled, actions + [a]);
      more := [a] + rest;
      OneMore(actions, a, rest);
    }
  }

  lemma NothingMore(actions: seq<Action>)
    ensures actions + [] == actions
  {
  }

  lemma OneMore(actions: seq<Action>, a: Action, rest: seq<Action>)
    ensures actions + [a] + rest == actions + ([a] + rest)
  {
  }

  lemma ShutdownGoesOn(p: Process, nowMs: Uint64, nowNs: Uint64, motionEnabled: bool, actions: seq<Action>)
    returns (a: Action, q: Process)
    requires Reachable(p, nowMs, nowNs, motionEnabled, actions) && p.main != Exited
    ensures Reachable(q, nowMs, nowNs, motionEnabled, actions + [a]) && Left(q) < Left(p)
  {
    ReachableInv(p, nowMs, nowNs, motionEnabled, actions);
    a := ShutdownMoves(p);
    ReachableNext(p, nowMs, nowNs, motionEnabled, actions, a);
    q := Next(p, a);
  }

  lemma ReachableNext(p: Process, nowMs: Uint64, nowNs: Uint64, motionEnabled: bool, actions: seq<Action>, a: Action)
    requires Reachable(p, nowMs, nowNs, motionEnabled, actions) && Enabled(p, a)
    ensures Reachable(Next(p, a), nowMs, nowNs, motionEnabled, actions + [a])
  {
    assert (actions + [a])[..|actions|] == actions;
  }
}
