/**
 How accepted sockets reach the workers: a mutex-protected queue and an eventfd
 per worker, a batch event loop that installs new connections only after the
 batch, and a shutdown that joins the acceptor before it stops the workers.

 Every atomic access and every critical section is one step; steps of different
 threads interleave arbitrarily.  A socket is known by the order in which it was
 accepted; its descriptor number may be reused as soon as it is closed.
 */
module Handoff {
  import opened Basics

  const MAX_EVENTS: nat := 64
  const SOURCE_COUNT: nat := 3
  const COUNTER_MAX: nat := 0xFFFF_FFFF_FFFF_FFFE

  /** A readiness event; `socket` is the connection the kernel reported on. */
  datatype Event = Wakeup | Ready(fd: nat, socket: nat)

  datatype Phase =
    | AtLoop | Waiting | InBatch | ReadyToInstall | Installing | ClearingConnections | ClearingPending | Finished

  datatype Worker = Worker(
    pending: seq<nat>,
    counter: nat,
    stop: bool,
    phase: Phase,
    batch: seq<Event>,
    wakeupSeen: bool,
    moving: seq<nat>,
    connections: map<nat, nat>)

  /** What the acceptor's own epoll can report. */
  datatype Source = StopEvent | Timer | Listener

  /** `AtTop` and `Accepting` are about to test the stop flag, `Calling` is about to call `accept4`. */
  datatype Acceptor =
    | AtTop | Asleep | Polling | Accepting | Calling | Holding(fd: nat, worker: nat) | Waking(worker: nat) | Exited

  /** `Stopping(k, stored)`: workers before `k` are stopped and woken; `stored` says the flag of `k` is set already. */
  datatype Joiner = NotJoining | Stopping(worker: nat, stored: bool) | Joined

  datatype Place = WithAcceptor | Queued(worker: nat) | Moving(worker: nat) | Connected(worker: nat)

  /**
   The acceptor's side: where it is, its events still to be handled, the stop flag,
   the stop event's counter, the threads that have set the flag and not yet written
   to the stop event, and the round-robin index.
   */
  datatype Front = Front(
    acceptor: Acceptor,
    sources: seq<Source>,
    stopServer: bool,
    stopCounter: nat,
    stoppers: nat,
    nextWorker: nat)

  /**
   `sockets` maps each open descriptor to its socket, `descriptors` is its
   inverse, `places` says who holds the descriptor, and `closes` counts how often
   each accepted socket has been closed.
   */
  datatype State = State(
    workers: seq<Worker>,
    front: Front,
    joiner: Joiner,
    sockets: map<nat, nat>,
    descriptors: map<nat, nat>,
    places: map<nat, Place>,
    closes: seq<nat>)

  /** Steps of the acceptor's loop and of threads that request a stop; they touch no descriptor and no worker. */
  datatype FrontStep =
    | CheckTop
    | PollInterrupted
    | PollReturns(sources: seq<Source>)
    | HandleSource
    | EndPoll
    | CheckAccept
    | AcceptFails(retry: bool)
    | RequestStop
    | WakeAcceptor

  datatype JoinStep = JoinAcceptor | StoreStop | WakeStopped | JoinWorkers

  datatype WorkStep =
    | CheckLoop
    | WaitInterrupted
    | WaitReturns(batch: seq<Event>)
    | HandleEvent(drop: bool)
    | EndBatch
    | TakePending
    | Install(registered: bool)
    | EndInstall
    | CloseConnection(fd: nat)
    | EndConnections
    | CloseQueued
    | EndQueued

  datatype Step =
    | ByFront(front: FrontStep)
    | Accept(fd: nat)
    | Enqueue
    | Wake
    | ByJoiner(join: JoinStep)
    | ByWorker(worker: nat, work: WorkStep)

  // ---- Transitions ----

  function FreshWorker(): Worker {
    Worker([], 0, false, AtLoop, [], false, [], map[])
  }

  ghost predicate Init(s: State) {
    && s.workers != []
    && (forall w :: 0 <= w < |s.workers| ==> s.workers[w] == FreshWorker())
    && s.front == Front(AtTop, [], false, 0, 0, 0) && s.joiner == NotJoining
    && s.sockets == map[] && s.descriptors == map[] && s.places == map[] && s.closes == []
  }

  function Bump(counter: nat): nat {
    if counter < COUNTER_MAX then counter + 1 else counter
  }

  function Update(s: State, w: nat, worker: Worker): State
    requires w < |s.workers|
  {
    s.(workers := s.workers[w := worker])
  }

  function Move(s: State, fd: nat, place: Place): State {
    s.(places := s.places[fd := place])
  }

  function AcceptorTo(s: State, acceptor: Acceptor): State {
    s.(front := s.front.(acceptor := acceptor))
  }

  /** `close(fd)`: the number is free again. */
  function Close(s: State, fd: nat): State {
    if fd in s.sockets && s.sockets[fd] < |s.closes| then
      var socket := s.sockets[fd];
      s.(sockets := s.sockets - {fd}, descriptors := s.descriptors - {socket}, places := s.places - {fd},
         closes := s.closes[socket := s.closes[socket] + 1])
    else s
  }

  // The acceptor's loop.

  /** Its epoll watches three descriptors; the stop event is reported only while its counter is positive. */
  ghost predicate CanPoll(front: Front, sources: seq<Source>) {
    && 0 < |sources| <= SOURCE_COUNT
    && (forall i, j :: 0 <= i < j < |sources| ==> sources[i] != sources[j])
    && (StopEvent in sources ==> 0 < front.stopCounter)
  }

  ghost predicate FrontEnabled(front: Front, step: FrontStep) {
    match step
    case CheckTop => front.acceptor.AtTop?
    case PollInterrupted => front.acceptor.Asleep?
    case PollReturns(sources) => front.acceptor.Asleep? && CanPoll(front, sources)
    case HandleSource => front.acceptor.Polling? && front.sources != []
    case EndPoll => front.acceptor.Polling? && front.sources == []
    case CheckAccept => front.acceptor.Accepting?
    case AcceptFails(_) => front.acceptor.Calling?
    case RequestStop => true
    case WakeAcceptor => 0 < front.stoppers
  }

  /** The stop event is drained, a timer ticks the engine, and the listener starts the accept loop. */
  function AfterSource(front: Front): Front {
    if front.sources == [] then front else
      var rest := front.(sources := front.sources[1..]);
      match front.sources[0]
      case StopEvent => rest.(stopCounter := 0)
      case Timer => rest
      case Listener => rest.(acceptor := Accepting)
  }

  function NextFront(front: Front, step: FrontStep): Front {
    match step
    case CheckTop => front.(acceptor := if front.stopServer then Exited else Asleep)
    case PollInterrupted => front.(acceptor := AtTop)
    case PollReturns(sources) => front.(acceptor := Polling, sources := sources)
    case HandleSource => AfterSource(front)
    case EndPoll => front.(acceptor := AtTop)
    case CheckAccept => front.(acceptor := if front.stopServer then Polling else Calling)
    case AcceptFails(retry) => front.(acceptor := if retry then Accepting else Polling)
    case RequestStop => front.(stopServer := true, stoppers := front.stoppers + 1)
    case WakeAcceptor =>
      if front.stoppers == 0 then front
      else front.(stopCounter := Bump(front.stopCounter), stoppers := front.stoppers - 1)
  }

  // Accepting a socket and handing it over.

  ghost predicate Shaped(s: State) {
    && s.workers != []
    && (s.front.acceptor.Holding? ==> s.front.acceptor.worker < |s.workers|)
    && (s.front.acceptor.Waking? ==> s.front.acceptor.worker < |s.workers|)
  }

  function AfterAccept(s: State, fd: nat): State
    requires s.workers != []
  {
    s.(front := s.front.(acceptor := Holding(fd, s.front.nextWorker % |s.workers|), nextWorker := s.front.nextWorker + 1),
       sockets := s.sockets[fd := |s.closes|], descriptors := s.descriptors[|s.closes| := fd],
       places := s.places[fd := WithAcceptor], closes := s.closes + [0])
  }

  ghost function AfterEnqueue(s: State): State
    requires Shaped(s) && s.front.acceptor.Holding?
  {
    var fd, w := s.front.acceptor.fd, s.front.acceptor.worker;
    var worker := s.workers[w];
    if worker.stop then AcceptorTo(Close(s, fd), Accepting)
    else AcceptorTo(Move(Update(s, w, worker.(pending := worker.pending + [fd])), fd, Queued(w)), Waking(w))
  }

  ghost function AfterWake(s: State): State
    requires Shaped(s) && s.front.acceptor.Waking?
  {
    var w := s.front.acceptor.worker;
    AcceptorTo(Update(s, w, s.workers[w].(counter := Bump(s.workers[w].counter))), Accepting)
  }

  // The joining thread.

  ghost predicate JoinEnabled(s: State, step: JoinStep) {
    match step
    case JoinAcceptor => s.joiner.NotJoining? && s.front.acceptor.Exited?
    case StoreStop => s.joiner.Stopping? && !s.joiner.stored && s.joiner.worker < |s.workers|
    case WakeStopped => s.joiner.Stopping? && s.joiner.stored && s.joiner.worker < |s.workers|
    case JoinWorkers =>
      && s.joiner == Stopping(|s.workers|, false)
      && forall w :: 0 <= w < |s.workers| ==> s.workers[w].phase == Finished
  }

  ghost function NextJoin(s: State, step: JoinStep): (t: State)
    requires JoinEnabled(s, step)
    ensures |t.workers| == |s.workers|
  {
    match step
    case JoinAcceptor => s.(joiner := Stopping(0, false))
    case StoreStop =>
      var w := s.joiner.worker;
      Update(s, w, s.workers[w].(stop := true)).(joiner := Stopping(w, true))
    case WakeStopped =>
      var w := s.joiner.worker;
      Update(s, w, s.workers[w].(counter := Bump(s.workers[w].counter))).(joiner := Stopping(w + 1, false))
    case JoinWorkers => s.(joiner := Joined)
  }

  // A worker's event loop.

  /** epoll_wait reports registered connections, and the eventfd only while its counter is positive. */
  ghost predicate CanReport(worker: Worker, batch: seq<Event>) {
    && 0 < |batch| <= MAX_EVENTS
    && (forall i, j :: 0 <= i < j < |batch| ==> batch[i] != batch[j])
    && (forall e :: e in batch ==>
          match e
          case Wakeup => 0 < worker.counter
          case Ready(fd, socket) => fd in worker.connections && worker.connections[fd] == socket)
  }

  ghost predicate WorkEnabled(worker: Worker, step: WorkStep) {
    match step
    case CheckLoop => worker.phase.AtLoop?
    case WaitInterrupted => worker.phase.Waiting?
    case WaitReturns(batch) => worker.phase.Waiting? && CanReport(worker, batch)
    case HandleEvent(_) => worker.phase.InBatch? && worker.batch != []
    case EndBatch => worker.phase.InBatch? && worker.batch == []
    case TakePending => worker.phase.ReadyToInstall?
    case Install(_) => worker.phase.Installing? && worker.moving != []
    case EndInstall => worker.phase.Installing? && worker.moving == []
    case CloseConnection(fd) => worker.phase.ClearingConnections? && fd in worker.connections
    case EndConnections => worker.phase.ClearingConnections? && worker.connections == map[]
    case CloseQueued => worker.phase.ClearingPending? && worker.pending != []
    case EndQueued => worker.phase.ClearingPending? && worker.pending == []
  }

  ghost predicate CanWork(s: State, w: nat, step: WorkStep) {
    w < |s.workers| && WorkEnabled(s.workers[w], step)
  }

  function Handled(worker: Worker): Worker
    requires worker.batch != []
  {
    var rest := worker.(batch := worker.batch[1..]);
    if worker.batch[0].Wakeup? then rest.(counter := 0, wakeupSeen := true) else rest
  }

  function Taken(places: map<nat, Place>, w: nat): map<nat, Place> {
    map fd | fd in places :: if places[fd] == Queued(w) then Moving(w) else places[fd]
  }

  ghost function NextWorker(s: State, w: nat, step: WorkStep): (t: State)
    requires CanWork(s, w, step)
    ensures |t.workers| == |s.workers|
  {
    var worker := s.workers[w];
    match step
    case CheckLoop => Update(s, w, worker.(phase := if worker.stop then ClearingConnections else Waiting))
    case WaitInterrupted => Update(s, w, worker.(phase := AtLoop))
    case WaitReturns(batch) => Update(s, w, worker.(phase := InBatch, batch := batch, wakeupSeen := false))
    case HandleEvent(drop) =>
      var fd := if worker.batch[0].Ready? then worker.batch[0].fd else 0;
      if worker.batch[0].Ready? && drop && fd in worker.connections
      then Close(Update(s, w, Handled(worker).(connections := worker.connections - {fd})), fd)
      else Update(s, w, Handled(worker))
    case EndBatch =>
      Update(s, w, worker.(phase := if worker.wakeupSeen && !worker.stop then ReadyToInstall else AtLoop))
    case TakePending =>
      Update(s, w, worker.(phase := Installing, pending := [], moving := worker.pending)).(places := Taken(s.places, w))
    case Install(registered) =>
      var fd, rest := worker.moving[0], worker.(moving := worker.moving[1..]);
      if fd in worker.connections || !registered || fd !in s.sockets then Close(Update(s, w, rest), fd)
      else Move(Update(s, w, rest.(connections := worker.connections[fd := s.sockets[fd]])), fd, Connected(w))
    case EndInstall => Update(s, w, worker.(phase := AtLoop))
    case CloseConnection(fd) => Close(Update(s, w, worker.(connections := worker.connections - {fd})), fd)
    case EndConnections => Update(s, w, worker.(phase := ClearingPending))
    case CloseQueued => Close(Update(s, w, worker.(pending := worker.pending[1..])), worker.pending[0])
    case EndQueued => Update(s, w, worker.(phase := Finished))
  }

  // All threads.

  ghost predicate Enabled(s: State, step: Step) {
    match step
    case ByFront(front) => FrontEnabled(s.front, front)
    case Accept(fd) => s.front.acceptor.Calling? && fd !in s.sockets
    case Enqueue => s.front.acceptor.Holding?
    case Wake => s.front.acceptor.Waking?
    case ByJoiner(join) => JoinEnabled(s, join)
    case ByWorker(w, work) => CanWork(s, w, work)
  }

  ghost function Next(s: State, step: Step): (t: State)
    requires Shaped(s) && Enabled(s, step)
    ensures |t.workers| == |s.workers|
  {
    match step
    case ByFront(front) => s.(front := NextFront(s.front, front))
    case Accept(fd) => AfterAccept(s, fd)
    case Enqueue => AfterEnqueue(s)
    case Wake => AfterWake(s)
    case ByJoiner(join) => NextJoin(s, join)
    case ByWorker(w, work) => NextWorker(s, w, work)
  }

  // ---- The invariant ----

  /** Open descriptors and open sockets correspond one to one, and every other socket has been closed exactly once. */
  ghost predicate Books(sockets: map<nat, nat>, descriptors: map<nat, nat>, places: map<nat, Place>, closes: seq<nat>) {
    && places.Keys == sockets.Keys
    && (forall fd :: fd in sockets ==>
          sockets[fd] < |closes| && sockets[fd] in descriptors && descriptors[sockets[fd]] == fd)
    && (forall socket :: socket in descriptors ==>
          descriptors[socket] in sockets && sockets[descriptors[socket]] == socket)
    && (forall socket :: 0 <= socket < |closes| ==> closes[socket] == if socket in descriptors then 0 else 1)
  }

  ghost predicate Bookkeeping(s: State) {
    Books(s.sockets, s.descriptors, s.places, s.closes)
  }

  ghost predicate AcceptorHolds(acceptor: Acceptor, places: map<nat, Place>) {
    && (forall fd :: fd in places && places[fd] == WithAcceptor ==> acceptor.Holding? && acceptor.fd == fd)
    && (acceptor.Holding? ==> acceptor.fd in places && places[acceptor.fd] == WithAcceptor)
  }

  /** A worker holds exactly the descriptors whose place it is. */
  ghost predicate Owns(worker: Worker, w: nat, places: map<nat, Place>, sockets: map<nat, nat>) {
    && NoDuplicates(worker.pending) && NoDuplicates(worker.moving)
    && (forall fd :: fd in worker.pending <==> fd in places && places[fd] == Queued(w))
    && (forall fd :: fd in worker.moving <==> fd in places && places[fd] == Moving(w))
    && (forall fd :: fd in worker.connections <==> fd in places && places[fd] == Connected(w))
    && (forall fd :: fd in worker.connections ==> fd in sockets && worker.connections[fd] == sockets[fd])
  }

  /** Events still to be handled name the connection that is installed under their number, if any. */
  ghost predicate BatchIsCurrent(worker: Worker) {
    forall e :: e in worker.batch && e.Ready? && e.fd in worker.connections ==> worker.connections[e.fd] == e.socket
  }

  predicate Leaving(phase: Phase) {
    phase.ClearingConnections? || phase.ClearingPending? || phase.Finished?
  }

  ghost predicate PhaseOk(worker: Worker) {
    && (worker.moving != [] ==> worker.phase.Installing?)
    && (worker.batch != [] ==> worker.phase.InBatch?)
    && (Leaving(worker.phase) ==> worker.stop)
    && (worker.phase.ClearingPending? || worker.phase.Finished? ==> worker.connections == map[])
    && (worker.phase.Finished? ==> worker.pending == [])
  }

  /** No lost wakeup: a queued socket is never left with nobody to announce it. */
  ghost predicate Awake(worker: Worker, w: nat, acceptor: Acceptor) {
    worker.pending != [] ==>
      || acceptor == Waking(w)
      || 0 < worker.counter
      || (worker.wakeupSeen && (worker.phase.InBatch? || worker.phase.ReadyToInstall?))
      || worker.stop
  }

  predicate Told(joiner: Joiner, w: nat) {
    joiner.Joined? || (joiner.Stopping? && (w < joiner.worker || (w == joiner.worker && joiner.stored)))
  }

  /** Workers are stopped after the acceptor has gone, and a stopped worker is not left sleeping. */
  ghost predicate StopOk(worker: Worker, w: nat, joiner: Joiner) {
    && (worker.stop <==> Told(joiner, w))
    && (worker.stop && worker.phase.Waiting? ==> 0 < worker.counter || joiner == Stopping(w, true))
  }

  ghost predicate WorkerOk(s: State, w: nat)
    requires w < |s.workers|
  {
    var worker := s.workers[w];
    && Owns(worker, w, s.places, s.sockets)
    && BatchIsCurrent(worker)
    && PhaseOk(worker)
    && Awake(worker, w, s.front.acceptor)
    && StopOk(worker, w, s.joiner)
  }

  ghost predicate JoinerOk(s: State) {
    && (!s.joiner.NotJoining? ==> s.front.acceptor.Exited?)
    && (s.joiner.Stopping? ==> s.joiner.worker <= |s.workers| && (s.joiner.stored ==> s.joiner.worker < |s.workers|))
    && (s.joiner.Joined? ==> forall w :: 0 <= w < |s.workers| ==> s.workers[w].phase == Finished)
  }

  /** No lost stop: an acceptor that sleeps although it should stop has been or is about to be woken. */
  ghost predicate AcceptorOk(front: Front) {
    && (front.acceptor.Asleep? && front.stopServer ==> 0 < front.stopCounter || 0 < front.stoppers)
    && (front.sources != [] ==> !front.acceptor.AtTop? && !front.acceptor.Asleep? && !front.acceptor.Exited?)
    && |front.sources| <= SOURCE_COUNT
    && (front.acceptor.Exited? ==> front.stopServer)
  }

  /** Every descriptor's place is a worker that exists. */
  ghost predicate PlacesExist(s: State) {
    forall fd :: fd in s.places ==>
      match s.places[fd]
      case WithAcceptor => true
      case Queued(w) => w < |s.workers|
      case Moving(w) => w < |s.workers|
      case Connected(w) => w < |s.workers|
  }

  ghost predicate Inv(s: State) {
    && Shaped(s)
    && Bookkeeping(s)
    && AcceptorHolds(s.front.acceptor, s.places)
    && PlacesExist(s)
    && JoinerOk(s)
    && AcceptorOk(s.front)
    && forall w :: 0 <= w < |s.workers| ==> WorkerOk(s, w)
  }

  lemma InitInv(s: State)
    requires Init(s)
    ensures Inv(s)
  {
  }

  // ---- Framing ----

  ghost predicate Foreign(places: map<nat, Place>, fd: nat, w: nat) {
    fd in places ==> places[fd] !in {Queued(w), Moving(w), Connected(w)}
  }

  /** A descriptor that is not this worker's before or after changes nothing for this worker. */
  lemma OwnsFrame(worker: Worker, w: nat, places: map<nat, Place>, sockets: map<nat, nat>,
                  places': map<nat, Place>, sockets': map<nat, nat>, fd: nat)
    requires Owns(worker, w, places, sockets) && Foreign(places, fd, w) && Foreign(places', fd, w)
    requires forall x :: x != fd ==> (x in places <==> x in places') && (x in places ==> places[x] == places'[x])
    requires forall x :: x != fd && x in sockets ==> x in sockets' && sockets[x] == sockets'[x]
    ensures Owns(worker, w, places', sockets')
  {
  }

  lemma CloseBooks(s: State, fd: nat)
    requires Bookkeeping(s) && fd in s.sockets
    ensures Bookkeeping(Close(s, fd))
    ensures Close(s, fd).places == s.places - {fd} && Close(s, fd).sockets == s.sockets - {fd}
    ensures Close(s, fd).workers == s.workers && Close(s, fd).front == s.front && Close(s, fd).joiner == s.joiner
  {
  }

  /** A worker changes its own record but holds what it held. */
  lemma LocalStep(s: State, w: nat, worker: Worker)
    requires Inv(s) && w < |s.workers|
    requires var was := s.workers[w];
             worker.pending == was.pending && worker.moving == was.moving && worker.connections == was.connections
    requires BatchIsCurrent(worker) && PhaseOk(worker) && Awake(worker, w, s.front.acceptor) && StopOk(worker, w, s.joiner)
    requires s.joiner.Joined? ==> worker.phase == Finished
    ensures Inv(Update(s, w, worker))
  {
    hide Books, AcceptorHolds, BatchIsCurrent, PhaseOk, Awake, StopOk, NoDuplicates;
    var t := Update(s, w, worker);
    forall v | 0 <= v < |t.workers| ensures WorkerOk(t, v) {
      assert WorkerOk(s, v) && WorkerOk(s, w);
    }
  }

  lemma ReleasePlaces(s: State, w: nat, worker: Worker, fd: nat)
    requires AcceptorHolds(s.front.acceptor, s.places) && PlacesExist(s) && w < |s.workers| && !Foreign(s.places, fd, w)
    ensures AcceptorHolds(s.front.acceptor, s.places - {fd})
    ensures PlacesExist(Close(Update(s, w, worker), fd))
  {
  }

  /** A worker closes a descriptor it held. */
  lemma ReleaseStep(s: State, w: nat, worker: Worker, fd: nat)
    requires Inv(s) && w < |s.workers| && fd in s.sockets && !Foreign(s.places, fd, w)
    requires Owns(worker, w, s.places - {fd}, s.sockets - {fd})
    requires BatchIsCurrent(worker) && PhaseOk(worker) && Awake(worker, w, s.front.acceptor) && StopOk(worker, w, s.joiner)
    requires s.joiner.Joined? ==> worker.phase == Finished
    ensures Inv(Close(Update(s, w, worker), fd))
  {
    var t := Close(Update(s, w, worker), fd);
    CloseBooks(Update(s, w, worker), fd);
    ReleasePlaces(s, w, worker, fd);
    hide Books, BatchIsCurrent, PhaseOk, Awake, StopOk, Owns, Close, AcceptorHolds, PlacesExist;
    forall v | 0 <= v < |t.workers| ensures WorkerOk(t, v) {
      assert WorkerOk(s, v);
      if v != w {
        OwnsFrame(s.workers[v], v, s.places, s.sockets, t.places, t.sockets, fd);
      }
    }
  }

  /** Whether a descriptor may pass to `place`, a place at worker `w`, while the acceptor goes on to `acceptor`. */
  ghost predicate MayMove(s: State, w: nat, fd: nat, place: Place, acceptor: Acceptor) {
    && w < |s.workers| && fd in s.sockets && fd in s.places
    && (place == Queued(w) || place == Moving(w) || place == Connected(w))
    && (if s.places[fd] == WithAcceptor then acceptor == Waking(w)
        else acceptor == s.front.acceptor && s.places[fd] in {Queued(w), Moving(w), Connected(w)})
  }

  lemma MovePlaces(s: State, w: nat, worker: Worker, fd: nat, place: Place, acceptor: Acceptor)
    requires Shaped(s) && Bookkeeping(s) && AcceptorHolds(s.front.acceptor, s.places) && PlacesExist(s)
    requires MayMove(s, w, fd, place, acceptor)
    ensures var t := AcceptorTo(Move(Update(s, w, worker), fd, place), acceptor);
            Shaped(t) && Bookkeeping(t) && AcceptorHolds(acceptor, t.places) && PlacesExist(t)
  {
  }

  lemma MoveJoiner(s: State, w: nat, worker: Worker, fd: nat, place: Place, acceptor: Acceptor)
    requires AcceptorHolds(s.front.acceptor, s.places) && JoinerOk(s) && AcceptorOk(s.front)
    requires MayMove(s, w, fd, place, acceptor) && (s.joiner.Joined? ==> worker.phase == Finished)
    ensures var t := AcceptorTo(Move(Update(s, w, worker), fd, place), acceptor);
            JoinerOk(t) && AcceptorOk(t.front)
  {
  }

  lemma MoveOthers(s: State, w: nat, worker: Worker, fd: nat, place: Place, acceptor: Acceptor, v: nat)
    requires AcceptorHolds(s.front.acceptor, s.places) && MayMove(s, w, fd, place, acceptor)
    requires v < |s.workers| && v != w && WorkerOk(s, v)
    ensures WorkerOk(AcceptorTo(Move(Update(s, w, worker), fd, place), acceptor), v)
  {
    hide BatchIsCurrent, PhaseOk, StopOk, Owns;
    var t := AcceptorTo(Move(Update(s, w, worker), fd, place), acceptor);
    OwnsFrame(s.workers[v], v, s.places, s.sockets, t.places, t.sockets, fd);
  }

  /** A descriptor passes from one place to another, and the worker that takes part knows it. */
  lemma MoveStep(s: State, w: nat, worker: Worker, fd: nat, place: Place, acceptor: Acceptor)
    requires Inv(s) && w < |s.workers| && MayMove(s, w, fd, place, acceptor)
    requires Owns(worker, w, s.places[fd := place], s.sockets)
    requires BatchIsCurrent(worker) && PhaseOk(worker) && Awake(worker, w, acceptor) && StopOk(worker, w, s.joiner)
    requires s.joiner.Joined? ==> worker.phase == Finished
    ensures Inv(AcceptorTo(Move(Update(s, w, worker), fd, place), acceptor))
  {
    hide Books, AcceptorHolds, PlacesExist, JoinerOk, AcceptorOk, MayMove, BatchIsCurrent, PhaseOk, StopOk, Awake, Owns;
    var t := AcceptorTo(Move(Update(s, w, worker), fd, place), acceptor);
    MovePlaces(s, w, worker, fd, place, acceptor);
    MoveJoiner(s, w, worker, fd, place, acceptor);
    forall v | 0 <= v < |t.workers| ensures WorkerOk(t, v) {
      if v != w {
        MoveOthers(s, w, worker, fd, place, acceptor, v);
      }
    }
  }

  // ---- Every step keeps it ----

  lemma AcceptInv(s: State, fd: nat)
    requires Inv(s) && Enabled(s, Accept(fd))
    ensures Inv(AfterAccept(s, fd))
  {
    var t := AfterAccept(s, fd);
    AcceptBooks(s, fd);
    AcceptPlaces(s, fd);
    hide Books, AcceptorHolds, PlacesExist, BatchIsCurrent, PhaseOk, StopOk, Owns, AfterAccept;
    forall v | 0 <= v < |t.workers| ensures WorkerOk(t, v) {
      AcceptOthers(s, fd, v);
    }
  }

  lemma AcceptPlaces(s: State, fd: nat)
    requires Inv(s) && Enabled(s, Accept(fd))
    ensures var t := AfterAccept(s, fd);
            Shaped(t) && AcceptorHolds(t.front.acceptor, t.places) && PlacesExist(t) && JoinerOk(t) && AcceptorOk(t.front)
            && t.workers == s.workers
  {
    hide WorkerOk;
    assert fd !in s.places;
  }

  lemma AcceptOthers(s: State, fd: nat, v: nat)
    requires Inv(s) && Enabled(s, Accept(fd)) && v < |s.workers|
    ensures WorkerOk(AfterAccept(s, fd), v)
  {
    hide Books, AcceptorHolds, PlacesExist, BatchIsCurrent, PhaseOk, StopOk, Owns, JoinerOk, AcceptorOk;
    var t := AfterAccept(s, fd);
    assert WorkerOk(s, v);
    assert Foreign(s.places, fd, v) by {
      assert s.places.Keys == s.sockets.Keys by {
        BooksKeys(s);
      }
    }
    OwnsFrame(s.workers[v], v, s.places, s.sockets, t.places, t.sockets, fd);
  }

  lemma BooksKeys(s: State)
    requires Bookkeeping(s)
    ensures s.places.Keys == s.sockets.Keys
  {
  }

  lemma AcceptBooks(s: State, fd: nat)
    requires Bookkeeping(s) && fd !in s.sockets
    ensures Books(s.sockets[fd := |s.closes|], s.descriptors[|s.closes| := fd], s.places[fd := WithAcceptor], s.closes + [0])
  {
  }

  /** While the acceptor holds a socket no worker has been stopped, so the queue takes it. */
  lemma EnqueueInv(s: State)
    requires Inv(s) && Enabled(s, Enqueue)
    ensures !s.workers[s.front.acceptor.worker].stop
    ensures Inv(AfterEnqueue(s))
  {
    var fd, w := s.front.acceptor.fd, s.front.acceptor.worker;
    var worker := s.workers[w];
    assert WorkerOk(s, w);
    var longer := worker.(pending := worker.pending + [fd]);
    assert Owns(longer, w, s.places[fd := Queued(w)], s.sockets) by {
      NoDuplicatesAppend(worker.pending, fd);
    }
    MoveStep(s, w, longer, fd, Queued(w), Waking(w));
  }

  lemma WakeInv(s: State)
    requires Inv(s) && Enabled(s, Wake)
    ensures Inv(AfterWake(s))
  {
    var w := s.front.acceptor.worker;
    var worker := s.workers[w].(counter := Bump(s.workers[w].counter));
    var t := Update(s, w, worker);
    assert Inv(t) && AcceptorOk(s.front) && 0 < t.workers[w].counter by {
      hide Books, AcceptorHolds, PlacesExist, Owns, JoinerOk, AcceptorOk;
      assert WorkerOk(s, w);
      LocalStep(s, w, worker);
    }
    hide Inv, WorkerOk;
    FrontInv(t, s.front.(acceptor := Accepting));
  }

  /** The acceptor and the stopping threads move on without touching a descriptor or a worker. */
  lemma FrontInv(s: State, front: Front)
    requires Inv(s) && AcceptorOk(front)
    requires front.acceptor == s.front.acceptor || (!s.front.acceptor.Holding? && !front.acceptor.Holding?)
    requires front.acceptor == s.front.acceptor || !front.acceptor.Waking?
    requires front.acceptor == s.front.acceptor || !s.front.acceptor.Waking? || 0 < s.workers[s.front.acceptor.worker].counter
    requires s.front.acceptor.Exited? ==> front.acceptor.Exited?
    ensures Inv(s.(front := front))
  {
    hide Books, BatchIsCurrent, PhaseOk, StopOk, Owns, AcceptorOk;
    var t := s.(front := front);
    forall v | 0 <= v < |t.workers| ensures WorkerOk(t, v) {
      assert WorkerOk(s, v);
    }
  }

  lemma FrontStepOk(front: Front, step: FrontStep)
    requires AcceptorOk(front) && FrontEnabled(front, step)
    ensures AcceptorOk(NextFront(front, step))
  {
  }

  /** The acceptor's own loop, and the threads that ask it to stop. */
  lemma FrontStepInv(s: State, step: FrontStep)
    requires Inv(s) && FrontEnabled(s.front, step)
    ensures Inv(s.(front := NextFront(s.front, step)))
  {
    assert AcceptorOk(s.front) by {
      hide WorkerOk, Books, AcceptorHolds, PlacesExist, JoinerOk;
    }
    hide Inv, AcceptorOk;
    FrontStepOk(s.front, step);
    FrontInv(s, NextFront(s.front, step));
  }

  lemma JoinInv(s: State, step: JoinStep)
    requires Inv(s) && JoinEnabled(s, step) && (step.JoinAcceptor? || step.JoinWorkers?)
    ensures Inv(NextJoin(s, step))
  {
    hide Books, BatchIsCurrent, PhaseOk, Owns, AcceptorOk, Awake;
    var t := NextJoin(s, step);
    forall v | 0 <= v < |t.workers| ensures WorkerOk(t, v) {
      assert WorkerOk(s, v);
    }
  }

  lemma StopWorkerInv(s: State, step: JoinStep)
    requires Inv(s) && JoinEnabled(s, step) && (step.StoreStop? || step.WakeStopped?)
    ensures Inv(NextJoin(s, step))
  {
    hide Books, AcceptorHolds, PlacesExist, AcceptorOk, BatchIsCurrent, Owns;
    var t := NextJoin(s, step);
    assert PlacesExist(t) by {
      SameSizePlaces(s, t);
    }
    forall v | 0 <= v < |t.workers| ensures WorkerOk(t, v) {
      assert WorkerOk(s, v);
      SameHoldings(s.workers[v], t.workers[v], v, s.places, s.sockets);
    }
  }

  lemma SameSizePlaces(s: State, t: State)
    requires PlacesExist(s) && t.places == s.places && |t.workers| == |s.workers|
    ensures PlacesExist(t)
  {
  }

  lemma SameHoldings(worker: Worker, worker': Worker, w: nat, places: map<nat, Place>,
                     sockets: map<nat, nat>)
    requires Owns(worker, w, places, sockets) && BatchIsCurrent(worker) && worker'.batch == worker.batch
    requires worker'.pending == worker.pending && worker'.moving == worker.moving
    requires worker'.connections == worker.connections
    ensures Owns(worker', w, places, sockets) && BatchIsCurrent(worker')
  {
  }

  lemma WaitReturnsInv(s: State, w: nat, batch: seq<Event>)
    requires Inv(s) && CanWork(s, w, WaitReturns(batch))
    ensures Inv(NextWorker(s, w, WaitReturns(batch)))
  {
    assert WorkerOk(s, w);
    var worker := s.workers[w].(phase := InBatch, batch := batch, wakeupSeen := false);
    assert BatchIsCurrent(worker);
    hide Books, AcceptorHolds, BatchIsCurrent, Owns, PlacesExist, CanReport;
    LocalStep(s, w, worker);
  }

  /** Phase changes between batches. */
  lemma PhaseInv(s: State, w: nat, phase: Phase)
    requires Inv(s) && w < |s.workers| && s.workers[w].batch == [] && s.workers[w].moving == []
    requires var worker := s.workers[w];
             && !worker.phase.Finished?
             && PhaseOk(worker.(phase := phase)) && Awake(worker.(phase := phase), w, s.front.acceptor)
             && StopOk(worker.(phase := phase), w, s.joiner)
    ensures Inv(Update(s, w, s.workers[w].(phase := phase)))
  {
    hide Books, AcceptorHolds, Owns, PlacesExist, PhaseOk, Awake, StopOk;
    LocalStep(s, w, s.workers[w].(phase := phase));
  }

  lemma LoopInv(s: State, w: nat, step: WorkStep)
    requires Inv(s) && CanWork(s, w, step)
    requires step.CheckLoop? || step.WaitInterrupted? || step.EndBatch?
    ensures Inv(NextWorker(s, w, step))
  {
    assert WorkerOk(s, w);
    var worker := s.workers[w];
    hide Books, AcceptorHolds, BatchIsCurrent, Owns, PlacesExist, JoinerOk, AcceptorOk, Inv, Close, Taken, Handled;
    match step
    case CheckLoop => PhaseInv(s, w, if worker.stop then ClearingConnections else Waiting);
    case WaitInterrupted => PhaseInv(s, w, AtLoop);
    case EndBatch => PhaseInv(s, w, if worker.wakeupSeen && !worker.stop then ReadyToInstall else AtLoop);
  }

  lemma EndInv(s: State, w: nat, step: WorkStep)
    requires Inv(s) && CanWork(s, w, step)
    requires step.EndInstall? || step.EndConnections? || step.EndQueued?
    ensures Inv(NextWorker(s, w, step))
  {
    assert WorkerOk(s, w);
    hide Books, AcceptorHolds, BatchIsCurrent, Owns, PlacesExist, JoinerOk, AcceptorOk, Inv, Close, Taken, Handled;
    match step
    case EndInstall => PhaseInv(s, w, AtLoop);
    case EndConnections => PhaseInv(s, w, ClearingPending);
    case EndQueued => PhaseInv(s, w, Finished);
  }

  lemma UnconnectedOwns(worker: Worker, w: nat, places: map<nat, Place>, sockets: map<nat, nat>, fd: nat)
    requires Owns(worker, w, places, sockets) && fd in worker.connections
    ensures Owns(worker.(connections := worker.connections - {fd}), w, places - {fd}, sockets - {fd})
  {
  }

  lemma HandledKeeps(worker: Worker)
    requires worker.batch != [] && BatchIsCurrent(worker)
    ensures BatchIsCurrent(Handled(worker))
    ensures forall fd :: BatchIsCurrent(Handled(worker).(connections := worker.connections - {fd}))
  {
    assert forall e :: e in worker.batch[1..] ==> e in worker.batch;
  }

  /** Events never outlive the connection they were reported for: nothing is installed during a batch. */
  lemma HandleEventInv(s: State, w: nat, drop: bool)
    requires Inv(s) && CanWork(s, w, HandleEvent(drop))
    ensures Inv(NextWorker(s, w, HandleEvent(drop)))
  {
    var worker, rest := s.workers[w], Handled(s.workers[w]);
    var e := worker.batch[0];
    assert WorkerOk(s, w);
    HandledKeeps(worker);
    hide Books, AcceptorHolds, BatchIsCurrent, PlacesExist;
    if e.Ready? && drop && e.fd in worker.connections {
      UnconnectedOwns(worker, w, s.places, s.sockets, e.fd);
      var fewer := rest.(connections := worker.connections - {e.fd});
      SameOwner(worker.(connections := fewer.connections), fewer, w, s.places - {e.fd}, s.sockets - {e.fd});
      assert e.fd in s.sockets && !Foreign(s.places, e.fd, w);
      hide Owns;
      ReleaseStep(s, w, fewer, e.fd);
    } else {
      hide Owns;
      LocalStep(s, w, rest);
    }
  }

  lemma SameOwner(worker: Worker, worker': Worker, w: nat, places: map<nat, Place>, sockets: map<nat, nat>)
    requires Owns(worker, w, places, sockets) && worker'.pending == worker.pending && worker'.moving == worker.moving
    requires worker'.connections == worker.connections
    ensures Owns(worker', w, places, sockets)
  {
  }

  lemma TakePendingInv(s: State, w: nat)
    requires Inv(s) && CanWork(s, w, TakePending)
    ensures Inv(NextWorker(s, w, TakePending))
  {
    var t := NextWorker(s, w, TakePending);
    TakenBooks(s, w);
    TakenPlaces(s, w);
    hide Books, BatchIsCurrent, Owns, Taken, AcceptorHolds, PlacesExist;
    forall v | 0 <= v < |t.workers| ensures WorkerOk(t, v) {
      assert WorkerOk(s, v) && WorkerOk(s, w);
      TakenOwns(s.workers[v], v, w, s.places, s.sockets);
      if v == w {
        var worker := s.workers[w].(pending := [], moving := s.workers[w].pending);
        SameOwner(worker, t.workers[w], w, t.places, t.sockets);
        EmptyBatchIsCurrent(t.workers[w]);
      }
    }
  }

  lemma EmptyBatchIsCurrent(worker: Worker)
    requires worker.batch == []
    ensures BatchIsCurrent(worker)
  {
  }

  lemma TakenPlaces(s: State, w: nat)
    requires AcceptorHolds(s.front.acceptor, s.places) && PlacesExist(s) && w < |s.workers|
    ensures AcceptorHolds(s.front.acceptor, Taken(s.places, w))
    ensures forall worker: Worker :: PlacesExist(Update(s, w, worker).(places := Taken(s.places, w)))
  {
  }

  lemma TakenOwns(worker: Worker, v: nat, w: nat, places: map<nat, Place>, sockets: map<nat, nat>)
    requires Owns(worker, v, places, sockets) && (v == w ==> worker.moving == [])
    ensures Owns(if v == w then worker.(pending := [], moving := worker.pending) else worker, v, Taken(places, w), sockets)
  {
  }

  lemma TakenBooks(s: State, w: nat)
    requires Bookkeeping(s)
    ensures Books(s.sockets, s.descriptors, Taken(s.places, w), s.closes)
  {
    assert Taken(s.places, w).Keys == s.places.Keys;
  }

  /** A descriptor being installed is nobody's connection yet, so the insertion never fails. */
  lemma InstallInv(s: State, w: nat, registered: bool)
    requires Inv(s) && CanWork(s, w, Install(registered))
    ensures s.workers[w].moving[0] !in s.workers[w].connections && s.workers[w].moving[0] in s.sockets
    ensures Inv(NextWorker(s, w, Install(registered)))
  {
    var worker := s.workers[w];
    assert WorkerOk(s, w);
    var fd, rest := worker.moving[0], worker.(moving := worker.moving[1..]);
    assert fd in worker.moving && worker.moving == [fd] + rest.moving;
    assert fd in s.places && s.places[fd] == Moving(w) && fd in s.sockets && fd !in worker.connections;
    assert MayMove(s, w, fd, Connected(w), s.front.acceptor) && !Foreign(s.places, fd, w);
    hide Books, AcceptorHolds, PlacesExist, JoinerOk, AcceptorOk, Owns, Close, MayMove, Foreign, NoDuplicates;
    if registered {
      var more := rest.(connections := worker.connections[fd := s.sockets[fd]]);
      InstalledOwns(worker, w, s.places, s.sockets);
      MoveStep(s, w, more, fd, Connected(w), s.front.acceptor);
    } else {
      DroppedOwns(worker, w, s.places, s.sockets);
      ReleaseStep(s, w, rest, fd);
    }
  }

  lemma InstalledOwns(worker: Worker, w: nat, places: map<nat, Place>, sockets: map<nat, nat>)
    requires Owns(worker, w, places, sockets) && worker.moving != [] && worker.moving[0] in sockets
    ensures var fd := worker.moving[0];
            Owns(worker.(moving := worker.moving[1..], connections := worker.connections[fd := sockets[fd]]), w,
                 places[fd := Connected(w)], sockets)
  {
    var fd, rest := worker.moving[0], worker.moving[1..];
    assert worker.moving == [fd] + rest;
    assert fd in worker.moving;
  }

  lemma DroppedOwns(worker: Worker, w: nat, places: map<nat, Place>, sockets: map<nat, nat>)
    requires Owns(worker, w, places, sockets) && worker.moving != []
    ensures Owns(worker.(moving := worker.moving[1..]), w, places - {worker.moving[0]}, sockets - {worker.moving[0]})
  {
    var fd, rest := worker.moving[0], worker.moving[1..];
    assert worker.moving == [fd] + rest;
    assert fd in worker.moving;
  }

  lemma CloseConnectionInv(s: State, w: nat, fd: nat)
    requires Inv(s) && CanWork(s, w, CloseConnection(fd))
    ensures Inv(NextWorker(s, w, CloseConnection(fd)))
  {
    var worker := s.workers[w];
    assert WorkerOk(s, w);
    UnconnectedOwns(worker, w, s.places, s.sockets, fd);
    assert fd in s.sockets && !Foreign(s.places, fd, w);
    hide Books, AcceptorHolds, PlacesExist, Owns, Close;
    ReleaseStep(s, w, worker.(connections := worker.connections - {fd}), fd);
  }

  lemma UnqueuedOwns(worker: Worker, w: nat, places: map<nat, Place>, sockets: map<nat, nat>)
    requires Owns(worker, w, places, sockets) && worker.pending != []
    ensures Owns(worker.(pending := worker.pending[1..]), w, places - {worker.pending[0]}, sockets - {worker.pending[0]})
  {
    var fd, rest := worker.pending[0], worker.pending[1..];
    assert worker.pending == [fd] + rest;
    assert fd in worker.pending;
  }

  lemma CloseQueuedInv(s: State, w: nat)
    requires Inv(s) && CanWork(s, w, CloseQueued)
    ensures Inv(NextWorker(s, w, CloseQueued))
  {
    var worker := s.workers[w];
    assert WorkerOk(s, w);
    assert worker.pending[0] in worker.pending;
    UnqueuedOwns(worker, w, s.places, s.sockets);
    assert worker.pending[0] in s.sockets && !Foreign(s.places, worker.pending[0], w);
    hide Books, AcceptorHolds, PlacesExist, Owns, Close;
    ReleaseStep(s, w, worker.(pending := worker.pending[1..]), worker.pending[0]);
  }

  lemma WorkStepInv(s: State, w: nat, step: WorkStep)
    requires Inv(s) && CanWork(s, w, step)
    ensures Inv(NextWorker(s, w, step))
  {
    hide Inv, NextWorker, WorkEnabled;
    match step
    case WaitReturns(batch) => WaitReturnsInv(s, w, batch);
    case HandleEvent(drop) => HandleEventInv(s, w, drop);
    case TakePending => TakePendingInv(s, w);
    case Install(registered) => InstallInv(s, w, registered);
    case CloseConnection(fd) => CloseConnectionInv(s, w, fd);
    case CloseQueued => CloseQueuedInv(s, w);
    case EndInstall => EndInv(s, w, step);
    case EndConnections => EndInv(s, w, step);
    case EndQueued => EndInv(s, w, step);
    case _ => LoopInv(s, w, step);
  }

  lemma InvIsShaped(s: State)
    requires Inv(s)
    ensures Shaped(s)
  {
  }

  lemma StepInv(s: State, step: Step)
    requires Inv(s) && Enabled(s, step)
    ensures Shaped(s) && Inv(Next(s, step))
  {
    InvIsShaped(s);
    hide Inv, NextWorker, NextJoin, AfterAccept, AfterEnqueue, AfterWake, NextFront, CanWork, JoinEnabled, FrontEnabled;
    match step
    case ByFront(front) => FrontStepInv(s, front);
    case Accept(fd) => AcceptInv(s, fd);
    case Enqueue => EnqueueInv(s);
    case Wake => WakeInv(s);
    case ByJoiner(join) =>
      if join.StoreStop? || join.WakeStopped? {
        StopWorkerInv(s, join);
      } else {
        JoinInv(s, join);
      }
    case ByWorker(w, work) => WorkStepInv(s, w, work);
  }

  // ---- Every interleaving ----

  ghost predicate Behaviour(states: seq<State>, steps: seq<Step>) {
    && |states| == |steps| + 1 && Init(states[0])
    && forall n :: 0 <= n < |steps| ==>
         Shaped(states[n]) && Enabled(states[n], steps[n]) && states[n + 1] == Next(states[n], steps[n])
  }

  lemma BehaviourStep(states: seq<State>, steps: seq<Step>, n: nat)
    requires Behaviour(states, steps) && n < |steps|
    ensures |states| == |steps| + 1 && Inv(states[n]) && Shaped(states[n]) && Enabled(states[n], steps[n])
    ensures states[n + 1] == Next(states[n], steps[n])
  {
    BehaviourInv(states, steps, n);
    hide Inv, Enabled, Next;
  }

  lemma {:induction false} BehaviourInv(states: seq<State>, steps: seq<Step>, n: nat)
    requires Behaviour(states, steps) && n < |states|
    ensures Inv(states[n])
    decreases n
  {
    hide Inv, Init, Next, Enabled, Shaped;
    if n == 0 {
      InitInv(states[0]);
    } else {
      BehaviourInv(states, steps, n - 1);
      StepInv(states[n - 1], steps[n - 1]);
    }
  }

  /**
   No lost wakeup.  In every reachable state a worker with queued sockets has been
   or is about to be woken, has seen the wakeup and not installed yet, or is being
   stopped; if it sleeps unstopped and the acceptor has finished waking it, epoll
   reports the wakeup.
   */
  lemma NoLostWakeup(states: seq<State>, steps: seq<Step>, n: nat, w: nat)
    requires Behaviour(states, steps) && n < |states| && w < |states[n].workers| && states[n].workers[w].pending != []
    ensures var worker := states[n].workers[w];
            || states[n].front.acceptor == Waking(w)
            || 0 < worker.counter
            || (worker.wakeupSeen && (worker.phase.InBatch? || worker.phase.ReadyToInstall?))
            || worker.stop
    ensures states[n].front.acceptor != Waking(w) && states[n].workers[w].phase.Waiting? && !states[n].workers[w].stop ==>
              Enabled(states[n], ByWorker(w, WaitReturns([Wakeup])))
  {
    hide Behaviour, Books, AcceptorHolds, PlacesExist, JoinerOk, AcceptorOk, Owns, BatchIsCurrent, StopOk;
    BehaviourInv(states, steps, n);
    assert WorkerOk(states[n], w);
  }

  /**
   No lost socket.  After join has returned, no accepted descriptor is open and
   every socket ever accepted has been closed exactly once.
   */
  lemma NoLostSocket(states: seq<State>, steps: seq<Step>, n: nat)
    requires Behaviour(states, steps) && n < |states| && states[n].joiner.Joined?
    ensures states[n].sockets == map[]
    ensures forall socket :: 0 <= socket < |states[n].closes| ==> states[n].closes[socket] == 1
  {
    hide Behaviour, AcceptorHolds, PlacesExist, WorkerOk, JoinerOk, AcceptorOk;
    BehaviourInv(states, steps, n);
    JoinedHoldsNothing(states[n]);
  }

  lemma FinishedHoldsNothing(s: State, w: nat)
    requires Inv(s) && w < |s.workers| && s.workers[w].phase.Finished?
    ensures forall fd :: fd in s.places ==> s.places[fd] !in {Queued(w), Moving(w), Connected(w)}
  {
    hide BatchIsCurrent, Awake, Books, NoDuplicates;
    assert WorkerOk(s, w);
  }

  lemma JoinedHoldsNothing(s: State)
    requires Inv(s) && s.joiner.Joined?
    ensures s.places == map[]
  {
    hide Books, WorkerOk;
    forall w | 0 <= w < |s.workers|
      ensures forall fd :: fd in s.places ==> s.places[fd] !in {Queued(w), Moving(w), Connected(w)}
    {
      FinishedHoldsNothing(s, w);
    }
    assert forall fd :: fd !in s.places;
  }

  /** `fd` is in the acceptor's hand, or in one of the containers of a worker that exists. */
  ghost predicate HeldAt(s: State, fd: nat, place: Place) {
    match place
    case WithAcceptor => s.front.acceptor.Holding? && s.front.acceptor.fd == fd
    case Queued(w) => w < |s.workers| && fd in s.workers[w].pending
    case Moving(w) => w < |s.workers| && fd in s.workers[w].moving
    case Connected(w) => w < |s.workers| && fd in s.workers[w].connections
  }

  /** Exactly the open descriptors are held, each in one place and once there. */
  ghost predicate Exclusive(s: State) {
    && (forall fd :: fd in s.sockets ==> exists place :: HeldAt(s, fd, place))
    && (forall fd, place :: HeldAt(s, fd, place) ==> fd in s.sockets)
    && (forall fd, place, place' :: HeldAt(s, fd, place) && HeldAt(s, fd, place') ==> place == place')
    && (forall w :: 0 <= w < |s.workers| ==> NoDuplicates(s.workers[w].pending) && NoDuplicates(s.workers[w].moving))
  }

  lemma InvIsExclusive(s: State)
    requires Inv(s)
    ensures Exclusive(s)
  {
    hide BatchIsCurrent, PhaseOk, Awake, StopOk, NoDuplicates, JoinerOk, AcceptorOk;
    forall w | 0 <= w < |s.workers| ensures Owns(s.workers[w], w, s.places, s.sockets) {
      assert WorkerOk(s, w);
    }
    forall fd, place ensures HeldAt(s, fd, place) <==> fd in s.places && s.places[fd] == place {
      match place
      case WithAcceptor =>
      case Queued(w) =>
      case Moving(w) =>
      case Connected(w) =>
    }
    forall fd | fd in s.sockets ensures exists place :: HeldAt(s, fd, place) {
      assert HeldAt(s, fd, s.places[fd]);
    }
  }

  /**
   Descriptor ownership.  Every open descriptor is in exactly one of: the
   acceptor's hand, one pending queue, one worker's hand, one connection map.
   Hence an insertion into a connection map never finds the number taken, and a
   socket is never refused by a stopped worker.
   */
  lemma OneOwner(states: seq<State>, steps: seq<Step>, n: nat)
    requires Behaviour(states, steps) && n < |states|
    ensures Exclusive(states[n])
    ensures forall w: nat, registered :: Enabled(states[n], ByWorker(w, Install(registered))) ==>
              states[n].workers[w].moving[0] !in states[n].workers[w].connections
    ensures Enabled(states[n], Enqueue) ==>
              states[n].front.acceptor.worker < |states[n].workers| && !states[n].workers[states[n].front.acceptor.worker].stop
  {
    hide Behaviour, Exclusive, Books, AcceptorHolds, PlacesExist, WorkerOk, JoinerOk, AcceptorOk, NextWorker;
    BehaviourInv(states, steps, n);
    var s := states[n];
    InvIsExclusive(s);
    forall w: nat, registered | Enabled(s, ByWorker(w, Install(registered)))
      ensures s.workers[w].moving[0] !in s.workers[w].connections
    {
      InstallInv(s, w, registered);
    }
    if Enabled(s, Enqueue) {
      EnqueueInv(s);
    }
  }

  /**
   No stale readiness.  An event that is about to be handled and whose number has
   a connection was reported for that very connection, not for an earlier socket
   with the same number.
   */
  lemma EventsReachTheirConnection(states: seq<State>, steps: seq<Step>, n: nat, w: nat, e: Event)
    requires Behaviour(states, steps) && n < |states| && w < |states[n].workers|
    requires e in states[n].workers[w].batch && e.Ready? && e.fd in states[n].workers[w].connections
    ensures e.fd in states[n].sockets && states[n].sockets[e.fd] == e.socket
  {
    hide Behaviour, Books, AcceptorHolds, PlacesExist, JoinerOk, AcceptorOk, PhaseOk, Awake, StopOk;
    BehaviourInv(states, steps, n);
    assert WorkerOk(states[n], w);
  }
}
