/**
 The server's threads and its connections together.  The hand-off protocol decides
 which connection an event reaches; the connection decides whether its worker
 keeps it.  A connection is the value that `Connection.HandleEvent` is proved to
 turn into another one by `RoundStep`.
 */
module Server {
  import opened Basics
  import opened Streams
  import opened Connections
  import opened ConnectionRuns
  import opened Handoff
  import Shutdown

  /** A socket that became a connection: what it is, the rounds it has been through, and whether its worker kept it. */
  datatype Client = Client(view: View, rounds: seq<Round>, kept: bool)

  /** `clients` is indexed by socket, the order of acceptance, never by descriptor number. */
  datatype World = World(threads: State, clients: map<nat, Client>)

  datatype Move =
    | Threads(step: Step)
    | Serve(worker: nat, round: Round, view: View)

  function NewView(): View {
    View(Log([], [], [], [], [], [], [], false, false), false, false, false, false)
  }

  /** The event at the head of a batch is for a connection that is installed. */
  ghost predicate ForConnection(worker: Worker) {
    worker.batch != [] && worker.batch[0].Ready? && worker.batch[0].fd in worker.connections
  }

  /** The socket installed under the number of that event. */
  ghost function Served(worker: Worker): nat
    requires ForConnection(worker)
  {
    worker.connections[worker.batch[0].fd]
  }

  predicate Keeps(round: Round, view: View) {
    !round.events.error && !view.closeImmediately && !view.thrown && round.rearmed
  }

  /** An event for a connection is served; every other step is the threads' own. */
  ghost predicate Possible(world: World, limit: nat, move: Move) {
    match move
    case Threads(step) =>
      && Enabled(world.threads, step)
      && (step.ByWorker? && step.work.HandleEvent? && step.worker < |world.threads.workers| ==>
            !ForConnection(world.threads.workers[step.worker]))
    case Serve(w, round, view) =>
      && CanWork(world.threads, w, HandleEvent(!Keeps(round, view))) && ForConnection(world.threads.workers[w])
      && var socket := Served(world.threads.workers[w]);
      && Fits(round) && socket in world.clients
      && RoundStep(world.clients[socket].view, round, view, Keeps(round, view)) && Sensible(view, limit)
  }

  /** The step of the threads that a move takes. */
  ghost function StepOf(move: Move): Step {
    match move
    case Threads(step) => step
    case Serve(w, round, view) => ByWorker(w, HandleEvent(!Keeps(round, view)))
  }

  /** A registered socket becomes a client. */
  ghost function Installed(world: World, step: Step): map<nat, Client> {
    if step.ByWorker? && step.work == Install(true) && step.worker < |world.threads.workers|
       && world.threads.workers[step.worker].moving != []
       && world.threads.workers[step.worker].moving[0] in world.threads.sockets
    then world.clients[world.threads.sockets[world.threads.workers[step.worker].moving[0]] := Client(NewView(), [], true)]
    else world.clients
  }

  ghost function After(world: World, limit: nat, move: Move): World
    requires Shaped(world.threads) && Possible(world, limit, move)
  {
    match move
    case Threads(step) => World(Next(world.threads, step), Installed(world, step))
    case Serve(w, round, view) =>
      var socket := Served(world.threads.workers[w]);
      World(Next(world.threads, StepOf(move)),
            world.clients[socket := Client(view, world.clients[socket].rounds + [round], Keeps(round, view))])
  }

  // ---- What the threads' steps do to connections ----

  /** Every open socket, and where its descriptor is. */
  ghost predicate ConnectedAt(s: State, socket: nat) {
    && socket in s.descriptors && s.descriptors[socket] in s.places
    && s.places[s.descriptors[socket]].Connected?
  }

  /** A worker's connections come from before, or from installing. */
  lemma WorkConnections(s: State, w: nat, step: WorkStep, fd: nat)
    requires CanWork(s, w, step) && fd in NextWorker(s, w, step).workers[w].connections
    ensures var socket := NextWorker(s, w, step).workers[w].connections[fd];
            || (fd in s.workers[w].connections && s.workers[w].connections[fd] == socket)
            || (step == Install(true) && fd == s.workers[w].moving[0] && fd in s.sockets && s.sockets[fd] == socket)
  {
    hide Taken, CanReport, Close;
    forall t, x ensures Close(t, x).workers == t.workers {
      Shutdown.CloseKeepsWorkers(t, x);
    }
  }

  lemma OtherConnections(s: State, step: Step, v: nat)
    requires Shaped(s) && Enabled(s, step) && v < |s.workers| && (step.ByWorker? ==> step.worker != v)
    ensures Next(s, step).workers[v].connections == s.workers[v].connections
  {
    hide CanWork, NextWorker, Close;
    match step
    case ByWorker(w, work) => Shutdown.OthersKeepWorker(s, w, work, v);
    case Enqueue => Shutdown.CloseKeepsWorkers(s, s.front.acceptor.fd);
    case _ =>
  }

  /** A dropped connection leaves its worker's map. */
  lemma DropConnections(s: State, w: nat)
    requires CanWork(s, w, HandleEvent(true)) && ForConnection(s.workers[w])
    ensures s.workers[w].batch[0].fd !in NextWorker(s, w, HandleEvent(true)).workers[w].connections
  {
    hide Close;
    forall t, x ensures Close(t, x).workers == t.workers {
      Shutdown.CloseKeepsWorkers(t, x);
    }
  }

  lemma CloseShrinks(s: State, fd: nat)
    ensures |Close(s, fd).closes| == |s.closes| && Close(s, fd).descriptors.Keys <= s.descriptors.Keys
    ensures Bookkeeping(s) && fd in s.sockets ==> s.sockets[fd] !in Close(s, fd).descriptors
  {
  }

  lemma WorkGrowsNothing(s: State, w: nat, step: WorkStep)
    requires CanWork(s, w, step)
    ensures |NextWorker(s, w, step).closes| == |s.closes| && NextWorker(s, w, step).descriptors.Keys <= s.descriptors.Keys
  {
    hide Taken, CanReport, Handled, Close;
    forall t, fd ensures |Close(t, fd).closes| == |t.closes| && Close(t, fd).descriptors.Keys <= t.descriptors.Keys {
      CloseShrinks(t, fd);
    }
  }

  /** Only accepting opens a socket, and it opens a new one. */
  lemma DescriptorsGrow(s: State, step: Step)
    requires Shaped(s) && Enabled(s, step)
    ensures |s.closes| <= |Next(s, step).closes|
    ensures forall socket :: socket in Next(s, step).descriptors ==> socket in s.descriptors || socket == |s.closes|
  {
    hide CanWork, NextWorker, NextFront, FrontEnabled, Close;
    match step
    case ByWorker(w, work) => WorkGrowsNothing(s, w, work);
    case Enqueue => CloseShrinks(s, s.front.acceptor.fd);
    case _ =>
  }

  /** Closing another descriptor does not touch a connection's. */
  lemma CloseOther(s: State, fd: nat, socket: nat)
    requires Bookkeeping(s) && ConnectedAt(s, socket) && s.descriptors[socket] != fd
    ensures ConnectedAt(Close(s, fd), socket)
  {
  }

  lemma StaysThroughFront(s: State, step: Step, socket: nat)
    requires Inv(s) && Shaped(s) && Enabled(s, step) && !step.ByWorker? && ConnectedAt(s, socket)
    ensures ConnectedAt(Next(s, step), socket)
  {
    hide WorkerOk, JoinerOk, AcceptorOk, PlacesExist, NextFront, FrontEnabled, Close;
    match step
    case Enqueue =>
      var fd := s.front.acceptor.fd;
      assert s.descriptors[socket] != fd;
      CloseOther(s, fd, socket);
    case Accept(fd) => assert socket < |s.closes| && s.descriptors[socket] != fd;
    case _ =>
  }

  /** A worker's step closes no connection but the one it drops or clears. */
  lemma StaysThroughWork(s: State, w: nat, step: WorkStep, socket: nat)
    requires Bookkeeping(s) && CanWork(s, w, step) && ConnectedAt(s, socket) && !step.CloseConnection?
    requires Owns(s.workers[w], w, s.places, s.sockets)
    requires step == HandleEvent(true) && ForConnection(s.workers[w]) ==> Served(s.workers[w]) != socket
    ensures ConnectedAt(NextWorker(s, w, step), socket)
  {
    var worker, fd := s.workers[w], s.descriptors[socket];
    hide CanReport, Handled, NoDuplicates, Close;
    match step
    case HandleEvent(drop) =>
      if drop && ForConnection(worker) {
        CloseOther(Update(s, w, Handled(worker).(connections := worker.connections - {worker.batch[0].fd})), worker.batch[0].fd,
                   socket);
      }
    case Install(registered) =>
      assert worker.moving[0] in worker.moving;
      CloseOther(Update(s, w, worker.(moving := worker.moving[1..])), worker.moving[0], socket);
    case CloseQueued =>
      assert worker.pending[0] in worker.pending;
      CloseOther(Update(s, w, worker.(pending := worker.pending[1..])), worker.pending[0], socket);
    case _ =>
  }

  /** Clearing connections at shutdown closes just the one it names. */
  lemma ClearsOne(s: State, w: nat, fd: nat, socket: nat)
    requires Bookkeeping(s) && CanWork(s, w, CloseConnection(fd)) && ConnectedAt(s, socket)
    requires Owns(s.workers[w], w, s.places, s.sockets)
    ensures socket in NextWorker(s, w, CloseConnection(fd)).descriptors ==> ConnectedAt(NextWorker(s, w, CloseConnection(fd)), socket)
  {
    hide Owns, Close;
    var t := Update(s, w, s.workers[w].(connections := s.workers[w].connections - {fd}));
    assert Bookkeeping(t) && ConnectedAt(t, socket);
    CloseShrinks(t, fd);
    if s.descriptors[socket] != fd {
      CloseOther(t, fd, socket);
    }
  }

  // ---- The joint invariant ----

  ghost predicate ClientsOk(clients: map<nat, Client>, count: nat, limit: nat) {
    forall socket :: socket in clients ==>
      socket < count && ConnectionRuns.After(clients[socket].view, limit, clients[socket].rounds, clients[socket].kept)
  }

  /** What a worker has installed is a client that it keeps. */
  ghost predicate InstalledOk(s: State, clients: map<nat, Client>) {
    forall w, fd :: 0 <= w < |s.workers| && fd in s.workers[w].connections ==>
      s.workers[w].connections[fd] in clients && clients[s.workers[w].connections[fd]].kept
  }

  /** A client's socket is open in a connection map or closed: open while it is kept, until shutdown; closed once dropped. */
  ghost predicate OpenOk(s: State, client: Client, socket: nat) {
    && (socket in s.descriptors ==> ConnectedAt(s, socket))
    && (if client.kept then s.front.acceptor.Exited? || socket in s.descriptors else socket !in s.descriptors)
  }

  ghost predicate WorldOk(world: World, limit: nat) {
    && Inv(world.threads)
    && ClientsOk(world.clients, |world.threads.closes|, limit)
    && InstalledOk(world.threads, world.clients)
    && forall socket :: socket in world.clients ==> OpenOk(world.threads, world.clients[socket], socket)
  }

  lemma WorkerOwns(s: State, w: nat)
    requires Inv(s) && w < |s.workers|
    ensures Bookkeeping(s) && Owns(s.workers[w], w, s.places, s.sockets)
  {
    hide Books, Owns, AcceptorHolds, PlacesExist, JoinerOk, AcceptorOk, BatchIsCurrent, PhaseOk, Awake, StopOk;
    assert WorkerOk(s, w);
  }

  lemma ExitedStays(s: State, step: Step)
    requires Shaped(s) && Enabled(s, step) && s.front.acceptor.Exited?
    ensures Next(s, step).front.acceptor.Exited?
  {
    hide CanWork, NextWorker;
    match step
    case ByWorker(w, work) => Shutdown.WorkersKeepFront(s, w, work);
    case _ =>
  }

  /** Whatever the threads do, a client that is not the one being dropped stays where it should be. */
  lemma ClientStays(s: State, step: Step, client: Client, socket: nat)
    requires Inv(s) && Shaped(s) && Enabled(s, step) && OpenOk(s, client, socket) && socket < |s.closes|
    requires step.ByWorker? && step.work == HandleEvent(true) && ForConnection(s.workers[step.worker]) ==>
               Served(s.workers[step.worker]) != socket
    ensures OpenOk(Next(s, step), client, socket)
  {
    hide Inv, CanWork, NextWorker, ConnectedAt, JoinEnabled, FrontEnabled, NextFront, AfterEnqueue, AfterAccept, AfterWake, NextJoin;
    DescriptorsGrow(s, step);
    if s.front.acceptor.Exited? {
      ExitedStays(s, step);
    }
    if socket in s.descriptors {
      if step.ByWorker? {
        WorkerStays(s, step.worker, step.work, socket);
      } else {
        StaysThroughFront(s, step, socket);
        OpenMeansListed(Next(s, step), socket);
      }
    }
  }

  lemma OpenMeansListed(s: State, socket: nat)
    requires ConnectedAt(s, socket)
    ensures socket in s.descriptors
  {
  }

  lemma WorkerStays(s: State, w: nat, step: WorkStep, socket: nat)
    requires Inv(s) && CanWork(s, w, step) && ConnectedAt(s, socket)
    requires step == HandleEvent(true) && ForConnection(s.workers[w]) ==> Served(s.workers[w]) != socket
    ensures var t := NextWorker(s, w, step);
            && (socket in t.descriptors ==> ConnectedAt(t, socket))
            && (socket in t.descriptors || t.front.acceptor.Exited?)
  {
    hide Inv, NextWorker, Owns, Books;
    WorkerOwns(s, w);
    if step.CloseConnection? {
      ClearsOne(s, w, step.fd, socket);
      assert s.workers[w].stop by {
        LeavingIsStopped(s, w);
      }
      Shutdown.StopMeansExited(s, w);
      Shutdown.WorkersKeepFront(s, w, step);
    } else {
      StaysThroughWork(s, w, step, socket);
    }
  }

  lemma LeavingIsStopped(s: State, w: nat)
    requires Inv(s) && w < |s.workers| && s.workers[w].phase.ClearingConnections?
    ensures s.workers[w].stop
  {
    hide Books, Owns, AcceptorHolds, PlacesExist, JoinerOk, AcceptorOk, BatchIsCurrent, Awake, StopOk;
    assert WorkerOk(s, w);
  }

  /** Where an installed connection comes from, whichever thread moves. */
  lemma ConnectionsFrom(s: State, step: Step, v: nat, fd: nat)
    requires Shaped(s) && Enabled(s, step) && v < |s.workers| && fd in Next(s, step).workers[v].connections
    ensures var socket := Next(s, step).workers[v].connections[fd];
            || (fd in s.workers[v].connections && s.workers[v].connections[fd] == socket)
            || (step == ByWorker(v, Install(true)) && CanWork(s, v, Install(true)) && fd == s.workers[v].moving[0]
                && fd in s.sockets && s.sockets[fd] == socket)
  {
    if step.ByWorker? && step.worker == v {
      hide CanWork, NextWorker;
      WorkConnections(s, v, step.work, fd);
    } else {
      hide Enabled, Next;
      OtherConnections(s, step, v);
    }
  }

  /** A socket that is about to be installed is nobody's client yet. */
  lemma InstallsNewcomer(s: State, w: nat, client: Client)
    requires Inv(s) && CanWork(s, w, Install(true))
    ensures s.workers[w].moving[0] in s.sockets
    ensures var socket := s.sockets[s.workers[w].moving[0]];
            && socket < |s.closes| && socket in s.descriptors && !OpenOk(s, client, socket)
  {
    WorkerOwns(s, w);
    hide Inv, NoDuplicates;
    assert s.workers[w].moving[0] in s.workers[w].moving;
  }

  /** Once installed, it is open in its worker's map. */
  lemma InstalledIsOpen(s: State, w: nat)
    requires Inv(s) && CanWork(s, w, Install(true)) && s.workers[w].moving[0] in s.sockets
    ensures OpenOk(NextWorker(s, w, Install(true)), Client(NewView(), [], true), s.sockets[s.workers[w].moving[0]])
  {
    InstallInv(s, w, true);
    WorkerOwns(s, w);
    hide Inv, NoDuplicates, Close;
    assert s.workers[w].moving[0] in s.workers[w].moving;
  }

  lemma NewClient(limit: nat)
    ensures ConnectionRuns.After(NewView(), limit, [], true)
  {
    hide Coherent, Settled, Overflowed;
    EmptyCoherent();
    Begins(NewView(), limit);
  }

  /** The step installs a socket. */
  ghost predicate Installs(s: State, step: Step) {
    step.ByWorker? && step.work == Install(true) && CanWork(s, step.worker, Install(true))
    && s.workers[step.worker].moving[0] in s.sockets
  }

  ghost function Newcomer(s: State, step: Step): nat
    requires Installs(s, step)
  {
    s.sockets[s.workers[step.worker].moving[0]]
  }

  lemma InstalledIs(world: World, step: Step)
    requires Enabled(world.threads, step)
    ensures Installed(world, step)
         == if Installs(world.threads, step)
            then world.clients[Newcomer(world.threads, step) := Client(NewView(), [], true)] else world.clients
  {
  }

  lemma NewcomerIsNew(world: World, limit: nat, step: Step)
    requires WorldOk(world, limit) && Installs(world.threads, step)
    ensures Newcomer(world.threads, step) < |world.threads.closes| && Newcomer(world.threads, step) !in world.clients
  {
    var socket := Newcomer(world.threads, step);
    InstallsNewcomer(world.threads, step.worker, if socket in world.clients then world.clients[socket] else Client(NewView(), [], true));
    hide Inv, ClientsOk, InstalledOk, OpenOk;
  }

  lemma ClientsOkMore(clients: map<nat, Client>, count: nat, count': nat, limit: nat, socket: nat, client: Client)
    requires ClientsOk(clients, count, limit) && count <= count' && socket < count'
    requires ConnectionRuns.After(client.view, limit, client.rounds, client.kept)
    ensures ClientsOk(clients, count', limit) && ClientsOk(clients[socket := client], count', limit)
  {
    hide ConnectionRuns.After;
  }

  lemma ClientsOkLater(clients: map<nat, Client>, count: nat, count': nat, limit: nat)
    requires ClientsOk(clients, count, limit) && count <= count'
    ensures ClientsOk(clients, count', limit)
  {
    hide ConnectionRuns.After;
  }

  lemma ThreadsClients(world: World, limit: nat, step: Step)
    requires WorldOk(world, limit) && Shaped(world.threads) && Enabled(world.threads, step)
    ensures ClientsOk(Installed(world, step), |Next(world.threads, step).closes|, limit)
  {
    hide Inv, Next, Enabled, InstalledOk, OpenOk, ClientsOk, Installed, Installs, Newcomer, NewView;
    var s := world.threads;
    DescriptorsGrow(s, step);
    NewClient(limit);
    InstalledIs(world, step);
    if Installs(s, step) {
      NewcomerIsNew(world, limit, step);
      ClientsOkMore(world.clients, |s.closes|, |Next(s, step).closes|, limit, Newcomer(s, step), Client(NewView(), [], true));
    } else {
      ClientsOkLater(world.clients, |s.closes|, |Next(s, step).closes|, limit);
    }
  }

  lemma ThreadsInstalled(world: World, limit: nat, step: Step)
    requires WorldOk(world, limit) && Shaped(world.threads) && Enabled(world.threads, step)
    ensures InstalledOk(Next(world.threads, step), Installed(world, step))
  {
    hide Inv, Next, Enabled, ClientsOk, OpenOk, NewView, Installed;
    InstalledIs(world, step);
    var s, t := world.threads, Next(world.threads, step);
    forall v, fd | 0 <= v < |t.workers| && fd in t.workers[v].connections
      ensures t.workers[v].connections[fd] in Installed(world, step) && Installed(world, step)[t.workers[v].connections[fd]].kept
    {
      ConnectionsFrom(s, step, v, fd);
    }
  }

  lemma ThreadsOpen(world: World, limit: nat, step: Step, socket: nat)
    requires WorldOk(world, limit) && Shaped(world.threads) && Possible(world, limit, Threads(step))
    requires socket in Installed(world, step)
    ensures OpenOk(Next(world.threads, step), Installed(world, step)[socket], socket)
  {
    hide Inv, Next, OpenOk, InstalledOk, Installed, NewView, ForConnection, Newcomer, ConnectionRuns.After, WorkEnabled;
    var s := world.threads;
    assert step.ByWorker? ==> step.worker < |s.workers|;
    hide Enabled;
    InstalledIs(world, step);
    if Installs(s, step) {
      NewcomerIsNew(world, limit, step);
      if socket == Newcomer(s, step) {
        NewcomerIsOpen(s, step);
        return;
      }
    }
    ClientStays(s, step, world.clients[socket], socket);
  }

  lemma NewcomerIsOpen(s: State, step: Step)
    requires Inv(s) && Shaped(s) && Enabled(s, step) && Installs(s, step)
    ensures OpenOk(Next(s, step), Client(NewView(), [], true), Newcomer(s, step))
  {
    hide Inv, NextWorker, OpenOk, CanWork, NewView;
    InstalledIsOpen(s, step.worker);
  }

  lemma ThreadsOk(world: World, limit: nat, step: Step)
    requires WorldOk(world, limit) && Shaped(world.threads) && Possible(world, limit, Threads(step))
    ensures WorldOk(After(world, limit, Threads(step)), limit)
  {
    hide Inv, Next, Enabled, ClientsOk, OpenOk, InstalledOk, Installed, ForConnection;
    StepInv(world.threads, step);
    ThreadsClients(world, limit, step);
    ThreadsInstalled(world, limit, step);
    forall socket | socket in Installed(world, step)
      ensures OpenOk(Next(world.threads, step), Installed(world, step)[socket], socket)
    {
      ThreadsOpen(world, limit, step, socket);
    }
  }

  // ---- Serving an event ----

  /** The event was reported for the very socket whose connection handles it. */
  lemma ServesItsOwn(s: State, w: nat)
    requires Inv(s) && w < |s.workers| && ForConnection(s.workers[w])
    ensures s.workers[w].batch[0].socket == Served(s.workers[w])
    ensures var fd := s.workers[w].batch[0].fd;
            fd in s.sockets && s.sockets[fd] == Served(s.workers[w]) && s.places.Keys == s.sockets.Keys
            && s.places[fd] == Connected(w)
  {
    hide AcceptorHolds, PlacesExist, JoinerOk, AcceptorOk, PhaseOk, Awake, StopOk, NoDuplicates;
    assert WorkerOk(s, w);
    assert s.workers[w].batch[0] in s.workers[w].batch;
  }

  /** After a drop, the socket is closed. */
  lemma DropCloses(s: State, w: nat)
    requires Inv(s) && CanWork(s, w, HandleEvent(true)) && ForConnection(s.workers[w])
    ensures Served(s.workers[w]) !in NextWorker(s, w, HandleEvent(true)).descriptors
  {
    ServesItsOwn(s, w);
    WorkerOwns(s, w);
    hide Inv, Owns, Handled, CanReport, Close;
    var worker := s.workers[w];
    var t := Update(s, w, Handled(worker).(connections := worker.connections - {worker.batch[0].fd}));
    assert Bookkeeping(t);
    CloseShrinks(t, worker.batch[0].fd);
  }

  /** And no worker has it any more. */
  lemma DropUninstalls(s: State, w: nat, v: nat, fd: nat)
    requires Inv(s) && CanWork(s, w, HandleEvent(true)) && ForConnection(s.workers[w]) && v < |s.workers|
    requires fd in NextWorker(s, w, HandleEvent(true)).workers[v].connections
    ensures fd in s.workers[v].connections && s.workers[v].connections[fd] != Served(s.workers[w])
    ensures NextWorker(s, w, HandleEvent(true)).workers[v].connections[fd] == s.workers[v].connections[fd]
  {
    hide Inv, NextWorker, CanReport, ForConnection;
    ServesItsOwn(s, w);
    WorkerOwns(s, v);
    if v == w {
      WorkConnections(s, w, HandleEvent(true), fd);
      DropConnections(s, w);
    } else {
      Shutdown.OthersKeepWorker(s, w, HandleEvent(true), v);
    }
    SameSocketSamePlace(s, w, v, fd);
  }

  /** One socket, one descriptor, one map. */
  lemma SameSocketSamePlace(s: State, w: nat, v: nat, fd: nat)
    requires Inv(s) && w < |s.workers| && ForConnection(s.workers[w]) && v < |s.workers| && fd in s.workers[v].connections
    ensures s.workers[v].connections[fd] == Served(s.workers[w]) ==> v == w && fd == s.workers[w].batch[0].fd
  {
    ServesItsOwn(s, w);
    WorkerOwns(s, v);
    hide Inv, NoDuplicates;
  }

  /** The client that handles the event goes through one more round. */
  lemma ServedAfter(world: World, limit: nat, w: nat, round: Round, view: View)
    requires WorldOk(world, limit) && Possible(world, limit, Serve(w, round, view))
    ensures var socket := Served(world.threads.workers[w]);
            && socket in world.clients && world.clients[socket].kept && socket < |world.threads.closes|
            && ConnectionRuns.After(view, limit, world.clients[socket].rounds + [round], Keeps(round, view))
  {
    hide Inv, OpenOk, ConnectionRuns.After, RoundStep, Sensible, Fits, Keeps, WorkEnabled;
    var socket := Served(world.threads.workers[w]);
    assert world.clients[socket].kept;
    Steps(world.clients[socket].view, limit, world.clients[socket].rounds, round, view, Keeps(round, view));
  }

  lemma ServeInstalled(world: World, limit: nat, w: nat, round: Round, view: View)
    requires WorldOk(world, limit) && Possible(world, limit, Serve(w, round, view)) && Shaped(world.threads)
    ensures InstalledOk(After(world, limit, Serve(w, round, view)).threads, After(world, limit, Serve(w, round, view)).clients)
  {
    hide Inv, NextWorker, ClientsOk, OpenOk, RoundStep, Sensible, Fits, Keeps, WorkEnabled, ForConnection;
    var s, keep, socket := world.threads, Keeps(round, view), Served(world.threads.workers[w]);
    var step := HandleEvent(!keep);
    var t := NextWorker(s, w, step);
    forall v, fd | 0 <= v < |t.workers| && fd in t.workers[v].connections
      ensures fd in s.workers[v].connections && s.workers[v].connections[fd] == t.workers[v].connections[fd]
      ensures !keep ==> t.workers[v].connections[fd] != socket
    {
      if keep {
        ConnectionsFrom(s, ByWorker(w, step), v, fd);
      } else {
        DropUninstalls(s, w, v, fd);
      }
    }
  }

  lemma ServeOpen(world: World, limit: nat, w: nat, round: Round, view: View, socket: nat)
    requires WorldOk(world, limit) && Possible(world, limit, Serve(w, round, view)) && Shaped(world.threads)
    requires socket in world.clients
    ensures var next := After(world, limit, Serve(w, round, view));
            socket in next.clients && OpenOk(next.threads, next.clients[socket], socket)
  {
    hide Inv, NextWorker, InstalledOk, RoundStep, Sensible, Fits, Keeps, WorkEnabled, ForConnection, ConnectionRuns.After;
    hide ConnectedAt;
    var s, keep := world.threads, Keeps(round, view);
    ServedAfter(world, limit, w, round, view);
    if socket == Served(s.workers[w]) && !keep {
      DropCloses(s, w);
    } else {
      ClientStays(s, ByWorker(w, HandleEvent(!keep)), world.clients[socket], socket);
    }
  }

  lemma ServeIs(world: World, limit: nat, w: nat, round: Round, view: View)
    requires Possible(world, limit, Serve(w, round, view)) && Shaped(world.threads)
    ensures w < |world.threads.workers| && ForConnection(world.threads.workers[w])
    ensures Served(world.threads.workers[w]) in world.clients && Enabled(world.threads, StepOf(Serve(w, round, view)))
    ensures var socket := Served(world.threads.workers[w]);
            After(world, limit, Serve(w, round, view))
            == World(Next(world.threads, StepOf(Serve(w, round, view))),
                     world.clients[socket := Client(view, world.clients[socket].rounds + [round], Keeps(round, view))])
  {
    hide Next, WorkEnabled, RoundStep, Sensible, Fits, Keeps;
  }

  lemma ServeOk(world: World, limit: nat, w: nat, round: Round, view: View)
    requires WorldOk(world, limit) && Possible(world, limit, Serve(w, round, view)) && Shaped(world.threads)
    ensures WorldOk(After(world, limit, Serve(w, round, view)), limit)
  {
    hide Possible, After, Inv, Next, Enabled, InstalledOk, ClientsOk, OpenOk, Keeps, ForConnection, Served, StepOf;
    hide ConnectionRuns.After;
    var next := After(world, limit, Serve(w, round, view));
    ServeIs(world, limit, w, round, view);
    var s, step, socket := world.threads, StepOf(Serve(w, round, view)), Served(world.threads.workers[w]);
    StepInv(s, step);
    ServedAfter(world, limit, w, round, view);
    ServeInstalled(world, limit, w, round, view);
    DescriptorsGrow(s, step);
    ClientsOkMore(world.clients, |s.closes|, |next.threads.closes|, limit, socket, next.clients[socket]);
    forall other | other in next.clients ensures OpenOk(next.threads, next.clients[other], other) {
      ServeOpen(world, limit, w, round, view, other);
    }
  }

  lemma MoveOk(world: World, limit: nat, move: Move)
    requires WorldOk(world, limit) && Possible(world, limit, move)
    ensures Shaped(world.threads) && WorldOk(After(world, limit, move), limit)
  {
    InvIsShaped(world.threads);
    hide WorldOk, Possible, After;
    match move
    case Threads(step) => ThreadsOk(world, limit, step);
    case Serve(w, round, view) => ServeOk(world, limit, w, round, view);
  }

  // ---- Every run of the server ----

  ghost predicate Behaviour(limit: nat, worlds: seq<World>, moves: seq<Move>) {
    && |worlds| == |moves| + 1 && Init(worlds[0].threads) && worlds[0].clients == map[]
    && forall n :: 0 <= n < |moves| ==>
         Shaped(worlds[n].threads) && Possible(worlds[n], limit, moves[n]) && worlds[n + 1] == After(worlds[n], limit, moves[n])
  }

  lemma BehaviourMove(limit: nat, worlds: seq<World>, moves: seq<Move>, n: nat)
    requires Behaviour(limit, worlds, moves) && n < |moves|
    ensures |worlds| == |moves| + 1 && Shaped(worlds[n].threads) && Possible(worlds[n], limit, moves[n])
    ensures worlds[n + 1] == After(worlds[n], limit, moves[n])
  {
    hide Possible, After, Init, Shaped;
  }

  lemma InitOk(limit: nat, world: World)
    requires Init(world.threads) && world.clients == map[]
    ensures WorldOk(world, limit)
  {
    InitInv(world.threads);
    hide Inv;
  }

  lemma {:induction false} BehaviourOk(limit: nat, worlds: seq<World>, moves: seq<Move>, n: nat)
    requires Behaviour(limit, worlds, moves) && n < |worlds|
    ensures WorldOk(worlds[n], limit)
    decreases n
  {
    hide WorldOk, Possible, After, Shaped, Init;
    if n == 0 {
      InitOk(limit, worlds[0]);
    } else {
      BehaviourOk(limit, worlds, moves, n - 1);
      BehaviourMove(limit, worlds, moves, n - 1);
      MoveOk(worlds[n - 1], limit, moves[n - 1]);
    }
  }

  /**
   The whole server.  In every interleaving of its threads, with any kernel and any
   engine, every socket that became a connection has made exactly the calls of the
   stream that was offered to it, and to no earlier socket with its number; what it
   has sent and still holds are the responses due.  It is open as long as its worker
   keeps it, until shutdown; it was dropped only for a cause, and then its socket has
   been closed, exactly once.
   */
  lemma ServerGuarantees(limit: nat, worlds: seq<World>, moves: seq<Move>, n: nat, socket: nat)
    requires Behaviour(limit, worlds, moves) && n < |worlds| && socket in worlds[n].clients
    ensures var client, threads := worlds[n].clients[socket], worlds[n].threads;
            var l, stream := client.view.log, Offer(client.rounds);
            && |l.executed| == |l.outcomes| && l.executed <= Parse(stream).requests
            && (!l.breached ==> l.executed == Parse(stream).requests && l.queued == Due(l.executed, l.outcomes, Parse(stream)))
            && l.sent + l.pending == Stream(l.queued) && |l.pending| <= limit
            && Justified(client.rounds, client.kept, |l.sent|, |l.pending|, l.breached)
            && socket < |threads.closes| && threads.closes[socket] == (if socket in threads.descriptors then 0 else 1)
            && (client.kept && socket !in threads.descriptors ==> threads.front.acceptor.Exited?)
            && (!client.kept ==> socket !in threads.descriptors)
  {
    hide Behaviour;
    BehaviourOk(limit, worlds, moves, n);
    var client, threads := worlds[n].clients[socket], worlds[n].threads;
    var l, stream := client.view.log, Offer(client.rounds);
    assert OpenOk(threads, client, socket) && socket < |threads.closes|;
    assert Bookkeeping(threads) by {
      hide Books, WorkerOk, AcceptorHolds, PlacesExist, JoinerOk, AcceptorOk;
    }
    assert Coherent(l) && Settled(l) && Offered(l, stream) && |l.pending| <= limit by {
      hide Inv, InstalledOk, OpenOk, Coherent, Settled, Overflowed, Offered, Offer, PeerSeenGone, AllRearmed, SocketBroke;
    }
    hide Inv, InstalledOk, Coherent, Settled, Offered, Parse, Due, Justified, ConnectedAt, Sensible;
    AfterIsJustified(client.view, limit, client.rounds, client.kept);
    WholeStream(l, stream);
    QueuedIsDue(l, stream);
    SentAndPending(l);
  }

  /** A served event was reported for the socket it is served to, not for an earlier one with the same number. */
  lemma EventsReachTheirClient(limit: nat, worlds: seq<World>, moves: seq<Move>, n: nat)
    requires Behaviour(limit, worlds, moves) && n < |moves| && moves[n].Serve?
    ensures var worker := worlds[n].threads.workers[moves[n].worker];
            ForConnection(worker) && worker.batch[0].socket == Served(worker)
    ensures forall socket :: socket in worlds[n].clients && socket != Served(worlds[n].threads.workers[moves[n].worker]) ==>
              socket in worlds[n + 1].clients && worlds[n + 1].clients[socket] == worlds[n].clients[socket]
  {
    hide Behaviour, Possible, After, Next, Enabled, Served, ForConnection, Keeps, StepOf;
    hide WorldOk, Inv, Shaped;
    BehaviourMove(limit, worlds, moves, n);
    BehaviourOk(limit, worlds, moves, n);
    WorldIsSound(worlds[n], limit);
    ServeIs(worlds[n], limit, moves[n].worker, moves[n].round, moves[n].view);
    ServesItsOwn(worlds[n].threads, moves[n].worker);
  }

  lemma WorldIsSound(world: World, limit: nat)
    requires WorldOk(world, limit)
    ensures Inv(world.threads)
  {
    hide Inv, ClientsOk, InstalledOk, OpenOk;
  }

  ghost function ThreadsOf(worlds: seq<World>): seq<State> {
    seq(|worlds|, i requires 0 <= i < |worlds| => worlds[i].threads)
  }

  ghost function StepsOf(moves: seq<Move>): seq<Step> {
    seq(|moves|, i requires 0 <= i < |moves| => StepOf(moves[i]))
  }

  lemma MoveIsStep(world: World, limit: nat, move: Move)
    requires Shaped(world.threads) && Possible(world, limit, move)
    ensures Enabled(world.threads, StepOf(move)) && After(world, limit, move).threads == Next(world.threads, StepOf(move))
  {
    hide Next, WorkEnabled, FrontEnabled, JoinEnabled, RoundStep, Sensible, Fits, Keeps, ForConnection, Installed;
  }

  /** Seen without its connections, the server is a behaviour of the hand-off protocol: all that is proved of that holds here. */
  lemma ThreadsBehave(limit: nat, worlds: seq<World>, moves: seq<Move>)
    requires Behaviour(limit, worlds, moves)
    ensures Handoff.Behaviour(ThreadsOf(worlds), StepsOf(moves))
  {
    hide Possible, After, Init, Shaped, Enabled, Next, StepOf;
    forall n | 0 <= n < |moves|
      ensures Shaped(worlds[n].threads) && Enabled(worlds[n].threads, StepOf(moves[n]))
      ensures worlds[n + 1].threads == Next(worlds[n].threads, StepOf(moves[n]))
    {
      BehaviourMove(limit, worlds, moves, n);
      MoveIsStep(worlds[n], limit, moves[n]);
    }
  }

  /** After join, every connection there ever was has been closed, exactly once. */
  lemma JoinClosesEveryClient(limit: nat, worlds: seq<World>, moves: seq<Move>, n: nat, socket: nat)
    requires Behaviour(limit, worlds, moves) && n < |worlds| && socket in worlds[n].clients
    requires worlds[n].threads.joiner.Joined?
    ensures socket < |worlds[n].threads.closes| && worlds[n].threads.closes[socket] == 1
  {
    hide Behaviour, Handoff.Behaviour;
    ThreadsBehave(limit, worlds, moves);
    NoLostSocket(ThreadsOf(worlds), StepsOf(moves), n);
    BehaviourOk(limit, worlds, moves, n);
    hide Inv, InstalledOk, OpenOk, ConnectionRuns.After;
  }
}
