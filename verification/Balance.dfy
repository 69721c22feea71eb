/** Accepted sockets go to the workers in turn, and each worker takes its own in the order of acceptance. */
module Balance {
  import opened Basics
  import opened Handoff
  import Shutdown

  /** The worker whose turn a socket is. */
  function Turn(socket: nat, workers: nat): nat
    requires 0 < workers
  {
    socket % workers
  }

  ghost predicate PlaceInTurn(place: Place, socket: nat, workers: nat)
    requires 0 < workers
  {
    match place
    case WithAcceptor => true
    case Queued(w) => w == Turn(socket, workers)
    case Moving(w) => w == Turn(socket, workers)
    case Connected(w) => w == Turn(socket, workers)
  }

  /** Where a descriptor stands is at the worker whose turn its socket is. */
  ghost predicate PlacesInTurn(places: map<nat, Place>, sockets: map<nat, nat>, workers: nat)
    requires 0 < workers
  {
    forall fd :: fd in places && fd in sockets ==> PlaceInTurn(places[fd], sockets[fd], workers)
  }

  ghost predicate InTurn(s: State) {
    && s.workers != [] && s.front.nextWorker == |s.closes|
    && (s.front.acceptor.Holding? && s.front.acceptor.fd in s.sockets ==>
          s.front.acceptor.worker == Turn(s.sockets[s.front.acceptor.fd], |s.workers|))
    && PlacesInTurn(s.places, s.sockets, |s.workers|)
  }

  lemma CloseInTurn(s: State, fd: nat)
    requires s.workers != [] && PlacesInTurn(s.places, s.sockets, |s.workers|)
    ensures var t := Close(s, fd);
            && t.workers == s.workers && t.front == s.front && |t.closes| == |s.closes|
            && (forall x :: x in t.sockets ==> x in s.sockets && t.sockets[x] == s.sockets[x])
            && PlacesInTurn(t.places, t.sockets, |t.workers|)
  {
    hide Turn;
  }

  lemma WorkerOwns(s: State, w: nat)
    requires Inv(s) && w < |s.workers|
    ensures Owns(s.workers[w], w, s.places, s.sockets)
  {
    hide Books, Owns, AcceptorHolds, PlacesExist, JoinerOk, AcceptorOk, BatchIsCurrent, PhaseOk, Awake, StopOk;
    assert WorkerOk(s, w);
  }

  lemma InstallInTurn(s: State, w: nat, registered: bool)
    requires InTurn(s) && CanWork(s, w, Install(registered)) && Owns(s.workers[w], w, s.places, s.sockets)
    ensures InTurn(NextWorker(s, w, Install(registered)))
  {
    hide Turn, NoDuplicates, Close;
    var worker := s.workers[w];
    assert worker.moving[0] in worker.moving;
    CloseInTurn(Update(s, w, worker.(moving := worker.moving[1..])), worker.moving[0]);
  }

  lemma TakeInTurn(s: State, w: nat)
    requires InTurn(s) && CanWork(s, w, TakePending)
    ensures InTurn(NextWorker(s, w, TakePending))
  {
    hide Turn;
  }

  /** Closing steps, and steps that change only the worker itself. */
  lemma OtherWorkInTurn(s: State, w: nat, step: WorkStep)
    requires InTurn(s) && CanWork(s, w, step) && !step.Install? && !step.TakePending?
    ensures InTurn(NextWorker(s, w, step))
  {
    hide CanReport, Handled, Close, PlacesInTurn, Turn;
    var worker := s.workers[w];
    match step
    case HandleEvent(drop) =>
      if drop && worker.batch[0].Ready? && worker.batch[0].fd in worker.connections {
        var fd := worker.batch[0].fd;
        CloseInTurn(Update(s, w, Handled(worker).(connections := worker.connections - {fd})), fd);
      }
    case CloseConnection(fd) => CloseInTurn(Update(s, w, worker.(connections := worker.connections - {fd})), fd);
    case CloseQueued => CloseInTurn(Update(s, w, worker.(pending := worker.pending[1..])), worker.pending[0]);
    case _ =>
  }

  lemma WorkInTurn(s: State, w: nat, step: WorkStep)
    requires InTurn(s) && Inv(s) && CanWork(s, w, step)
    ensures InTurn(NextWorker(s, w, step))
  {
    hide Inv, InTurn, NextWorker, WorkEnabled, Owns;
    WorkerOwns(s, w);
    match step
    case Install(registered) => InstallInTurn(s, w, registered);
    case TakePending => TakeInTurn(s, w);
    case _ => OtherWorkInTurn(s, w, step);
  }

  lemma AcceptInTurn(s: State, fd: nat)
    requires InTurn(s) && fd !in s.sockets
    ensures InTurn(AfterAccept(s, fd))
  {
    assert s.front.nextWorker % |s.workers| == Turn(|s.closes|, |s.workers|);
    hide Turn;
  }

  lemma EnqueueInTurn(s: State)
    requires InTurn(s) && Inv(s) && Shaped(s) && s.front.acceptor.Holding?
    ensures InTurn(AfterEnqueue(s))
  {
    EnqueueInv(s);
    hide Inv, Turn, Close;
  }

  lemma StepInTurn(s: State, step: Step)
    requires InTurn(s) && Inv(s) && Shaped(s) && Enabled(s, step)
    ensures InTurn(Next(s, step))
  {
    hide Inv, CanWork, NextWorker, AfterAccept, AfterEnqueue, FrontEnabled;
    match step
    case ByWorker(w, work) => hide InTurn; WorkInTurn(s, w, work);
    case Accept(fd) => hide InTurn; AcceptInTurn(s, fd);
    case Enqueue => hide InTurn; EnqueueInTurn(s);
    case ByFront(front) => hide PlacesInTurn, Turn;
    case Wake => hide PlacesInTurn, Turn;
    case ByJoiner(join) => hide PlacesInTurn, Turn;
  }

  lemma {:induction false} BehaviourInTurn(states: seq<State>, steps: seq<Step>, n: nat)
    requires Behaviour(states, steps) && n < |states|
    ensures InTurn(states[n])
    decreases n
  {
    hide InTurn, Inv, Enabled, Next, Shaped, Behaviour;
    if n == 0 {
      StartsInTurn(states, steps);
    } else {
      BehaviourInTurn(states, steps, n - 1);
      Lengths(states, steps);
      BehaviourStep(states, steps, n - 1);
      StepInTurn(states[n - 1], steps[n - 1]);
    }
  }

  lemma Lengths(states: seq<State>, steps: seq<Step>)
    requires Behaviour(states, steps)
    ensures |states| == |steps| + 1
  {
    hide Init, Shaped, Enabled, Next;
  }

  lemma StartsInTurn(states: seq<State>, steps: seq<Step>)
    requires Behaviour(states, steps)
    ensures |states| > 0 && InTurn(states[0])
  {
    hide Shaped, Enabled, Next;
  }

  /**
   Round robin: in every interleaving, socket number `k` is only ever queued at, moved
   by or connected to worker `k` modulo the number of workers.
   */
  lemma RoundRobin(states: seq<State>, steps: seq<Step>, n: nat, w: nat, fd: nat)
    requires Behaviour(states, steps) && n < |states| && w < |states[n].workers|
    requires var worker := states[n].workers[w];
             fd in worker.pending || fd in worker.moving || fd in worker.connections
    ensures fd in states[n].sockets && w == states[n].sockets[fd] % |states[n].workers|
  {
    BehaviourInTurn(states, steps, n);
    BehaviourInv(states, steps, n);
    hide Behaviour;
    var s := states[n];
    WorkerOwns(s, w);
    assert Bookkeeping(s) by {
      hide Books, WorkerOk, AcceptorHolds, PlacesExist, JoinerOk, AcceptorOk;
    }
    hide Inv, NoDuplicates;
  }

  // ---- First in, first out ----

  /** Descriptors in the order in which their sockets were accepted. */
  ghost predicate Fifo(queue: seq<nat>, sockets: map<nat, nat>) {
    && (forall i :: 0 <= i < |queue| ==> queue[i] in sockets)
    && (forall i, j :: 0 <= i < j < |queue| ==> sockets[queue[i]] < sockets[queue[j]])
  }

  /** What a worker has taken over and not installed yet comes before what is still queued. */
  ghost predicate InOrder(s: State) {
    && (s.front.acceptor.Holding? ==>
          s.front.acceptor.fd in s.sockets && s.sockets[s.front.acceptor.fd] + 1 == |s.closes|)
    && forall w :: 0 <= w < |s.workers| ==> Fifo(s.workers[w].moving + s.workers[w].pending, s.sockets)
  }

  lemma FifoTail(queue: seq<nat>, sockets: map<nat, nat>)
    requires Fifo(queue, sockets) && queue != []
    ensures Fifo(queue[1..], sockets)
  {
  }

  /** A queue does not depend on descriptors that are not in it. */
  lemma FifoFrame(queue: seq<nat>, sockets: map<nat, nat>, sockets': map<nat, nat>, fd: nat)
    requires Fifo(queue, sockets) && fd !in queue
    requires forall x :: x in sockets && x != fd ==> x in sockets' && sockets'[x] == sockets[x]
    ensures Fifo(queue, sockets')
  {
    assert forall i :: 0 <= i < |queue| ==> queue[i] in queue;
  }

  lemma FifoPush(queue: seq<nat>, sockets: map<nat, nat>, fd: nat)
    requires Fifo(queue, sockets) && fd in sockets
    requires forall i :: 0 <= i < |queue| ==> sockets[queue[i]] < sockets[fd]
    ensures Fifo(queue + [fd], sockets)
  {
  }

  /** Closing a descriptor that no queue holds leaves every queue in order. */
  lemma CloseInOrder(s: State, fd: nat)
    requires InOrder(s) && (s.front.acceptor.Holding? ==> s.front.acceptor.fd != fd)
    requires forall w :: 0 <= w < |s.workers| ==> fd !in s.workers[w].moving + s.workers[w].pending
    ensures InOrder(Close(s, fd))
  {
    hide Fifo;
    var t := Close(s, fd);
    forall w | 0 <= w < |t.workers| ensures Fifo(t.workers[w].moving + t.workers[w].pending, t.sockets) {
      FifoFrame(s.workers[w].moving + s.workers[w].pending, s.sockets, t.sockets, fd);
    }
  }

  /** A worker's new queue is in order, and the others are as they were. */
  lemma UpdateInOrder(s: State, w: nat, worker: Worker)
    requires InOrder(s) && w < |s.workers| && Fifo(worker.moving + worker.pending, s.sockets)
    ensures InOrder(Update(s, w, worker))
  {
    hide Fifo;
  }

  /** A descriptor at one worker is in no other worker's queue, nor in the acceptor's hand. */
  lemma HeldHere(s: State, w: nat, fd: nat)
    requires Inv(s) && w < |s.workers| && fd in s.places && s.places[fd] in {Queued(w), Moving(w), Connected(w)}
    ensures s.front.acceptor.Holding? ==> s.front.acceptor.fd != fd
    ensures forall v :: 0 <= v < |s.workers| && (v != w || s.places[fd].Connected?) ==>
              fd !in s.workers[v].moving + s.workers[v].pending
  {
    assert AcceptorHolds(s.front.acceptor, s.places) by {
      hide AcceptorHolds, Books, WorkerOk, PlacesExist, JoinerOk, AcceptorOk;
    }
    forall v | 0 <= v < |s.workers| && (v != w || s.places[fd].Connected?)
      ensures fd !in s.workers[v].moving + s.workers[v].pending
    {
      hide Inv, NoDuplicates;
      WorkerOwns(s, v);
    }
    hide Inv;
  }

  /** A worker drops a connection. */
  lemma DropInOrder(s: State, w: nat, worker: Worker, fd: nat)
    requires InOrder(s) && Inv(s) && w < |s.workers| && fd in s.workers[w].connections
    requires worker.moving == s.workers[w].moving && worker.pending == s.workers[w].pending
    ensures InOrder(Close(Update(s, w, worker), fd))
  {
    WorkerOwns(s, w);
    hide Inv, NoDuplicates, Fifo, Close;
    HeldHere(s, w, fd);
    UpdateInOrder(s, w, worker);
    CloseInOrder(Update(s, w, worker), fd);
  }

  /** A worker takes the head off its own queue and closes it. */
  lemma HeadInOrder(s: State, w: nat, worker: Worker, fd: nat)
    requires InOrder(s) && Inv(s) && w < |s.workers|
    requires var queue := s.workers[w].moving + s.workers[w].pending;
             queue != [] && queue[0] == fd && worker.moving + worker.pending == queue[1..]
    ensures InOrder(Update(s, w, worker)) && InOrder(Close(Update(s, w, worker), fd))
  {
    var queue := s.workers[w].moving + s.workers[w].pending;
    WorkerOwns(s, w);
    assert fd in queue && fd !in queue[1..];
    assert fd in s.places && s.places[fd] in {Queued(w), Moving(w), Connected(w)} by {
      hide NoDuplicates, Inv, Fifo, InOrder;
    }
    FifoTail(queue, s.sockets);
    hide Inv, NoDuplicates, Fifo, Close, Owns;
    HeldHere(s, w, fd);
    UpdateInOrder(s, w, worker);
    CloseInOrder(Update(s, w, worker), fd);
  }

  lemma InstallInOrder(s: State, w: nat, registered: bool)
    requires InOrder(s) && Inv(s) && CanWork(s, w, Install(registered))
    ensures InOrder(NextWorker(s, w, Install(registered)))
  {
    hide Inv, Fifo, InOrder, Close;
    var worker := s.workers[w];
    var fd, rest := worker.moving[0], worker.(moving := worker.moving[1..]);
    assert rest.moving + rest.pending == (worker.moving + worker.pending)[1..];
    HeadInOrder(s, w, rest, fd);
    if fd in s.sockets {
      var more := rest.(connections := worker.connections[fd := s.sockets[fd]]);
      HeadInOrder(s, w, more, fd);
      MoveKeepsOrder(Update(s, w, more), fd, Connected(w));
    }
  }

  lemma MoveKeepsOrder(s: State, fd: nat, place: Place)
    requires InOrder(s)
    ensures InOrder(Move(s, fd, place))
  {
    hide Fifo;
  }

  lemma TakeInOrder(s: State, w: nat)
    requires InOrder(s) && Inv(s) && CanWork(s, w, TakePending)
    ensures InOrder(NextWorker(s, w, TakePending))
  {
    var worker := s.workers[w];
    assert worker.moving == [] by {
      hide Books, Owns, AcceptorHolds, PlacesExist, JoinerOk, AcceptorOk, BatchIsCurrent, Awake, StopOk, InOrder;
      assert WorkerOk(s, w);
    }
    hide Inv, Fifo, Taken;
    var taken := worker.(phase := Installing, pending := [], moving := worker.pending);
    assert taken.moving + taken.pending == worker.moving + worker.pending;
    UpdateInOrder(s, w, taken);
  }

  lemma OtherWorkInOrder(s: State, w: nat, step: WorkStep)
    requires InOrder(s) && CanWork(s, w, step)
    requires step.CheckLoop? || step.WaitInterrupted? || step.WaitReturns? || step.EndBatch? || step.EndInstall?
             || step.EndConnections? || step.EndQueued? || step == HandleEvent(false)
    ensures InOrder(NextWorker(s, w, step))
  {
    hide Fifo, CanReport;
    assert Fifo(s.workers[w].moving + s.workers[w].pending, s.sockets);
  }

  lemma WorkInOrder(s: State, w: nat, step: WorkStep)
    requires InOrder(s) && Inv(s) && CanWork(s, w, step)
    ensures InOrder(NextWorker(s, w, step))
  {
    var worker := s.workers[w];
    match step
    case Install(registered) => hide Inv, InOrder, NextWorker; InstallInOrder(s, w, registered);
    case TakePending => hide Inv, InOrder, NextWorker; TakeInOrder(s, w);
    case CloseConnection(fd) =>
      hide Inv, InOrder, Close;
      DropInOrder(s, w, worker.(connections := worker.connections - {fd}), fd);
    case CloseQueued =>
      assert worker.moving == [] by {
        hide Books, Owns, AcceptorHolds, PlacesExist, JoinerOk, AcceptorOk, BatchIsCurrent, Awake, StopOk, InOrder;
        assert WorkerOk(s, w);
      }
      hide Inv, InOrder, Close;
      var rest := worker.(pending := worker.pending[1..]);
      assert worker.moving + worker.pending == worker.pending && rest.moving + rest.pending == rest.pending;
      HeadInOrder(s, w, rest, worker.pending[0]);
    case HandleEvent(drop) =>
      hide Inv, InOrder, Close;
      if drop && worker.batch[0].Ready? && worker.batch[0].fd in worker.connections {
        var fd := worker.batch[0].fd;
        DropInOrder(s, w, Handled(worker).(connections := worker.connections - {fd}), fd);
      } else {
        OtherWorkInOrder(s, w, HandleEvent(false));
      }
    case _ => hide Inv, InOrder, NextWorker; OtherWorkInOrder(s, w, step);
  }

  lemma AcceptInOrder(s: State, fd: nat)
    requires InOrder(s) && s.workers != [] && fd !in s.sockets
    ensures InOrder(AfterAccept(s, fd))
  {
    var t := AfterAccept(s, fd);
    forall w | 0 <= w < |t.workers| ensures Fifo(t.workers[w].moving + t.workers[w].pending, t.sockets) {
      var queue := s.workers[w].moving + s.workers[w].pending;
      assert Fifo(queue, s.sockets);
      assert fd !in queue;
      hide Fifo;
      FifoFrame(queue, s.sockets, t.sockets, fd);
    }
  }

  lemma EnqueueInOrder(s: State)
    requires InOrder(s) && Inv(s) && Shaped(s) && s.front.acceptor.Holding?
    ensures InOrder(AfterEnqueue(s))
  {
    EnqueueInv(s);
    var fd, w := s.front.acceptor.fd, s.front.acceptor.worker;
    var worker := s.workers[w];
    var queue := worker.moving + worker.pending;
    QueuedBefore(s, w);
    FifoPush(queue, s.sockets, fd);
    var longer := worker.(pending := worker.pending + [fd]);
    assert longer.moving + longer.pending == queue + [fd];
    hide Inv, Fifo, Close;
    UpdateInOrder(s, w, longer);
  }

  /** What is queued was accepted before the socket in the acceptor's hand. */
  lemma QueuedBefore(s: State, w: nat)
    requires InOrder(s) && Inv(s) && s.front.acceptor.Holding? && w < |s.workers|
    ensures var queue := s.workers[w].moving + s.workers[w].pending;
            Fifo(queue, s.sockets) && s.front.acceptor.fd in s.sockets
            && forall i :: 0 <= i < |queue| ==> s.sockets[queue[i]] < s.sockets[s.front.acceptor.fd]
  {
    WorkerOwns(s, w);
    assert Bookkeeping(s) && AcceptorHolds(s.front.acceptor, s.places) by {
      hide Books, WorkerOk, AcceptorHolds, PlacesExist, JoinerOk, AcceptorOk;
    }
    hide Inv, NoDuplicates;
    var queue := s.workers[w].moving + s.workers[w].pending;
    assert Fifo(queue, s.sockets);
    forall i | 0 <= i < |queue| ensures s.sockets[queue[i]] < s.sockets[s.front.acceptor.fd] {
      assert queue[i] in queue && queue[i] in s.sockets;
      assert queue[i] != s.front.acceptor.fd;
    }
  }

  lemma StepInOrder(s: State, step: Step)
    requires InOrder(s) && Inv(s) && Shaped(s) && Enabled(s, step)
    ensures InOrder(Next(s, step))
  {
    hide Inv, CanWork, NextWorker, AfterAccept, AfterEnqueue;
    match step
    case ByWorker(w, work) => hide InOrder; WorkInOrder(s, w, work);
    case Accept(fd) => hide InOrder; AcceptInOrder(s, fd);
    case Enqueue => hide InOrder; EnqueueInOrder(s);
    case ByFront(front) => hide Fifo, CanPoll;
    case Wake =>
      hide Fifo;
      assert Fifo(s.workers[s.front.acceptor.worker].moving + s.workers[s.front.acceptor.worker].pending, s.sockets);
    case ByJoiner(join) => hide InOrder; JoinInOrder(s, join);
  }

  lemma JoinInOrder(s: State, step: JoinStep)
    requires InOrder(s) && JoinEnabled(s, step)
    ensures InOrder(NextJoin(s, step))
  {
    hide Fifo;
    if step.StoreStop? || step.WakeStopped? {
      var worker := s.workers[s.joiner.worker];
      assert Fifo(worker.moving + worker.pending, s.sockets);
    }
  }

  lemma {:induction false} BehaviourInOrder(states: seq<State>, steps: seq<Step>, n: nat)
    requires Behaviour(states, steps) && n < |states|
    ensures InOrder(states[n])
    decreases n
  {
    hide InOrder, Inv, Enabled, Next, Shaped, Behaviour;
    if n == 0 {
      StartsInOrder(states, steps);
    } else {
      BehaviourInOrder(states, steps, n - 1);
      Lengths(states, steps);
      BehaviourStep(states, steps, n - 1);
      StepInOrder(states[n - 1], steps[n - 1]);
    }
  }

  lemma StartsInOrder(states: seq<State>, steps: seq<Step>)
    requires Behaviour(states, steps)
    ensures |states| > 0 && InOrder(states[0])
  {
    hide Shaped, Enabled, Next;
  }

  /**
   First in, first out: in every interleaving a worker installs its sockets in the
   order in which they were accepted.  The next one to be installed was accepted
   before everything else it still has to install, taken over or queued.
   */
  lemma FirstComeFirstServed(states: seq<State>, steps: seq<Step>, n: nat, w: nat)
    requires Behaviour(states, steps) && n < |states| && w < |states[n].workers|
    ensures var s, queue := states[n], states[n].workers[w].moving + states[n].workers[w].pending;
            && (forall i :: 0 <= i < |queue| ==> queue[i] in s.sockets)
            && (forall i, j :: 0 <= i < j < |queue| ==> s.sockets[queue[i]] < s.sockets[queue[j]])
  {
    hide Behaviour;
    BehaviourInOrder(states, steps, n);
    assert Fifo(states[n].workers[w].moving + states[n].workers[w].pending, states[n].sockets);
  }

  // ---- Installation is announced ----

  /** A worker installs only after a batch in which it handled a wakeup; every batch starts without one. */
  ghost predicate Announced(worker: Worker) {
    worker.phase.ReadyToInstall? || worker.phase.Installing? ==> worker.wakeupSeen
  }

  lemma AnnouncedStep(s: State, step: Step, w: nat)
    requires Shaped(s) && Enabled(s, step) && w < |s.workers| && Announced(s.workers[w])
    ensures Announced(Next(s, step).workers[w])
  {
    if step.ByWorker? && step.worker == w {
      AnnouncedWork(s, w, step.work);
    } else if step.ByWorker? {
      hide CanWork, NextWorker;
      Shutdown.OthersKeepWorker(s, step.worker, step.work, w);
    } else {
      hide Close, NextFront, FrontEnabled;
      if step.Enqueue? {
        Shutdown.CloseKeepsWorkers(s, s.front.acceptor.fd);
      }
    }
  }

  lemma AnnouncedWork(s: State, w: nat, step: WorkStep)
    requires CanWork(s, w, step) && Announced(s.workers[w])
    ensures Announced(NextWorker(s, w, step).workers[w])
    ensures step.WaitReturns? ==> !NextWorker(s, w, step).workers[w].wakeupSeen
  {
    hide Taken, CanReport, Close;
    forall t, fd ensures Close(t, fd).workers == t.workers {
      Shutdown.CloseKeepsWorkers(t, fd);
    }
  }

  /** In every interleaving a worker is about to install, or installing, only if its last batch held a wakeup. */
  lemma {:induction false} InstallsOnWakeup(states: seq<State>, steps: seq<Step>, n: nat, w: nat)
    requires Behaviour(states, steps) && n < |states| && w < |states[n].workers|
    ensures Announced(states[n].workers[w])
    decreases n
  {
    hide Inv, Enabled, Next, Shaped, Behaviour, Announced;
    if n == 0 {
      StartsAnnounced(states, steps, w);
    } else {
      Lengths(states, steps);
      BehaviourStep(states, steps, n - 1);
      InstallsOnWakeup(states, steps, n - 1, w);
      AnnouncedStep(states[n - 1], steps[n - 1], w);
    }
  }

  lemma StartsAnnounced(states: seq<State>, steps: seq<Step>, w: nat)
    requires Behaviour(states, steps) && |states| > 0 && w < |states[0].workers|
    ensures Announced(states[0].workers[w])
  {
    hide Shaped, Enabled, Next;
  }

  // ---- Counters ----

  /** Handling a wakeup or a stop event drains its counter; writing to an eventfd raises it by one, up to its maximum. */
  lemma EventfdLaw(worker: Worker, front: Front, counter: nat)
    ensures worker.batch != [] && worker.batch[0].Wakeup? ==>
              Handled(worker).counter == 0 && Handled(worker).wakeupSeen && Handled(worker).batch == worker.batch[1..]
    ensures worker.batch != [] && worker.batch[0].Ready? ==>
              Handled(worker).counter == worker.counter && Handled(worker).wakeupSeen == worker.wakeupSeen
    ensures front.sources != [] && front.sources[0].StopEvent? ==> AfterSource(front).stopCounter == 0
    ensures counter < 18446744073709551614 ==> Bump(counter) == counter + 1
    ensures counter >= 18446744073709551614 ==> Bump(counter) == counter
  {
  }
}
