/**
 Shutdown: once a stop is requested, the acceptor and every worker end after a
 bounded number of their own steps, and until `join` has returned some thread that
 shutdown waits for can take a step.
 */
module Shutdown {
  import opened Handoff

  // ---- A stopped worker ends ----

  /** How many more steps of its own a stopped worker can take at most. */
  function Remaining(worker: Worker): nat {
    var held := |worker.connections| + |worker.pending|;
    match worker.phase
    case Waiting => held + MAX_EVENTS + 5
    case InBatch => held + |worker.batch| + 4
    case ReadyToInstall => held + |worker.pending| + 5
    case Installing => held + 2 * |worker.moving| + 4
    case AtLoop => held + 3
    case ClearingConnections => held + 2
    case ClearingPending => |worker.pending| + 1
    case Finished => 0
  }

  lemma ZeroMeansFinished(worker: Worker)
    ensures Remaining(worker) == 0 <==> worker.phase.Finished?
  {
  }

  lemma CloseKeepsWorkers(s: State, fd: nat)
    ensures Close(s, fd).workers == s.workers && Close(s, fd).front == s.front
  {
  }

  lemma PhaseAdvances(s: State, w: nat, step: WorkStep)
    requires CanWork(s, w, step) && s.workers[w].stop
    requires !step.HandleEvent? && !step.Install? && !step.CloseConnection? && !step.CloseQueued?
    ensures Remaining(NextWorker(s, w, step).workers[w]) < Remaining(s.workers[w])
    ensures NextWorker(s, w, step).workers[w].stop
  {
    hide Close, Taken;
  }

  lemma HandlingAdvances(s: State, w: nat, drop: bool)
    requires CanWork(s, w, HandleEvent(drop)) && s.workers[w].stop
    ensures var worker := NextWorker(s, w, HandleEvent(drop)).workers[w];
            Remaining(worker) < Remaining(s.workers[w]) && worker.stop
  {
    var worker := s.workers[w];
    var e := worker.batch[0];
    if e.Ready? && drop && e.fd in worker.connections {
      CloseKeepsWorkers(Update(s, w, Handled(worker).(connections := worker.connections - {e.fd})), e.fd);
    }
    hide Close;
  }

  lemma InstallingAdvances(s: State, w: nat, registered: bool)
    requires CanWork(s, w, Install(registered)) && s.workers[w].stop
    ensures var worker := NextWorker(s, w, Install(registered)).workers[w];
            Remaining(worker) < Remaining(s.workers[w]) && worker.stop
  {
    var worker := s.workers[w];
    CloseKeepsWorkers(Update(s, w, worker.(moving := worker.moving[1..])), worker.moving[0]);
    hide Close;
  }

  lemma ClearingAdvances(s: State, w: nat, step: WorkStep)
    requires CanWork(s, w, step) && (step.CloseConnection? || step.CloseQueued?) && s.workers[w].stop
    ensures var worker := NextWorker(s, w, step).workers[w];
            Remaining(worker) < Remaining(s.workers[w]) && worker.stop
  {
    var worker := s.workers[w];
    if step.CloseConnection? {
      var fewer := worker.connections - {step.fd};
      CloseKeepsWorkers(Update(s, w, worker.(connections := fewer)), step.fd);
      assert fewer.Keys == worker.connections.Keys - {step.fd};
    } else {
      CloseKeepsWorkers(Update(s, w, worker.(pending := worker.pending[1..])), worker.pending[0]);
    }
    hide Close;
  }

  /** Once told to stop, every step a worker takes brings it strictly nearer to its end. */
  lemma StoppedWorkerAdvances(s: State, w: nat, step: WorkStep)
    requires CanWork(s, w, step) && s.workers[w].stop
    ensures Remaining(NextWorker(s, w, step).workers[w]) < Remaining(s.workers[w])
    ensures NextWorker(s, w, step).workers[w].stop
  {
    hide NextWorker, Remaining, WorkEnabled;
    match step
    case HandleEvent(drop) => HandlingAdvances(s, w, drop);
    case Install(registered) => InstallingAdvances(s, w, registered);
    case CloseConnection(_) => ClearingAdvances(s, w, step);
    case CloseQueued => ClearingAdvances(s, w, step);
    case _ => PhaseAdvances(s, w, step);
  }

  /** And it can always take one, once the stopping thread has woken it, until it is finished. */
  lemma StoppedWorkerCanStep(s: State, w: nat) returns (step: WorkStep)
    requires Inv(s) && w < |s.workers| && s.workers[w].stop && !s.workers[w].phase.Finished?
    requires s.joiner != Stopping(w, true)
    ensures CanWork(s, w, step)
  {
    var worker := s.workers[w];
    assert worker.phase.Waiting? ==> 0 < worker.counter by {
      hide Books, AcceptorHolds, PlacesExist, JoinerOk, AcceptorOk, BatchIsCurrent, Awake, Owns;
      assert WorkerOk(s, w);
    }
    hide Inv;
    match worker.phase
    case AtLoop => step := CheckLoop;
    case Waiting => step := WaitReturns([Wakeup]);
    case InBatch => step := if worker.batch == [] then EndBatch else HandleEvent(false);
    case ReadyToInstall => step := TakePending;
    case Installing => step := if worker.moving == [] then EndInstall else Install(true);
    case ClearingConnections =>
      if worker.connections == map[] {
        step := EndConnections;
      } else {
        var fd :| fd in worker.connections;
        step := CloseConnection(fd);
      }
    case ClearingPending => step := if worker.pending == [] then EndQueued else CloseQueued;
  }

  lemma OthersKeepWorker(s: State, v: nat, step: WorkStep, w: nat)
    requires CanWork(s, v, step) && v != w && w < |s.workers|
    ensures NextWorker(s, v, step).workers[w] == s.workers[w]
  {
    hide Close, Taken, CanReport, Handled;
    forall t, fd ensures Close(t, fd).workers == t.workers {
      CloseKeepsWorkers(t, fd);
    }
  }

  lemma JoinerKeepsWorker(s: State, step: JoinStep, w: nat)
    requires JoinEnabled(s, step) && w < |s.workers| && s.workers[w].stop
    ensures var worker, worker' := s.workers[w], NextJoin(s, step).workers[w];
            worker' == worker.(counter := worker'.counter)
  {
  }

  lemma StopMeansExited(s: State, w: nat)
    requires Inv(s) && w < |s.workers| && s.workers[w].stop
    ensures s.front.acceptor.Exited?
  {
    hide Books, AcceptorHolds, PlacesExist, AcceptorOk, BatchIsCurrent, Awake, Owns, PhaseOk;
    assert WorkerOk(s, w);
  }

  /** Other threads do not add to a stopped worker's work. */
  lemma StoppedWorkerIsLeftAlone(s: State, step: Step, w: nat)
    requires Shaped(s) && Inv(s) && Enabled(s, step) && w < |s.workers| && s.workers[w].stop
    requires step.ByWorker? ==> step.worker != w
    ensures var worker, worker' := s.workers[w], Next(s, step).workers[w];
            worker' == worker.(counter := worker'.counter)
  {
    StopMeansExited(s, w);
    hide Inv, CanWork, NextWorker, JoinEnabled, NextJoin;
    match step
    case ByWorker(v, work) => OthersKeepWorker(s, v, work, w);
    case ByJoiner(join) => JoinerKeepsWorker(s, join, w);
    case _ =>
  }

  /** The steps of one worker among those from `m` up to `n`. */
  function OwnSteps(steps: seq<Step>, m: nat, n: nat, w: nat): nat
    requires m <= n <= |steps|
  {
    if n == m then 0 else
      OwnSteps(steps, m, n - 1, w) + if steps[n - 1].ByWorker? && steps[n - 1].worker == w then 1 else 0
  }

  lemma StoppedWorkerStep(s: State, step: Step, w: nat)
    requires Shaped(s) && Inv(s) && Enabled(s, step) && w < |s.workers| && s.workers[w].stop
    ensures Next(s, step).workers[w].stop
    ensures Remaining(Next(s, step).workers[w]) + (if step.ByWorker? && step.worker == w then 1 else 0)
         <= Remaining(s.workers[w])
  {
    hide Inv;
    if step.ByWorker? && step.worker == w {
      hide Remaining, NextWorker, CanWork;
      StoppedWorkerAdvances(s, w, step.work);
    } else {
      hide Enabled, Next;
      StoppedWorkerIsLeftAlone(s, step, w);
    }
  }

  /**
   A stopped worker ends.  In every interleaving, a worker told to stop takes at
   most `Remaining` more steps of its own, a number known when it is told, whatever
   other threads do meanwhile; once it has taken that many it has finished.
   */
  lemma {:induction false} StoppedWorkerEnds(states: seq<State>, steps: seq<Step>, m: nat, n: nat, w: nat)
    requires Behaviour(states, steps) && m <= n < |states| == |steps| + 1
    requires w < |states[m].workers| && states[m].workers[w].stop
    ensures |states[n].workers| == |states[m].workers| && states[n].workers[w].stop
    ensures OwnSteps(steps, m, n, w) + Remaining(states[n].workers[w]) <= Remaining(states[m].workers[w])
    ensures OwnSteps(steps, m, n, w) == Remaining(states[m].workers[w]) ==> states[n].workers[w].phase.Finished?
    decreases n
  {
    hide Behaviour, Inv, Enabled, Next, Remaining, Shaped;
    if m < n {
      StoppedWorkerEnds(states, steps, m, n - 1, w);
      BehaviourStep(states, steps, n - 1);
      StoppedWorkerStep(states[n - 1], steps[n - 1], w);
    }
    ZeroMeansFinished(states[n].workers[w]);
  }

  // ---- A stopped acceptor ends ----

  predicate IsAcceptorStep(step: Step) {
    match step
    case ByFront(front) => !front.RequestStop? && !front.WakeAcceptor?
    case ByJoiner(_) => false
    case ByWorker(_, _) => false
    case _ => true
  }

  /** How many more steps the acceptor can take at most once the stop flag is set. */
  function AcceptorRemaining(front: Front): nat {
    match front.acceptor
    case Asleep => 2 * SOURCE_COUNT + 3
    case Calling => 2 * |front.sources| + 6
    case Holding(_, _) => 2 * |front.sources| + 5
    case Waking(_) => 2 * |front.sources| + 4
    case Accepting => 2 * |front.sources| + 3
    case Polling => 2 * |front.sources| + 2
    case AtTop => 1
    case Exited => 0
  }

  lemma FrontAdvances(front: Front, step: FrontStep)
    requires FrontEnabled(front, step) && front.stopServer
    ensures NextFront(front, step).stopServer
    ensures AcceptorRemaining(NextFront(front, step)) + (if IsAcceptorStep(ByFront(step)) then 1 else 0)
         <= AcceptorRemaining(front)
  {
  }

  lemma WorkersKeepFront(s: State, w: nat, step: WorkStep)
    requires CanWork(s, w, step)
    ensures NextWorker(s, w, step).front == s.front
  {
    hide Taken, Handled, CanReport;
  }

  lemma StoppedAcceptorAdvances(s: State, step: Step)
    requires Shaped(s) && Enabled(s, step) && s.front.stopServer
    ensures Next(s, step).front.stopServer
    ensures AcceptorRemaining(Next(s, step).front) + (if IsAcceptorStep(step) then 1 else 0) <= AcceptorRemaining(s.front)
  {
    hide CanWork, NextWorker, FrontEnabled, NextFront;
    match step
    case ByFront(front) => FrontAdvances(s.front, front);
    case ByWorker(w, work) => WorkersKeepFront(s, w, work);
    case Enqueue => CloseKeepsWorkers(s, s.front.acceptor.fd);
    case _ =>
  }

  function AcceptorSteps(steps: seq<Step>, m: nat, n: nat): nat
    requires m <= n <= |steps|
  {
    if n == m then 0 else AcceptorSteps(steps, m, n - 1) + if IsAcceptorStep(steps[n - 1]) then 1 else 0
  }

  /** After a stop request the acceptor takes a bounded number of steps, and then it has exited. */
  lemma {:induction false} StoppedAcceptorEnds(states: seq<State>, steps: seq<Step>, m: nat, n: nat)
    requires Behaviour(states, steps) && m <= n < |states| == |steps| + 1 && states[m].front.stopServer
    ensures states[n].front.stopServer
    ensures AcceptorSteps(steps, m, n) + AcceptorRemaining(states[n].front) <= AcceptorRemaining(states[m].front)
    ensures AcceptorSteps(steps, m, n) == AcceptorRemaining(states[m].front) ==> states[n].front.acceptor.Exited?
    decreases n
  {
    hide Behaviour, Inv, Enabled, Next, Shaped, IsAcceptorStep;
    if m < n {
      StoppedAcceptorEnds(states, steps, m, n - 1);
      BehaviourStep(states, steps, n - 1);
      StoppedAcceptorAdvances(states[n - 1], steps[n - 1]);
    }
  }

  // ---- Shutdown is never stuck ----

  /** No lost stop: an acceptor asleep after a stop request has been or is about to be woken. */
  lemma NoLostStop(states: seq<State>, steps: seq<Step>, n: nat)
    requires Behaviour(states, steps) && n < |states| && states[n].front.stopServer && states[n].front.acceptor.Asleep?
    ensures 0 < states[n].front.stopCounter || 0 < states[n].front.stoppers
    ensures states[n].front.stoppers == 0 ==> Enabled(states[n], ByFront(PollReturns([StopEvent])))
  {
    hide Behaviour, Books, AcceptorHolds, PlacesExist, WorkerOk, JoinerOk;
    BehaviourInv(states, steps, n);
  }

  /** A step of a thread that shutdown is waiting for. */
  predicate Awaited(s: State, step: Step) {
    match step
    case ByFront(front) => !front.RequestStop?
    case ByWorker(w, _) => s.front.acceptor.Exited? && w < |s.workers| && s.workers[w].stop
    case ByJoiner(_) => s.front.acceptor.Exited?
    case _ => true
  }

  /** From the stop request until `join` has returned, some thread that is waited for can take a step. */
  lemma ShutdownProgress(states: seq<State>, steps: seq<Step>, n: nat) returns (step: Step)
    requires Behaviour(states, steps) && n < |states| && states[n].front.stopServer && !states[n].joiner.Joined?
    ensures Enabled(states[n], step) && Awaited(states[n], step)
  {
    BehaviourInv(states, steps, n);
    var s := states[n];
    assert AcceptorOk(s.front) by {
      hide Books, AcceptorHolds, PlacesExist, WorkerOk, JoinerOk;
    }
    hide Behaviour, Inv, CanWork, JoinEnabled;
    if 0 < s.front.stoppers {
      return ByFront(WakeAcceptor);
    }
    match s.front.acceptor
    case AtTop => step := ByFront(CheckTop);
    case Asleep => step := ByFront(PollReturns([StopEvent]));
    case Polling => step := ByFront(if s.front.sources == [] then EndPoll else HandleSource);
    case Accepting => step := ByFront(CheckAccept);
    case Calling => step := ByFront(AcceptFails(false));
    case Holding(_, _) => step := Enqueue;
    case Waking(_) => step := Wake;
    case Exited => step := JoinProgress(s);
  }

  lemma JoinProgress(s: State) returns (step: Step)
    requires Inv(s) && s.front.acceptor.Exited? && !s.joiner.Joined?
    ensures Enabled(s, step) && Awaited(s, step)
  {
    assert JoinerOk(s) by {
      hide Books, AcceptorHolds, PlacesExist, WorkerOk, AcceptorOk;
    }
    if s.joiner.NotJoining? {
      return ByJoiner(JoinAcceptor);
    }
    if s.joiner.worker < |s.workers| {
      return ByJoiner(if s.joiner.stored then WakeStopped else StoreStop);
    }
    if forall w :: 0 <= w < |s.workers| ==> s.workers[w].phase == Finished {
      return ByJoiner(JoinWorkers);
    }
    var w: nat :| w < |s.workers| && s.workers[w].phase != Finished;
    assert s.workers[w].stop by {
      hide Books, AcceptorHolds, PlacesExist, BatchIsCurrent, Awake, Owns, PhaseOk, AcceptorOk;
      assert WorkerOk(s, w);
    }
    hide Inv, CanWork;
    var work := StoppedWorkerCanStep(s, w);
    step := ByWorker(w, work);
  }
}
