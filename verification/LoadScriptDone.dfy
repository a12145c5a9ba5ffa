/** DoneUpdate reports every packet as relayed. This module says exactly for which totals that can be untrue. */
module LoadScriptDone {
  import opened Wrappers
  import opened Sequences
  import opened RelayQueueCore
  import opened RelayQueueProtocol
  import opened RelayQueueProgress
  import opened LoadScript
  import opened LoadScriptInvariants
  import opened LoadScriptFlush
  import opened LoadScriptMessages
  import opened LoadScriptProgress
  import opened LoadScriptTheorems

  /** The end was announced with more packets relayed than have been. */
  ghost predicate Premature(s: State) {
    exists e :: e in s.log && e.update.updateType.DoneUpdate? &&
                e.update.completedRelaying > s.queue.core.relaysCompleted
  }

  // A premature end needs an incomplete last batch after a full one.

  lemma PrematureClaim(c: Config, s: State) returns (n: nat)
    requires Reachable(c, s) && Premature(s)
    ensures n < |s.log| && s.log[n].update.updateType.DoneUpdate?
    ensures 0 <= s.queue.core.relaysCompleted < c.Total()
  {
    ReachableInvariant(c, s);
    var e :| e in s.log && e.update.updateType.DoneUpdate? &&
             e.update.completedRelaying > s.queue.core.relaysCompleted;
    n :| 0 <= n < |s.log| && s.log[n] == e;
    assert EntryFits(c, s.workers, s.coordinator, n, |s.log|, e);
  }

  lemma PositiveMeansPackets(c: Config)
    requires c.Total() > 0
    ensures c.packetsPerWallet > 0
  {
    assert c.packetsPerWallet <= 0 ==> c.workers * c.packetsPerWallet <= 0;
  }

  lemma PrematureNeedsRest(c: Config, s: State)
    requires Reachable(c, s) && Premature(s)
    ensures c.Total() > BatchSize && c.Total() % BatchSize != 0
  {
    var n := PrematureClaim(c, s);
    PositiveMeansPackets(c);
    DoneMeaning(c, s, n);
    if c.Total() < BatchSize {
      SmallTotalDone(c, s, n);
    }
  }

  // A run in which nothing fails and no batch is ever started.

  predicate GoesWell(call: Call) {
    && call != FlushLeaving(false) && call != FlushDone(false) && !call.FlushWaiting?
    && (call.FlushRelayReturned? ==> call.ok)
  }

  predicate NothingStarted(exits: seq<Exit>) {
    forall j :: 0 <= j < |exits| ==> (exits[j].dispatched ==> exits[j].stage.Spawned?)
  }

  /** No worker has failed, no batch has been started, the flush neither fails nor waits for the batches. */
  ghost predicate Idling(s: State) {
    && (forall w :: w in s.workers ==> !w.pc.GaveUp? && !w.pc.ReportingFailure?)
    && NothingStarted(s.queue.core.exits)
    && (forall d :: 0 <= d < |s.queue.calls| ==> GoesWell(s.queue.calls[d]))
    && !s.coordinator.Reporting?
    && (s.coordinator.Closing? || s.coordinator.Closed? ==> s.coordinator.outcome.AllDone?)
  }

  lemma IdlingWorker(c: Config, s: State, i: nat, act: WorkerAct)
    requires Idling(s) && Smooth(s, WorkerStep(i, act))
    ensures Idling(AfterWorker(c, s, i, act))
  {
    assert s.workers[i] in s.workers;
    AfterWorkerCall(s.queue, i, s.workers[i], act);
  }

  lemma IdlingCoordinator(c: Config, s: State, act: CoordinatorAct)
    requires Idling(s) && Smooth(s, CoordinatorStep(act))
    ensures Idling(AfterCoordinator(c, s, act))
  {
    AfterCoordinatorCall(s.queue, |s.workers|, s.coordinator, act);
  }

  /** When the flush looks at the queue all packets have been added, and they do not fill the last batch. */
  lemma FlushFindsRest(c: Config, s: State, d: nat)
    requires ControlInv(c, s) && Idling(s) && d < |s.queue.calls| && s.queue.calls[d].FlushHeld?
    requires FlushStageInv(s) && c.packetsPerWallet >= 0 && c.Total() % BatchSize != 0
    ensures |s.queue.core.queue| > 0
  {
    FlushIsCoordinators(c, s, d);
    EveryWorker(c, s);
    AllQueued(c, s);
    QueueIsRemainder(c, s);
  }

  lemma AllQueued(c: Config, s: State)
    requires ControlInv(c, s) && c.packetsPerWallet >= 0
    requires forall w :: w in s.workers ==> w.pc.Through?
    ensures |s.queue.core.added| == c.Total()
  {
    EveryWorker(c, s);
    SumConstant(s.workers, Queued, c.Rounds());
  }

  /** Nothing waits for a goroutine, so no useful step is one of a goroutine. */
  lemma NoGoroutineStep(s: State, a: Action)
    requires RelayMutexInv(s.queue.calls, s.queue.core.exits, s.queue.relayMutex)
    requires Idling(s) && Useful(s.queue, a) && RelayStep(a)
    ensures a.owner.Flusher?
  {
    assert forall j: nat :: s.queue.relayMutex.writer == Held(Goroutine(j)) ==> Relays(s.queue.core.exits[j]);
  }

  lemma IdlingQueueStep(q: Queue, a: Action)
    requires Enabled(q, a) && Internal(a)
    requires NothingStarted(q.core.exits) && forall d :: 0 <= d < |q.calls| ==> GoesWell(q.calls[d])
    requires (RelayStep(a) ==> a.owner.Flusher?) && (a.RelayResult? ==> a.ok)
    requires a.FlushBody? ==> |q.core.queue| > 0
    ensures var q' := Apply(BatchSize, q, a);
            NothingStarted(q'.core.exits) && forall d :: 0 <= d < |q'.calls| ==> GoesWell(q'.calls[d])
  {
  }

  lemma IdlingQueue(c: Config, s: State, a: Action)
    requires ControlInv(c, s) && FlushStageInv(s) && Idling(s) && Useful(s.queue, a)
    requires c.packetsPerWallet >= 0 && c.Total() % BatchSize != 0
    ensures var q' := Apply(BatchSize, s.queue, a);
            NothingStarted(q'.core.exits) && forall d :: 0 <= d < |q'.calls| ==> GoesWell(q'.calls[d])
  {
    if RelayStep(a) {
      NoGoroutineStep(s, a);
    } else if a.FlushBody? {
      FlushFindsRest(c, s, a.c);
    }
    IdlingQueueStep(s.queue, a);
  }

  /** The history that a queue step may add leaves every worker where it is. */
  lemma QueueStepWorkersStay(s: State, a: Action)
    requires Possible(s, QueueStep(a))
    requires forall w :: w in s.workers ==> !w.pc.GaveUp? && !w.pc.ReportingFailure?
    ensures forall w :: w in AfterQueueStep(s, a).workers ==> !w.pc.GaveUp? && !w.pc.ReportingFailure?
  {
  }

  lemma IdlingStep(c: Config, s: State, step: Step)
    requires ControlInv(c, s) && FlushStageInv(s) && Idling(s) && Smooth(s, step)
    requires c.packetsPerWallet >= 0 && c.Total() % BatchSize != 0
    ensures Idling(After(c, s, step))
  {
    match step
    case WorkerStep(i, act) => IdlingWorker(c, s, i, act);
    case CoordinatorStep(act) => IdlingCoordinator(c, s, act);
    case QueueStep(a) =>
      IdlingQueue(c, s, a);
      QueueStepWorkersStay(s, a);
    case Receive =>
  }

  lemma StillReading(c: Config, s: State)
    requires Invariant(c, s) && Idling(s) && c.Total() != 0 && !CanSend(s)
    ensures Possible(s, Receive)
  {
  }

  lemma SmoothExists(c: Config, s: State) returns (step: Step)
    requires Invariant(c, s) && Idling(s) && c.Total() != 0 && !s.coordinator.Closed?
    ensures Smooth(s, step)
  {
    if CanSend(s) {
      step := ScriptProgress(c, s);
    } else {
      StillReading(c, s);
      step := Receive;
    }
  }

  lemma RunOn(c: Config, s: State) returns (step: Step)
    requires Reachable(c, s) && Idling(s) && !s.coordinator.Closed?
    requires c.packetsPerWallet >= 0 && c.Total() % BatchSize != 0
    ensures Possible(s, step) && Reachable(c, After(c, s, step)) && Idling(After(c, s, step))
    ensures 0 <= Remaining(After(c, s, step)) < Remaining(s)
  {
    ReachableInvariant(c, s);
    step := SmoothExists(c, s);
    Extend(c, s, step);
    IdlingStep(c, s, step);
    StepRemaining(c, s, step);
  }

  /** Runs on smoothly until the channel is closed. */
  lemma RunToClose(c: Config, s: State) returns (t: State)
    requires Reachable(c, s) && Idling(s)
    requires c.packetsPerWallet >= 0 && c.Total() % BatchSize != 0
    ensures Reachable(c, t) && Idling(t) && t.coordinator.Closed?
    decreases Remaining(s)
  {
    if s.coordinator.Closed? {
      t := s;
    } else {
      var step := RunOn(c, s);
      t := RunToClose(c, After(c, s, step));
    }
  }

  lemma ClosedIdling(c: Config, s: State)
    requires Invariant(c, s) && Idling(s) && s.coordinator.Closed? && c.packetsPerWallet >= 0
    ensures |s.queue.core.added| == c.Total() && Flushed(s.queue.core)
    ensures exists e :: e in s.log && e.update.updateType.DoneUpdate? && e.update.completedRelaying == c.Total()
  {
    AllQueued(c, s);
    var last := |s.log| - 1;
    assert s.log[last] in s.log && EndFits(s.coordinator, s.log[last]);
    assert EntryFits(c, s.workers, s.coordinator, last, |s.log|, s.log[last]);
  }

  lemma WaitingBatchUnrelayed(core: Core)
    requires PacketsInv(BatchSize, core) && Balanced(core, 0, 0) && Flushed(core) && NothingStarted(core.exits)
    requires |core.added| % BatchSize != 0 && |core.added| > BatchSize
    ensures core.relaysCompleted < |core.added|
  {
    StagesPartition(core.exits);
    assert !AllDispatched(core.exits);
    var n := |core.exits| - 1;
    assert core.exits == core.exits[..n] + [core.exits[n]];
    AppendExit(core.exits[..n], core.exits[n]);
    StagesPartition(core.exits[..n]);
    assert n > 0;
    assert core.exits[..n][0].dispatched && WellFormedExit(BatchSize, core.exits[0]);
    SumAtLeast(core.exits, 0, PendingSize);
  }

  lemma StartIdling(c: Config)
    ensures Reachable(c, Start(c)) && Idling(Start(c))
  {
    assert Play(c, Start(c), []) == Some(Start(c));
  }

  lemma NoFlushCounted(c: Config, s: State)
    requires ControlInv(c, s) && s.coordinator.Closed?
    ensures Balanced(s.queue.core, 0, 0)
  {
    forall call | call in s.queue.calls
      ensures FlushedSize(call) == 0 && FlushingSize(call) == 0
    {
      var d: nat :| d < |s.queue.calls| && s.queue.calls[d] == call;
      if d < |s.workers| {
        JoinedWorkersIdle(c, s, d);
      }
    }
    SumZero(s.queue.calls, FlushedSize);
    SumZero(s.queue.calls, FlushingSize);
  }

  lemma PrematureRun(c: Config) returns (s: State)
    requires c.Total() > BatchSize && c.Total() % BatchSize != 0 && c.packetsPerWallet >= 0
    ensures Reachable(c, s) && Premature(s)
  {
    StartIdling(c);
    s := RunToClose(c, Start(c));
    ReachableInvariant(c, s);
    ClosedIdling(c, s);
    NoFlushCounted(c, s);
    WaitingBatchUnrelayed(s.queue.core);
  }

  /** DoneUpdate can report packets as relayed that have not been exactly if the total exceeds the batch size and
      is not a multiple of it: then the flush relays the incomplete batch itself and does not wait for the others. */
  lemma PrematureIff(c: Config)
    ensures (exists s :: Reachable(c, s) && Premature(s)) <==> c.Total() > 10 && c.Total() % 10 != 0
  {
    if s :| Reachable(c, s) && Premature(s) {
      PrematureNeedsRest(c, s);
    }
    if c.Total() > 10 && c.Total() % 10 != 0 {
      PositiveMeansPackets(c);
      var s := PrematureRun(c);
    }
  }
}
