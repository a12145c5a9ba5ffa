/** What the script's one Flush has achieved when it succeeds, and what is left behind when it is never reached. */
module LoadScriptFlush {
  import opened RelayQueueCore
  import opened RelayQueueProtocol
  import opened LoadScript
  import opened LoadScriptInvariants
  import Theorems = RelayQueueTheorems

  predicate FlushSucceeded(pc: CoordinatorPc, call: Call) {
    || (pc.Flushing? && (call == FlushLeaving(true) || call == FlushDone(true)))
    || pc.ReportingDone?
    || ((pc.Closing? || pc.Closed?) && pc.outcome.AllDone?)
  }

  predicate AllDispatched(exits: seq<Exit>) {
    forall j :: 0 <= j < |exits| ==> exits[j].dispatched
  }

  /** Either everything left in full batches and all of them succeeded; or the flush relayed exactly the last
      incomplete batch, and says nothing about the others. */
  ghost predicate Flushed(core: Core) {
    && core.queue == []
    && (AllDispatched(core.exits) ==> AllSucceeded(core.exits) && |core.added| % BatchSize == 0)
    && (!AllDispatched(core.exits) ==>
          && |core.exits| > 0
          && AllDispatched(core.exits[..|core.exits| - 1])
          && var last := core.exits[|core.exits| - 1];
             && !last.dispatched && last.stage == Finished(true)
             && |last.packets| == |core.added| % BatchSize)
  }

  ghost predicate FlushStage(pc: CoordinatorPc, call: Call, core: Core) {
    if FlushSucceeded(pc, call) then Flushed(core) else AllDispatched(core.exits)
  }

  ghost predicate FlushStageInv(s: State)
    requires |s.queue.calls| == |s.workers| + 1
  {
    FlushStage(s.coordinator, s.queue.calls[|s.workers|], s.queue.core)
  }

  lemma QueueIsRemainder(c: Config, s: State)
    requires ControlInv(c, s) && AllDispatched(s.queue.core.exits)
    ensures |s.queue.core.queue| == |s.queue.core.added| % BatchSize
    ensures |s.queue.core.exits| == |s.queue.core.added| / BatchSize
  {
    var core := s.queue.core;
    Theorems.UniformSizes(core.exits, BatchSize);
    Theorems.DivMod(|core.added|, BatchSize, |core.exits|, |core.queue|);
  }

  lemma JoinedWorkersIdle(c: Config, s: State, i: nat)
    requires ControlInv(c, s) && Joined(s.coordinator) && i < |s.workers|
    ensures s.queue.calls[i].Idle?
  {
    assert s.workers[i] in s.workers && CallMatches(s.workers[i], s.queue.calls[i]);
  }

  lemma OnlyUnlockLeft(q: Queue, n: nat, a: Action)
    requires Enabled(q, a) && Internal(a) && |q.calls| == n + 1
    requires forall i: nat :: i < n ==> q.calls[i].Idle?
    requires q.calls[n].Idle? || q.calls[n] == FlushLeaving(true) || q.calls[n] == FlushDone(true)
    ensures a == UnlockQueue(n) || (RelayStep(a) && a.owner.Goroutine?)
  {
  }

  /** Once the flush has succeeded, only goroutines of batches still under way, and the flush's return, move. */
  lemma AfterFlush(c: Config, s: State, a: Action)
    requires ControlInv(c, s) && Possible(s, QueueStep(a))
    requires FlushSucceeded(s.coordinator, s.queue.calls[|s.workers|])
    ensures a == UnlockQueue(|s.workers|) || (RelayStep(a) && a.owner.Goroutine?)
  {
    var n := |s.workers|;
    forall i: nat | i < n
      ensures s.queue.calls[i].Idle?
    {
      JoinedWorkersIdle(c, s, i);
    }
    assert CoordinatorMatches(s.coordinator, s.queue.calls[n]);
    OnlyUnlockLeft(s.queue, n, a);
  }

  lemma GoroutineFlushed(core: Core, j: nat, stage: Stage)
    requires Flushed(core) && j < |core.exits| && core.exits[j].dispatched && !core.exits[j].stage.Finished?
    ensures Flushed(SetStage(core, j, stage))
  {
    var n := |core.exits| - 1;
    assert !AllDispatched(core.exits);
    var exits := SetStage(core, j, stage).exits;
    assert exits[n] == core.exits[n];
    assert AllDispatched(exits[..n]);
  }

  lemma FlushIsCoordinators(c: Config, s: State, d: nat)
    requires ControlInv(c, s) && d < |s.queue.calls| && FlushKind(s.queue.calls[d])
    ensures d == |s.workers| && s.coordinator.Flushing?
  {
    assert d < |s.workers| ==> CallMatches(s.workers[d], s.queue.calls[d]);
  }

  lemma FlusherStage(core: Core, calls: seq<Call>, n: nat, ok: bool)
    requires n < |calls| && calls[n] == FlushRelayReturned(core.queue, ok) && |core.queue| > 0
    requires AllDispatched(core.exits) && |core.queue| == |core.added| % BatchSize
    ensures FlushStage(Flushing, FlushLeaving(ok), FinishFlush(core, core.queue, ok))
  {
    if ok {
      var exits := FinishFlush(core, core.queue, ok).exits;
      assert exits[..|exits| - 1] == core.exits;
      assert !exits[|exits| - 1].dispatched;
    }
  }

  lemma UnlockStage(q: Queue, pc: CoordinatorPc, n: nat, a: Action)
    requires Enabled(q, a) && a.UnlockRelay? && a.owner == Flusher(n) && |q.calls| == n + 1 && pc.Flushing?
    requires FlushMatches(q.calls[n], q.core.queue)
    requires AllDispatched(q.core.exits) && |q.core.queue| == |q.core.added| % BatchSize
    ensures var q' := Apply(BatchSize, q, a); |q'.calls| == n + 1 && FlushStage(pc, q'.calls[n], q'.core)
  {
    FlusherStage(q.core, q.calls, n, q.calls[n].ok);
  }

  /** Before the flush succeeds, only its own relay, or its wait for the errgroup, can make it succeed. */
  lemma BeforeFlushedByUnlock(c: Config, s: State, a: Action)
    requires ControlInv(c, s) && Possible(s, QueueStep(a)) && AllDispatched(s.queue.core.exits)
    requires a.UnlockRelay? && a.owner.Flusher?
    ensures var q' := Apply(BatchSize, s.queue, a);
            |q'.calls| == |s.workers| + 1 && FlushStage(s.coordinator, q'.calls[|s.workers|], q'.core)
  {
    var d := a.owner.caller;
    FlushIsCoordinators(c, s, d);
    QueueIsRemainder(c, s);
    assert FlushMatches(s.queue.calls[d], s.queue.core.queue);
    UnlockStage(s.queue, s.coordinator, d, a);
  }

  lemma BeforeFlushedByJoin(c: Config, s: State, a: Action)
    requires ControlInv(c, s) && Possible(s, QueueStep(a)) && AllDispatched(s.queue.core.exits) && a.JoinGroup?
    ensures var q' := Apply(BatchSize, s.queue, a);
            |q'.calls| == |s.workers| + 1 && FlushStage(s.coordinator, q'.calls[|s.workers|], q'.core)
  {
    FlushIsCoordinators(c, s, a.c);
    QueueIsRemainder(c, s);
    assert FlushMatches(s.queue.calls[a.c], s.queue.core.queue);
  }

  lemma BeforeFlushedByRelay(q: Queue, pc: CoordinatorPc, n: nat, a: Action)
    requires Enabled(q, a) && RelayStep(a) && n < |q.calls| && AllDispatched(q.core.exits)
    requires a.UnlockRelay? ==> a.owner.Goroutine?
    requires !FlushSucceeded(pc, q.calls[n])
    ensures var q' := Apply(BatchSize, q, a); n < |q'.calls| && FlushStage(pc, q'.calls[n], q'.core)
  {
  }

  lemma BeforeFlushedByOthers(q: Queue, pc: CoordinatorPc, n: nat, a: Action)
    requires Enabled(q, a) && Internal(a) && n < |q.calls| && AllDispatched(q.core.exits)
    requires (a.UnlockRelay? ==> a.owner.Goroutine?) && !a.JoinGroup?
    requires !FlushSucceeded(pc, q.calls[n])
    ensures var q' := Apply(BatchSize, q, a); n < |q'.calls| && FlushStage(pc, q'.calls[n], q'.core)
  {
    if RelayStep(a) {
      BeforeFlushedByRelay(q, pc, n, a);
    }
  }

  lemma BeforeFlushed(c: Config, s: State, a: Action)
    requires ControlInv(c, s) && Possible(s, QueueStep(a)) && AllDispatched(s.queue.core.exits)
    requires !FlushSucceeded(s.coordinator, s.queue.calls[|s.workers|])
    ensures var q' := Apply(BatchSize, s.queue, a);
            |q'.calls| == |s.workers| + 1 && FlushStage(s.coordinator, q'.calls[|s.workers|], q'.core)
  {
    InternalCall(s.queue, a, |s.workers|);
    if a.UnlockRelay? && a.owner.Flusher? {
      BeforeFlushedByUnlock(c, s, a);
    } else if a.JoinGroup? {
      BeforeFlushedByJoin(c, s, a);
    } else {
      BeforeFlushedByOthers(s.queue, s.coordinator, |s.workers|, a);
    }
  }

  lemma AfterFlushed(c: Config, s: State, a: Action)
    requires ControlInv(c, s) && FlushStageInv(s) && Possible(s, QueueStep(a))
    requires FlushSucceeded(s.coordinator, s.queue.calls[|s.workers|])
    ensures var q' := Apply(BatchSize, s.queue, a);
            |q'.calls| == |s.workers| + 1 && FlushStage(s.coordinator, q'.calls[|s.workers|], q'.core)
  {
    AfterFlush(c, s, a);
    assert CoordinatorMatches(s.coordinator, s.queue.calls[|s.workers|]);
    if RelayStep(a) {
      var q' := Apply(BatchSize, s.queue, a);
      var j := a.owner.batch;
      GoroutineFlushed(s.queue.core, j, q'.core.exits[j].stage);
      SameFlushed(SetStage(s.queue.core, j, q'.core.exits[j].stage), q'.core);
    }
  }

  /** Whether the flush has succeeded does not depend on the counters. */
  lemma SameFlushed(core: Core, core': Core)
    requires Flushed(core) && core'.queue == core.queue && core'.exits == core.exits && core'.added == core.added
    ensures Flushed(core')
  {
  }

  lemma QueueStepFlush(c: Config, s: State, a: Action)
    requires ControlInv(c, s) && FlushStageInv(s) && Possible(s, QueueStep(a))
    ensures var s' := AfterQueueStep(s, a); |s'.queue.calls| == |s'.workers| + 1 && FlushStageInv(s')
  {
    if FlushSucceeded(s.coordinator, s.queue.calls[|s.workers|]) {
      AfterFlushed(c, s, a);
    } else {
      BeforeFlushed(c, s, a);
    }
  }

  lemma CoordinatorFlushStage(workers: seq<Worker>, pc: CoordinatorPc, call: Call, act: CoordinatorAct)
    requires CoordinatorMatches(pc, call) && CoordinatorReady(pc, call, act)
    requires pc.Reporting? ==> !pc.outcome.AllDone?
    ensures FlushSucceeded(CoordinatorNext(workers, pc, call, act), NextCoordinatorCall(call, act))
            == FlushSucceeded(pc, call)
  {
  }

  lemma CoordinatorFlush(c: Config, s: State, act: CoordinatorAct)
    requires ControlInv(c, s) && FlushStageInv(s) && Possible(s, CoordinatorStep(act))
    ensures var s' := AfterCoordinator(c, s, act); |s'.queue.calls| == |s'.workers| + 1 && FlushStageInv(s')
  {
    AfterCoordinatorCall(s.queue, |s.workers|, s.coordinator, act);
    CoordinatorFlushStage(s.workers, s.coordinator, s.queue.calls[|s.workers|], act);
  }

  lemma StepFlush(c: Config, s: State, step: Step)
    requires ControlInv(c, s) && FlushStageInv(s) && Possible(s, step)
    ensures var s' := After(c, s, step); |s'.queue.calls| == |s'.workers| + 1 && FlushStageInv(s')
  {
    match step
    case WorkerStep(i, act) => AfterWorkerCall(s.queue, i, s.workers[i], act);
    case CoordinatorStep(act) => CoordinatorFlush(c, s, act);
    case QueueStep(a) => QueueStepFlush(c, s, a);
    case Receive =>
  }
}
