/** The load script never deadlocks while its messages are read, and every run of it is finite. */
module LoadScriptProgress {
  import opened Sequences
  import opened Ibc
  import opened RelayQueueCore
  import opened RelayQueueProtocol
  import opened RelayQueueProgress
  import opened LoadScript
  import opened LoadScriptInvariants
  import opened LoadScriptMessages

  /** A step in which no external call fails and no batch is relayed that nothing waits for. */
  ghost predicate Smooth(s: State, step: Step) {
    && Possible(s, step)
    && (step.WorkerStep? ==> !step.act.SendFail?)
    && (step.QueueStep? ==> Useful(s.queue, step.a))
  }

  lemma CallProgress(c: Config, s: State, d: nat) returns (step: Step)
    requires ControlInv(c, s) && d < |s.queue.calls| && !s.queue.calls[d].Idle?
    ensures Smooth(s, step)
  {
    if Outstanding(s.queue.calls[d]) {
      var a := QueueProgress(BatchSize, s.queue, d);
      step := QueueStep(a);
    } else if d < |s.workers| {
      assert CallMatches(s.workers[d], s.queue.calls[d]);
      step := WorkerStep(d, if s.workers[d].pc.InAdd? then AddReturns else StatusReturns);
    } else {
      step := CoordinatorStep(if s.coordinator.ReadingStatus? then ReadStatusReturns else FlushReturns);
    }
  }

  lemma WorkerCanGoOn(c: Config, s: State, i: nat) returns (step: Step)
    requires ControlInv(c, s) && CanSend(s) && i < |s.workers| && !Ended(s.workers[i])
    ensures Smooth(s, step)
  {
    assert CallMatches(s.workers[i], s.queue.calls[i]);
    var w := s.workers[i];
    if !s.queue.calls[i].Idle? {
      step := CallProgress(c, s, i);
    } else if w.pc.Sending? {
      step := WorkerStep(i, SendOk(Packet("", 0, 0, "", "", 0, RawV2(ClientPacket(0, "", "", 0, [])))));
    } else if w.pc.ReportingFailure? {
      step := WorkerStep(i, ReportFailure);
    } else if w.pc.WantUpdate? && s.updateMutex.Nobody? {
      step := WorkerStep(i, CountTransfer);
    } else if w.pc.WantUpdate? {
      step := HolderCanGoOn(c, s);
    } else {
      step := WorkerStep(i, if w.pc.HasStatus? then SendUpdate else UnlockUpdate);
    }
  }

  lemma HolderCanGoOn(c: Config, s: State) returns (step: Step)
    requires ControlInv(c, s) && CanSend(s) && s.updateMutex.Held?
    ensures Smooth(s, step)
  {
    var h := s.updateMutex.who;
    assert HoldsUpdate(s.workers[h]) && CallMatches(s.workers[h], s.queue.calls[h]);
    if s.workers[h].pc.InStatus? {
      step := CallProgress(c, s, h);
    } else {
      step := WorkerStep(h, if s.workers[h].pc.HasStatus? then SendUpdate else UnlockUpdate);
    }
  }

  lemma CoordinatorCanGoOn(c: Config, s: State) returns (step: Step)
    requires ControlInv(c, s) && CanSend(s) && !s.coordinator.Closed?
    requires forall w :: w in s.workers ==> Ended(w)
    ensures Smooth(s, step)
  {
    var n := |s.workers|;
    assert CoordinatorMatches(s.coordinator, s.queue.calls[n]);
    if !s.queue.calls[n].Idle? {
      step := CallProgress(c, s, n);
    } else {
      var act := match s.coordinator
        case Announcing => Announce
        case Joining => JoinWorkers
        case Reporting(_) => ReportError
        case StartingRelay => StartRelay
        case ReportingStatus(_) => ReportStatus
        case ReportingDone => ReportDone
        case _ => CloseChannel;
      step := CoordinatorStep(act);
    }
  }

  /** While there is room in the channel and it is not closed, some thread can take a step, and one that goes well. */
  lemma ScriptProgress(c: Config, s: State) returns (step: Step)
    requires ControlInv(c, s) && CanSend(s) && !s.coordinator.Closed?
    ensures Smooth(s, step)
  {
    if w :| w in s.workers && !Ended(w) {
      var i: nat :| i < |s.workers| && s.workers[i] == w;
      step := WorkerCanGoOn(c, s, i);
    } else {
      step := CoordinatorCanGoOn(c, s);
    }
  }

  // Termination.

  function PcWeight(pc: WorkerPc): nat {
    match pc
    case Sending(failures) => if failures > 2 then 19 else 21 - failures
    case ReportingFailure => 3
    case InAdd => 9
    case WantUpdate => 9
    case InStatus => 3
    case HasStatus(_) => 3
    case SentUpdate => 1
    case Through => 0
    case GaveUp => 0
  }

  function WorkerWeight(w: Worker): nat {
    if Ended(w) then 0 else w.left * 21 + PcWeight(w.pc)
  }

  function CoordinatorWeight(pc: CoordinatorPc): nat {
    match pc
    case Announcing => 25
    case Joining => 23
    case Reporting(_) => 3
    case StartingRelay => 22
    case ReadingStatus => 15
    case ReportingStatus(_) => 15
    case Flushing => 3
    case ReportingDone => 3
    case Closing(_) => 1
    case Closed(_) => 0
  }

  /** A bound on the steps that all threads together can still take. */
  function Remaining(s: State): int {
    Sum(s.workers, WorkerWeight) + CoordinatorWeight(s.coordinator) + Work(s.queue) + |s.log| - s.taken
  }

  lemma WorkerLighter(w: Worker, call: Call, act: WorkerAct)
    requires WorkerReady(w, call, act)
    requires w.pc.Sending? ==> w.pc.failures < MaxRetries
    ensures WorkerWeight(WorkerNext(w, call, act)) + CallWeight(NextCall(call, act))
            + (if act.ReportFailure? || act.SendUpdate? then 1 else 0)
            < WorkerWeight(w) + CallWeight(call)
  {
  }

  lemma WorkerRemaining(c: Config, s: State, i: nat, act: WorkerAct)
    requires ControlInv(c, s) && Possible(s, WorkerStep(i, act))
    ensures Remaining(AfterWorker(c, s, i, act)) < Remaining(s)
  {
    var w, call := s.workers[i], s.queue.calls[i];
    assert WorkerInv(c.Rounds(), w);
    WorkerLighter(w, call, act);
    WorkerLog(c, s, i, act);
    AfterWorkerCall(s.queue, i, w, act);
    SumUpdate(s.workers, i, WorkerNext(w, call, act), WorkerWeight);
    SumUpdate(s.queue.calls, i, NextCall(call, act), CallWeight);
  }

  lemma CoordinatorLighter(workers: seq<Worker>, pc: CoordinatorPc, call: Call, act: CoordinatorAct)
    requires CoordinatorReady(pc, call, act)
    ensures CoordinatorWeight(CoordinatorNext(workers, pc, call, act)) + CallWeight(NextCoordinatorCall(call, act))
            + (if Sends(CoordinatorStep(act)) then 1 else 0)
            < CoordinatorWeight(pc) + CallWeight(call)
  {
  }

  lemma CoordinatorRemaining(c: Config, s: State, act: CoordinatorAct)
    requires ControlInv(c, s) && Possible(s, CoordinatorStep(act))
    ensures Remaining(AfterCoordinator(c, s, act)) < Remaining(s)
  {
    var n := |s.workers|;
    CoordinatorLog(c, s, act);
    AfterCoordinatorCall(s.queue, n, s.coordinator, act);
    CoordinatorLighter(s.workers, s.coordinator, s.queue.calls[n], act);
    SumUpdate(s.queue.calls, n, NextCoordinatorCall(s.queue.calls[n], act), CallWeight);
  }

  lemma QueueStepRemaining(c: Config, s: State, a: Action)
    requires ControlInv(c, s) && Possible(s, QueueStep(a))
    ensures Remaining(AfterQueueStep(s, a)) < Remaining(s)
  {
    InternalWork(BatchSize, s.queue, a);
    QueueStepAdds(s, a);
    if a.AddBody? {
      SumUpdate(s.workers, a.c, AfterQueueStep(s, a).workers[a.c], WorkerWeight);
    }
  }

  /** Every step, whatever the outcomes, leaves fewer steps to take. */
  lemma StepRemaining(c: Config, s: State, step: Step)
    requires ControlInv(c, s) && Possible(s, step)
    ensures 0 <= Remaining(After(c, s, step)) < Remaining(s)
  {
    StepControl(c, s, step);
    match step
    case WorkerStep(i, act) => WorkerRemaining(c, s, i, act);
    case CoordinatorStep(act) => CoordinatorRemaining(c, s, act);
    case QueueStep(a) => QueueStepRemaining(c, s, a);
    case Receive =>
  }

  lemma {:induction false} PlayRemaining(c: Config, s: State, schedule: seq<Step>)
    requires Invariant(c, s) && Play(c, s, schedule).Some?
    ensures 0 <= Remaining(Play(c, s, schedule).value) <= Remaining(s) - |schedule|
  {
    if schedule != [] {
      var before := schedule[..|schedule| - 1];
      PlayRemaining(c, s, before);
      PlayInvariant(c, s, before);
      StepRemaining(c, Play(c, s, before).value, schedule[|schedule| - 1]);
    }
  }

  lemma StartRemaining(c: Config)
    ensures Remaining(Start(c)) == 21 * c.workers * c.Rounds() + 26
  {
    var s := Start(c);
    SumConstant(s.workers, WorkerWeight, 21 * c.Rounds());
    SumZero(s.queue.calls, CallWeight);
    assert c.workers * (21 * c.Rounds()) == 21 * c.workers * c.Rounds();
  }

  /** No run is longer than this, however the steps interleave and whatever fails. */
  lemma RunsAreBounded(c: Config, schedule: seq<Step>)
    requires Play(c, Start(c), schedule).Some?
    ensures |schedule| <= 21 * c.workers * c.Rounds() + 26
  {
    StartInvariant(c);
    StartRemaining(c);
    PlayRemaining(c, Start(c), schedule);
  }

  /** No step at all is possible. */
  ghost predicate Halted(s: State) {
    forall step :: !Possible(s, step)
  }

  lemma RoomMeansProgress(c: Config, s: State)
    requires Invariant(c, s) && CanSend(s) && !s.coordinator.Closed?
    ensures !Halted(s)
  {
    var step := ScriptProgress(c, s);
    assert Possible(s, step);
  }

  lemma BatchMeansProgress(c: Config, s: State, j: nat)
    requires Invariant(c, s) && j < |s.queue.core.exits| && !s.queue.core.exits[j].stage.Finished?
    ensures !Halted(s)
  {
    var a := BatchProgress(BatchSize, s.queue, j);
    assert Possible(s, QueueStep(a));
  }

  /** Deadlock freedom: if the consumer keeps reading, a run that cannot go on has closed the channel, has joined
      every worker, has every message delivered and every batch finished. With RunsAreBounded: every run gets there. */
  lemma DeadlockFreedom(c: Config, s: State)
    requires c.consumerDrains && Reachable(c, s) && Halted(s)
    ensures s.closed && s.taken == |s.log| && AllReturned(s.queue.core.exits)
    ensures forall w :: w in s.workers ==> Ended(w)
  {
    ReachableInvariant(c, s);
    assert !Possible(s, Receive);
    if !s.coordinator.Closed? {
      RoomMeansProgress(c, s);
    }
    forall j: nat | j < |s.queue.core.exits|
      ensures s.queue.core.exits[j].stage.Finished?
    {
      if !s.queue.core.exits[j].stage.Finished? {
        BatchMeansProgress(c, s, j);
      }
    }
  }
}
