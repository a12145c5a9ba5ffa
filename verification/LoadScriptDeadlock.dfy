/**
 The consumer `run` returns at the first error and reads no further, while the producers go on. This module says
 exactly for which loads they can then get stuck on the full channel.
 */
module LoadScriptDeadlock {
  import opened Wrappers
  import opened Sequences
  import opened Ibc
  import opened RelayQueueProtocol
  import opened LoadScript
  import opened LoadScriptInvariants
  import opened LoadScriptMessages
  import opened LoadScriptProgress
  import opened LoadScriptTheorems

  /** No thread can take a step, and the channel has not been closed. */
  ghost predicate Stuck(s: State) {
    Halted(s) && !s.closed
  }

  lemma PositiveTotal(c: Config)
    requires c.workers > 0 && c.Rounds() > 0
    ensures c.Total() > 0
  {
  }

  // Getting stuck needs a large load.

  lemma StuckIsFull(c: Config, s: State)
    requires Invariant(c, s) && Stuck(s)
    ensures !CanSend(s) && !s.coordinator.Closed?
  {
    if CanSend(s) {
      RoomMeansProgress(c, s);
    }
  }

  lemma StuckWaitsForRoom(c: Config, s: State)
    requires Invariant(c, s) && Stuck(s)
    ensures |s.log| - s.taken >= Capacity && s.consumer.Stopped? && !s.coordinator.Closing?
  {
    StuckIsFull(c, s);
    assert !Possible(s, Receive);
    assert !Possible(s, CoordinatorStep(CloseChannel));
  }

  lemma SmallTotalNeverStuck(c: Config, s: State)
    requires ControlInv(c, s) && (c.Rounds() == 0 || c.workers == 0)
    ensures |s.log| <= 5
  {
    EveryWorker(c, s);
    SumZero(s.workers, Messages);
  }

  lemma OthersMessages(c: Config, s: State, f: nat)
    requires ControlInv(c, s) && f < |s.workers| && s.workers[f].pc.GaveUp?
    ensures Sum(s.workers, Messages) <= s.workers[f].sent + 1 + (c.workers - 1) * c.Rounds()
  {
    MessagesPerWorker(c, s);
    SumOthers(s.workers, Messages, c.Rounds(), f);
  }

  lemma UnreadMessages(s: State, f: nat, others: int)
    requires CountInv(s.workers, s.coordinator, |s.queue.core.added|, s.transferCompleted, |s.log|)
    requires CoordinatorInv(s.workers, s.coordinator, s.closed, s.panicked)
    requires f < |s.workers| && s.workers[f].pc.GaveUp? && s.taken >= 2 + s.workers[f].sent
    requires Sum(s.workers, Messages) <= s.workers[f].sent + 1 + others
    requires !s.coordinator.Closing? && !s.coordinator.Closed?
    ensures |s.log| - s.taken <= others + 1
  {
    assert s.workers[f] in s.workers;
  }

  lemma UnreadBound(c: Config, s: State, f: nat)
    requires ControlInv(c, s) && f < |s.workers| && s.workers[f].pc.GaveUp? && s.taken >= 2 + s.workers[f].sent
    requires !s.coordinator.Closing? && !s.coordinator.Closed?
    ensures |s.log| - s.taken <= (c.workers - 1) * c.Rounds() + 1
  {
    OthersMessages(c, s, f);
    UnreadMessages(s, f, (c.workers - 1) * c.Rounds());
  }

  lemma StuckNeedsLoad(c: Config, s: State)
    requires Reachable(c, s) && Stuck(s)
    ensures !c.consumerDrains && c.workers > 1 && (c.workers - 1) * c.packetsPerWallet >= Capacity - 1
  {
    ReachableInvariant(c, s);
    StuckWaitsForRoom(c, s);
    if c.Rounds() == 0 || c.workers == 0 {
      SmallTotalNeverStuck(c, s);
    }
    PositiveTotal(c);
    var f := s.consumer.cause.worker;
    UnreadBound(c, s, f);
  }

  // A large enough load can get stuck.

  /** A step in which no external call fails. */
  ghost predicate Fortunate(s: State, step: Step) {
    && Possible(s, step)
    && (step.WorkerStep? ==> !step.act.SendFail?)
    && (step.QueueStep? && step.a.RelayResult? ==> step.a.ok)
  }

  lemma UnfortunateHasTwin(c: Config, s: State, step: Step)
    requires Invariant(c, s) && Possible(s, step)
    ensures exists twin :: Fortunate(s, twin)
  {
    if step.WorkerStep? && step.act.SendFail? {
      assert CallMatches(s.workers[step.i], s.queue.calls[step.i]);
      var packet := Packet("", 0, 0, "", "", 0, RawV2(ClientPacket(0, "", "", 0, [])));
      assert Fortunate(s, WorkerStep(step.i, SendOk(packet)));
    } else if step.QueueStep? && step.a.RelayResult? {
      assert Fortunate(s, QueueStep(RelayResult(step.a.owner, true)));
    } else {
      assert Fortunate(s, step);
    }
  }

  /** The first worker has given up at its first packet, the consumer has read that and left; nobody else fails. */
  ghost predicate Abandoned(s: State) {
    && s.consumer.Stopped? && s.taken == 2
    && |s.workers| > 0 && s.workers[0].pc.GaveUp? && s.workers[0].sent == 0
    && forall i: nat :: 0 < i < |s.workers| ==> !s.workers[i].pc.GaveUp? && !s.workers[i].pc.ReportingFailure?
  }

  lemma AbandonedWorker(c: Config, s: State, i: nat, act: WorkerAct)
    requires Abandoned(s) && Fortunate(s, WorkerStep(i, act))
    ensures Abandoned(AfterWorker(c, s, i, act))
  {
    assert i > 0;
  }

  lemma AbandonedStep(c: Config, s: State, step: Step)
    requires Abandoned(s) && Fortunate(s, step)
    ensures Abandoned(After(c, s, step))
  {
    match step
    case WorkerStep(i, act) => AbandonedWorker(c, s, i, act);
    case CoordinatorStep(act) =>
    case QueueStep(a) =>
    case Receive =>
  }

  /** Runs on, without failures, until nothing is possible any more. */
  lemma Exhaust(c: Config, s: State) returns (t: State)
    requires Reachable(c, s) && Abandoned(s)
    ensures Reachable(c, t) && Abandoned(t) && Halted(t)
    decreases Remaining(s)
  {
    ReachableInvariant(c, s);
    if step :| Fortunate(s, step) {
      Extend(c, s, step);
      AbandonedStep(c, s, step);
      StepRemaining(c, s, step);
      t := Exhaust(c, After(c, s, step));
    } else {
      forall step
        ensures !Possible(s, step)
      {
        if Possible(s, step) {
          UnfortunateHasTwin(c, s, step);
        }
      }
      t := s;
    }
  }

  lemma AbandonedMessages(c: Config, s: State)
    requires ControlInv(c, s) && Abandoned(s) && s.closed
    ensures Sum(s.workers, Messages) >= 1 + (|s.workers| - 1) * c.Rounds()
  {
    MessagesPerWorker(c, s);
    assert forall w :: w in s.workers ==> w.pc.Through? || w.pc.GaveUp?;
    assert forall i: nat :: 0 < i < |s.workers| ==> s.workers[i] in s.workers;
    SumOthersAtLeast(s.workers, Messages, c.Rounds(), 0);
  }

  lemma ClosedLogFits(c: Config, s: State, others: nat)
    requires ControlInv(c, s) && Abandoned(s) && s.closed && Sum(s.workers, Messages) >= 1 + others
    ensures others + 2 <= Capacity
  {
    assert s.workers[0] in s.workers;
  }

  /** If the channel were closed all the others' messages would have been sent, and they do not fit. */
  lemma AbandonedNeverCloses(c: Config, s: State, others: nat)
    requires Reachable(c, s) && Abandoned(s)
    requires others == (c.workers - 1) * c.Rounds() && others >= Capacity - 1
    ensures !s.closed
  {
    ReachableControl(c, s);
    if s.closed {
      AbandonedMessages(c, s);
      ClosedLogFits(c, s, others);
    }
  }

  function Failing(c: Config, failures: nat): Worker
    requires c.Rounds() > 0
  {
    Worker(if failures < MaxRetries then Sending(failures) else ReportingFailure, c.Rounds() - 1, failures, [], [], 0)
  }

  ghost predicate FailingAt(c: Config, failures: nat, s: State)
    requires c.Rounds() > 0
  {
    c.workers > 0 && s == Start(c).(workers := Start(c).workers[0 := Failing(c, failures)])
  }

  lemma OneMoreFailure(c: Config, failures: nat, s: State)
    requires c.Rounds() > 0 && FailingAt(c, failures, s) && failures < MaxRetries
    ensures Possible(s, WorkerStep(0, SendFail)) && FailingAt(c, failures + 1, After(c, s, WorkerStep(0, SendFail)))
  {
    var workers := Start(c).workers;
    assert workers[0 := Failing(c, failures)][0 := Failing(c, failures + 1)] == workers[0 := Failing(c, failures + 1)];
  }

  lemma {:induction false} FirstWorkerFails(c: Config, failures: nat) returns (s: State)
    requires c.workers > 0 && c.Rounds() > 0 && failures <= MaxRetries
    ensures Reachable(c, s) && FailingAt(c, failures, s)
  {
    if failures == 0 {
      s := Start(c);
      assert Play(c, Start(c), []) == Some(s);
      assert s.workers == s.workers[0 := Failing(c, 0)];
    } else {
      var t := FirstWorkerFails(c, failures - 1);
      OneMoreFailure(c, failures - 1, t);
      Extend(c, t, WorkerStep(0, SendFail));
      s := After(c, t, WorkerStep(0, SendFail));
    }
  }

  lemma FirstWorkerGivesUp(c: Config) returns (s: State)
    requires c.workers > 0 && c.Rounds() > 0
    ensures Reachable(c, s)
    ensures s == Start(c).(workers := Start(c).workers[0 := Failing(c, MaxRetries).(pc := GaveUp)],
                           log := Start(c).log + [Entry(FromWorker(0), Message(c, ErrorUpdate, 0, 0, 0))])
  {
    var t := FirstWorkerFails(c, MaxRetries);
    Extend(c, t, WorkerStep(0, ReportFailure));
    s := After(c, t, WorkerStep(0, ReportFailure));
    assert s.workers == Start(c).workers[0 := Failing(c, MaxRetries).(pc := GaveUp)];
  }

  lemma ReceiveTwo(c: Config, s: State)
    requires s.consumer.Reading? && s.taken == 0 && |s.log| == 2 && !c.consumerDrains
    requires s.log[0].update.updateType.TransferUpdate? && s.log[0].update.totalTransfers != 0
    requires s.log[1].update.updateType.ErrorUpdate?
    ensures Possible(s, Receive) && Possible(After(c, s, Receive), Receive)
    ensures After(c, After(c, s, Receive), Receive) == s.(taken := 2, consumer := Stopped(s.log[1].from))
  {
  }

  lemma ConsumerLeaves(c: Config) returns (s: State)
    requires !c.consumerDrains && c.workers > 0 && c.Rounds() > 0
    ensures Reachable(c, s) && Abandoned(s)
  {
    var t := FirstWorkerGivesUp(c);
    PositiveTotal(c);
    ReceiveTwo(c, t);
    Extend(c, t, Receive);
    Extend(c, After(c, t, Receive), Receive);
    s := After(c, After(c, t, Receive), Receive);
  }

  /** The load script with `run` as its consumer can get stuck - every remaining thread waiting for the full
      channel or for one that does - exactly if the workers other than one have at least 99 packets to send.
      With a consumer that drains the channel it never can. */
  lemma StuckIff(c: Config)
    ensures (exists s :: Reachable(c, s) && Stuck(s)) <==>
            !c.consumerDrains && c.workers > 1 && (c.workers - 1) * c.packetsPerWallet >= 99
  {
    if s :| Reachable(c, s) && Stuck(s) {
      StuckNeedsLoad(c, s);
    }
    if !c.consumerDrains && c.workers > 1 && (c.workers - 1) * c.packetsPerWallet >= 99 {
      assert c.packetsPerWallet > 0 by {
        assert c.packetsPerWallet <= 0 ==> (c.workers - 1) * c.packetsPerWallet <= 0;
      }
      var s := ConsumerLeaves(c);
      var t := Exhaust(c, s);
      AbandonedNeverCloses(c, t, (c.workers - 1) * c.Rounds());
      assert Stuck(t);
    }
  }
}
