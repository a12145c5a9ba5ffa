/** What holds of every run of the load script, over all interleavings and all outcomes of the external calls. */
module LoadScriptTheorems {
  import opened Wrappers
  import opened Sequences
  import opened RelayQueueCore
  import opened RelayQueueProtocol
  import opened LoadScript
  import opened LoadScriptInvariants
  import opened LoadScriptFlush
  import opened LoadScriptMessages
  import Theorems = RelayQueueTheorems

  // The queue inside the script is a relay queue.

  /** What one step of the script does to its queue. */
  function QueueActions(n: nat, step: Step): seq<Action> {
    match step
    case WorkerStep(i, act) => (match WorkerCall(i, act) case Some(a) => [a] case None => [])
    case CoordinatorStep(act) => (match CoordinatorCall(n, act) case Some(a) => [a] case None => [])
    case QueueStep(a) => [a]
    case Receive => []
  }

  lemma StepOfQueue(c: Config, s: State, step: Step)
    requires Possible(s, step)
    ensures Theorems.Run(BatchSize, s.queue, QueueActions(|s.workers|, step)) == Some(After(c, s, step).queue)
    ensures |After(c, s, step).workers| == |s.workers|
  {
    var actions := QueueActions(|s.workers|, step);
    if actions != [] {
      assert actions[..0] == [];
      assert Theorems.Run(BatchSize, s.queue, actions[..0]) == Some(s.queue);
    }
  }

  lemma {:induction false} RunOfQueue(c: Config, s: State, schedule: seq<Step>) returns (actions: seq<Action>)
    requires Play(c, s, schedule).Some?
    ensures Theorems.Run(BatchSize, s.queue, actions) == Some(Play(c, s, schedule).value.queue)
    ensures |Play(c, s, schedule).value.workers| == |s.workers|
  {
    if schedule == [] {
      actions := [];
    } else {
      var before := RunOfQueue(c, s, schedule[..|schedule| - 1]);
      var t := Play(c, s, schedule[..|schedule| - 1]).value;
      var step := schedule[|schedule| - 1];
      StepOfQueue(c, t, step);
      FoldAppend(Theorems.Next(BatchSize), s.queue, before, QueueActions(|t.workers|, step));
      actions := before + QueueActions(|t.workers|, step);
    }
  }

  /** Every run of the script is, seen from its queue, a run of a relay queue of size ten with one caller per
      worker and one for the coordinator; whatever holds of relay queues holds of it. */
  lemma ScriptUsesQueue(c: Config, s: State)
    requires Reachable(c, s)
    ensures Theorems.Reachable(BatchSize, s.queue)
  {
    var schedule :| Play(c, Start(c), schedule) == Some(s);
    var actions := RunOfQueue(c, Start(c), schedule);
    assert Theorems.Run(BatchSize, Init(c.workers + 1), actions) == Some(s.queue);
  }

  lemma ReachableControl(c: Config, s: State)
    requires Reachable(c, s)
    ensures ControlInv(c, s)
  {
    ReachableInvariant(c, s);
  }

  lemma Extend(c: Config, s: State, step: Step)
    requires Reachable(c, s) && Possible(s, step)
    ensures Reachable(c, After(c, s, step))
  {
    var schedule :| Play(c, Start(c), schedule) == Some(s);
    assert (schedule + [step])[..|schedule|] == schedule;
    assert Play(c, Start(c), schedule + [step]) == Some(After(c, s, step));
  }

  // The channel.

  /** No send on a closed channel and no second close (either would panic); the end message, if any, is the last
      one and then no message is an error; when the channel is closed the last message tells the outcome. */
  lemma ChannelSafety(c: Config, s: State)
    requires Reachable(c, s)
    ensures !s.panicked
    ensures forall n :: 0 <= n < |s.log| && s.log[n].update.updateType.DoneUpdate? ==>
              n == |s.log| - 1 && forall e :: e in s.log ==> !e.update.updateType.ErrorUpdate?
    ensures |s.log| > 0
    ensures s.closed ==>
              s.log[|s.log| - 1].update.updateType.DoneUpdate? || s.log[|s.log| - 1].update.updateType.ErrorUpdate?
  {
    ReachableInvariant(c, s);
    forall n | 0 <= n < |s.log| && s.log[n].update.updateType.DoneUpdate?
      ensures n == |s.log| - 1 && forall e :: e in s.log ==> !e.update.updateType.ErrorUpdate?
    {
      assert EntryFits(c, s.workers, s.coordinator, n, |s.log|, s.log[n]);
      NoErrors(c, s);
    }
  }

  lemma NoErrors(c: Config, s: State)
    requires Invariant(c, s) && (s.coordinator.Closing? || s.coordinator.Closed?) && s.coordinator.outcome.AllDone?
    ensures forall e :: e in s.log ==> !e.update.updateType.ErrorUpdate?
  {
    forall e | e in s.log
      ensures !e.update.updateType.ErrorUpdate?
    {
      var n: nat :| n < |s.log| && s.log[n] == e;
      assert EntryFits(c, s.workers, s.coordinator, n, |s.log|, e);
      assert e.from.FromWorker? ==> s.workers[e.from.worker] in s.workers;
    }
  }

  /** Once closed, the channel stays as it is whatever is still running. */
  lemma {:induction false} ClosedIsFinal(c: Config, s: State, schedule: seq<Step>)
    requires Reachable(c, s) && s.closed && Play(c, s, schedule).Some?
    ensures var t := Play(c, s, schedule).value; t.closed && t.log == s.log && t.coordinator == s.coordinator
  {
    ReachableInvariant(c, s);
    if schedule != [] {
      var before := schedule[..|schedule| - 1];
      ClosedIsFinal(c, s, before);
      PlayInvariant(c, s, before);
      ClosedStep(c, Play(c, s, before).value, schedule[|schedule| - 1]);
    }
  }

  lemma ClosedStep(c: Config, s: State, step: Step)
    requires Invariant(c, s) && s.closed && Possible(s, step)
    ensures var t := After(c, s, step); t.closed && t.log == s.log && t.coordinator == s.coordinator
  {
    match step
    case WorkerStep(i, act) => WorkerBeforeJoin(s, i, act);
    case CoordinatorStep(act) => CoordinatorPhase(s, act);
    case QueueStep(a) =>
    case Receive =>
  }

  lemma EveryWorker(c: Config, s: State)
    requires ControlInv(c, s)
    ensures forall w :: w in s.workers ==> WorkerInv(c.Rounds(), w)
  {
  }

  lemma MessagesPerWorker(c: Config, s: State)
    requires ControlInv(c, s)
    ensures forall w :: w in s.workers ==> Messages(w) <= c.Rounds()
    ensures forall w :: w in s.workers && w.pc.Through? ==> Messages(w) == c.Rounds()
  {
    EveryWorker(c, s);
  }

  /** At most total + 5 messages; at most total + 3 if a worker gives up; exactly total + 5 when the channel is
      closed and none did, whether the flush succeeded or not. */
  lemma MessageBound(c: Config, s: State)
    requires Reachable(c, s) && c.packetsPerWallet >= 0
    ensures |s.log| <= c.Total() + 5
    ensures (exists w :: w in s.workers && w.pc.GaveUp?) ==> |s.log| <= c.Total() + 3
    ensures s.closed && (forall w :: w in s.workers ==> !w.pc.GaveUp?) ==> |s.log| == c.Total() + 5
  {
    ReachableControl(c, s);
    MessagesPerWorker(c, s);
    SumAtMost(s.workers, Messages, c.Rounds());
    if s.closed && forall w :: w in s.workers ==> !w.pc.GaveUp? {
      SumConstant(s.workers, Messages, c.Rounds());
    }
  }

  /** With a total of at most 95 the buffer holds every message of a run: no send ever waits, read or not. */
  lemma SmallRunsNeverWait(c: Config, s: State)
    requires Reachable(c, s) && c.packetsPerWallet >= 0 && c.Total() <= 95 && !s.coordinator.Closed?
    requires !s.coordinator.Closing?
    ensures CanSend(s)
  {
    ReachableControl(c, s);
    MessagesPerWorker(c, s);
    SumAtMost(s.workers, Messages, c.Rounds());
  }

  // The workers' updates.

  lemma EndedWorker(rounds: nat, w: Worker)
    requires WorkerInv(rounds, w) && Ended(w)
    ensures Counted(w) == Sent(w) == Queued(w) == Got(w) <= rounds
    ensures w.pc.GaveUp? <==> Sent(w) < rounds
  {
  }

  lemma SentPerWorker(c: Config, s: State)
    requires ControlInv(c, s) && s.coordinator.Closed?
    ensures forall w :: w in s.workers ==> Counted(w) == Sent(w) == Queued(w) == Got(w) <= c.Rounds()
    ensures forall w :: w in s.workers ==> (w.pc.GaveUp? <==> Sent(w) < c.Rounds())
  {
    EveryWorker(c, s);
    forall w | w in s.workers
      ensures Counted(w) == Sent(w) == Queued(w) == Got(w) <= c.Rounds() && (w.pc.GaveUp? <==> Sent(w) < c.Rounds())
    {
      EndedWorker(c.Rounds(), w);
    }
  }

  lemma ProgressLength(c: Config, s: State)
    requires Invariant(c, s) && s.coordinator.Closed?
    ensures |Progress(s.log)| == Sum(s.workers, Sent)
  {
    SentPerWorker(c, s);
    SumBounded(s.workers, Counted, Sent);
    SumBounded(s.workers, Sent, Counted);
    assert s.updateMutex.Held? ==> s.workers[s.updateMutex.who] in s.workers;
  }

  /** In channel order the workers' updates count 1, 2, 3, ... without gap or repeat, and what they report as
      relayed never decreases. */
  lemma OrderedProgress(c: Config, s: State)
    requires Reachable(c, s)
    ensures forall k :: 0 <= k < |Progress(s.log)| ==> Progress(s.log)[k].currentTransfers == k + 1
    ensures forall k, l :: 0 <= k < l < |Progress(s.log)| ==>
              Progress(s.log)[k].completedRelaying <= Progress(s.log)[l].completedRelaying
  {
    ReachableInvariant(c, s);
  }

  /** At the end there are total worker updates exactly if no worker gave up. */
  lemma CompleteProgress(c: Config, s: State)
    requires Reachable(c, s) && s.closed && c.packetsPerWallet >= 0
    ensures |Progress(s.log)| == c.Total() <==> forall w :: w in s.workers ==> !w.pc.GaveUp?
  {
    ReachableInvariant(c, s);
    ProgressLength(c, s);
    SentPerWorker(c, s);
    SumFull(s.workers, Sent, c.Rounds());
  }

  /** A failing worker stops no other: at the end each worker that did not give up has sent an update for each of
      its packets, and one that gave up has sent fewer. */
  lemma FailuresAreLocal(c: Config, s: State, i: nat)
    requires Reachable(c, s) && s.closed && i < |s.workers|
    ensures if s.workers[i].pc.GaveUp? then CountFrom(s.log, i) < c.Rounds() else CountFrom(s.log, i) == c.Rounds()
  {
    ReachableInvariant(c, s);
    SentPerWorker(c, s);
    assert s.workers[i] in s.workers;
  }

  /** Every worker update is a consistent snapshot: relayed and queued packets together are within the total, and
      ahead of the transfers it counts by at most the number of other workers. */
  lemma ConsistentSnapshots(c: Config, s: State, k: nat)
    requires Reachable(c, s) && c.packetsPerWallet >= 0 && k < |Progress(s.log)|
    ensures var u := Progress(s.log)[k];
            && u.totalTransfers == c.Total()
            && 0 <= u.completedRelaying && 0 <= u.inQueueRelays
            && u.completedRelaying + u.inQueueRelays <= u.totalTransfers
            && u.completedRelaying + u.inQueueRelays <= u.currentTransfers + c.workers - 1
  {
    ReachableInvariant(c, s);
    CountsInRange(c, s);
    ProgressTotals(c, s.log, k);
  }

  lemma {:induction false} ProgressTotals(c: Config, log: seq<Entry>, k: nat)
    requires k < |Progress(log)| && forall e :: e in log ==> e.update.totalTransfers == c.Total()
    ensures Progress(log)[k].totalTransfers == c.Total()
  {
    var before := log[..|log| - 1];
    if k < |Progress(before)| {
      ProgressTotals(c, before, k);
    }
  }

  // Transfers and the queue.

  /** Restricted to one worker, what was added is the worker's successful SendTransfer results, in order, each
      once; at most the latest result is still on its way. */
  lemma TransfersReachQueueOnce(c: Config, s: State, i: nat)
    requires Reachable(c, s) && i < |s.workers|
    ensures |s.queue.core.added| == |s.adders|
    ensures var mine := AddedBy(s.queue.core.added, s.adders, i);
            && mine <= s.workers[i].got && |s.workers[i].got| <= |mine| + 1
            && (Ended(s.workers[i]) ==> mine == s.workers[i].got)
  {
    ReachableInvariant(c, s);
    assert WorkerInv(c.Rounds(), s.workers[i]);
  }

  function Calls(w: Worker): nat { w.calls }

  function Got(w: Worker): nat { |w.got| }

  lemma Triple(n: nat, k: nat)
    ensures n * (3 * k) == 3 * (n * k)
  {
  }

  /** withRetry: at most three SendTransfer calls for each packet. */
  lemma RetryBound(c: Config, s: State)
    requires Reachable(c, s) && c.packetsPerWallet >= 0
    ensures Sum(s.workers, Calls) <= 3 * c.Total()
  {
    ReachableInvariant(c, s);
    EveryWorker(c, s);
    SumAtMost(s.workers, Calls, 3 * c.Rounds());
    Triple(|s.workers|, c.Rounds());
  }

  lemma EndedTransfers(c: Config, s: State)
    requires Invariant(c, s) && s.closed
    ensures |s.queue.core.added| == Sum(s.workers, Got)
  {
    SentPerWorker(c, s);
    SumBounded(s.workers, Got, Queued);
    SumBounded(s.workers, Queued, Got);
  }

  /** When a worker gave up there is no flush: at the end the queue still holds the successful transfers modulo
      ten, and the others left in full batches. */
  lemma AbandonedQueue(c: Config, s: State)
    requires Reachable(c, s) && s.closed && exists w :: w in s.workers && w.pc.GaveUp?
    ensures |s.queue.core.queue| == Sum(s.workers, Got) % BatchSize
    ensures |s.queue.core.exits| == Sum(s.workers, Got) / BatchSize
  {
    ReachableInvariant(c, s);
    EndedTransfers(c, s);
    QueueIsRemainder(c, s);
  }

  /** As long as the script's Flush has not succeeded the queue holds the packets added modulo ten, and the others
      left in full batches; afterwards it is empty for good. */
  lemma QueueUntilFlush(c: Config, s: State)
    requires Reachable(c, s)
    ensures |s.queue.calls| == |s.workers| + 1
    ensures if FlushSucceeded(s.coordinator, s.queue.calls[|s.workers|])
            then s.queue.core.queue == []
            else && |s.queue.core.queue| == |s.queue.core.added| % BatchSize
                 && |s.queue.core.exits| == |s.queue.core.added| / BatchSize
  {
    ReachableInvariant(c, s);
    if !FlushSucceeded(s.coordinator, s.queue.calls[|s.workers|]) {
      QueueIsRemainder(c, s);
    }
  }

  // The end message.

  lemma DoneFacts(c: Config, s: State, n: nat)
    requires Invariant(c, s) && c.packetsPerWallet >= 0
    requires n < |s.log| && s.log[n].update.updateType.DoneUpdate?
    ensures |s.queue.core.added| == c.Total() && Flushed(s.queue.core)
  {
    assert EntryFits(c, s.workers, s.coordinator, n, |s.log|, s.log[n]);
    EveryWorker(c, s);
    SumConstant(s.workers, Queued, c.Rounds());
  }

  /** What DoneUpdate tells: if the total is a multiple of ten, that every packet has been relayed; otherwise only
      that the last total % 10 packets have, in one batch of their own. */
  lemma DoneMeaning(c: Config, s: State, n: nat)
    requires Reachable(c, s) && c.packetsPerWallet >= 0
    requires n < |s.log| && s.log[n].update.updateType.DoneUpdate?
    ensures s.queue.core.queue == [] && |s.queue.core.added| == c.Total()
    ensures c.Total() % BatchSize == 0 ==>
              AllSucceeded(s.queue.core.exits) && s.queue.core.relaysCompleted == c.Total()
    ensures c.Total() % BatchSize != 0 ==>
              && |s.queue.core.exits| > 0
              && var last := s.queue.core.exits[|s.queue.core.exits| - 1];
                 && last.stage == Finished(true)
                 && last.packets == s.queue.core.added[c.Total() - c.Total() % BatchSize..]
  {
    ReachableInvariant(c, s);
    DoneFacts(c, s, n);
    var core := s.queue.core;
    if AllDispatched(core.exits) {
      Theorems.AllDone(BatchSize, s.queue);
    } else {
      var last := |core.exits| - 1;
      assert WellFormedExit(BatchSize, core.exits[last]);
      assert PacketsOf(core.exits)[..last] == PacketsOf(core.exits[..last]);
      assert core.added == Flatten(PacketsOf(core.exits[..last])) + core.exits[last].packets;
    }
  }

  /** Fewer packets than a batch never left in a full batch. */
  lemma NoFullBatch(core: Core)
    requires PacketsInv(BatchSize, core) && |core.added| < BatchSize
    ensures forall j :: 0 <= j < |core.exits| ==> !core.exits[j].dispatched
  {
    StagesPartition(core.exits);
    forall j | 0 <= j < |core.exits|
      ensures !core.exits[j].dispatched
    {
      assert WellFormedExit(BatchSize, core.exits[j]);
      SumAtLeast(core.exits, j, Size);
    }
  }

  /** With fewer than ten packets in all, the flush relays them all. */
  lemma SmallTotalDone(c: Config, s: State, n: nat)
    requires Reachable(c, s) && 0 <= c.packetsPerWallet && c.Total() < BatchSize
    requires n < |s.log| && s.log[n].update.updateType.DoneUpdate?
    ensures AllSucceeded(s.queue.core.exits) && s.queue.core.relaysCompleted == c.Total()
  {
    ReachableInvariant(c, s);
    DoneFacts(c, s, n);
    NoFullBatch(s.queue.core);
    var exits := s.queue.core.exits;
    assert forall j :: 0 <= j < |exits| ==> WellFormedExit(BatchSize, exits[j]);
    Theorems.AllDone(BatchSize, s.queue);
  }
}
