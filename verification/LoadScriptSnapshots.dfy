/** The numbers in the messages: each pair that a message takes from Status was true at one moment of the run. */
module LoadScriptSnapshots {
  import opened Wrappers
  import opened Sequences
  import opened RelayQueueProtocol
  import opened LoadScript
  import opened LoadScriptInvariants
  import opened LoadScriptFlush
  import opened LoadScriptMessages
  import opened LoadScriptTheorems

  /** After k steps of the run, and before message number `limit`, the caller `who` held both read locks, and these
      were the queue's length and the packets relayed. A worker was then between counting its transfer and sending its
      update, as the only one; for the coordinator, every worker had ended. */
  ghost predicate SeenAt(c: Config, schedule: seq<Step>, k: nat, who: nat, counted: int, inQueue: int, completed: int,
                         limit: nat) {
    && k <= |schedule|
    && Play(c, Start(c), schedule[..k]).Some?
    && var t := Play(c, Start(c), schedule[..k]).value;
       && who in t.queue.queueMutex.readers && who in t.queue.relayMutex.readers
       && inQueue == |t.queue.core.queue| && completed == t.queue.core.relaysCompleted
       && |t.log| <= limit
       && (who < |t.workers| ==>
             t.workers[who].pc.InStatus? && t.updateMutex == Held(who) && t.transferCompleted == counted)
       && (who == |t.workers| ==> t.coordinator.ReadingStatus? && forall w :: w in t.workers ==> Ended(w))
  }

  ghost predicate Seen(c: Config, schedule: seq<Step>, who: nat, counted: int, inQueue: int, completed: int,
                       limit: nat) {
    exists k: nat :: SeenAt(c, schedule, k, who, counted, inQueue, completed, limit)
  }

  lemma SeenLater(c: Config, schedule: seq<Step>, step: Step, who: nat, counted: int, inQueue: int, completed: int,
                  limit: nat, limit': nat)
    requires Seen(c, schedule, who, counted, inQueue, completed, limit) && limit <= limit'
    ensures Seen(c, schedule + [step], who, counted, inQueue, completed, limit')
  {
    var k: nat :| SeenAt(c, schedule, k, who, counted, inQueue, completed, limit);
    assert (schedule + [step])[..k] == schedule[..k];
    assert SeenAt(c, schedule + [step], k, who, counted, inQueue, completed, limit');
  }

  /** Who reads both counters under both locks sees them now. */
  lemma SeenNow(c: Config, schedule: seq<Step>, s: State, step: Step, who: nat)
    requires Play(c, Start(c), schedule) == Some(s) && ControlInv(c, s)
    requires who < |s.queue.calls| && s.queue.calls[who].StatusBoth?
    ensures Seen(c, schedule + [step], who, s.transferCompleted, |s.queue.core.queue|, s.queue.core.relaysCompleted,
                 |s.log|)
  {
    assert (schedule + [step])[..|schedule|] == schedule;
    if who < |s.workers| {
      assert CallMatches(s.workers[who], s.queue.calls[who]);
    }
    assert ReadsQueue(s.queue.calls[who]);
    assert SeenAt(c, schedule + [step], |schedule|, who, s.transferCompleted, |s.queue.core.queue|,
                  s.queue.core.relaysCompleted, |s.log|);
  }

  // The invariant along a run.

  /** What a thread has in hand from Status, but not sent, it saw; and nobody counted a transfer since. */
  ghost predicate HeldSeen(c: Config, schedule: seq<Step>, s: State, d: nat)
    requires |s.queue.calls| == |s.workers| + 1 && d <= |s.workers|
  {
    var r := if d < |s.workers| then WorkerReport(s.workers[d], s.queue.calls[d])
             else CoordinatorReport(s.coordinator, s.queue.calls[d]);
    r.Some? ==>
      exists counted: int ::
        && Seen(c, schedule, d, counted, r.value.inQueue, r.value.completed, |s.log|)
        && (d < |s.workers| ==> counted == s.transferCompleted)
  }

  ghost predicate EntrySeen(c: Config, schedule: seq<Step>, e: Entry, n: nat) {
    IsProgress(e) ==>
      Seen(c, schedule, e.from.worker, e.update.currentTransfers, e.update.inQueueRelays, e.update.completedRelaying, n)
  }

  ghost predicate SeenInv(c: Config, schedule: seq<Step>, s: State) {
    && |s.queue.calls| == |s.workers| + 1
    && (forall d: nat :: d <= |s.workers| ==> HeldSeen(c, schedule, s, d))
    && LogSeen(c, schedule, s.log)
  }

  ghost predicate LogSeen(c: Config, schedule: seq<Step>, log: seq<Entry>) {
    forall n: nat :: n < |log| ==> EntrySeen(c, schedule, log[n], n)
  }

  lemma HeldKept(c: Config, schedule: seq<Step>, step: Step, s: State, s': State, d: nat)
    requires |s.queue.calls| == |s.workers| + 1 == |s'.queue.calls| == |s'.workers| + 1 && d <= |s.workers|
    requires HeldSeen(c, schedule, s, d) && |s.log| <= |s'.log|
    requires if d < |s.workers|
             then WorkerReport(s'.workers[d], s'.queue.calls[d]).Some? ==>
                    && WorkerReport(s'.workers[d], s'.queue.calls[d]) == WorkerReport(s.workers[d], s.queue.calls[d])
                    && s'.transferCompleted == s.transferCompleted
             else CoordinatorReport(s'.coordinator, s'.queue.calls[d]).Some? ==>
                    CoordinatorReport(s'.coordinator, s'.queue.calls[d]) ==
                    CoordinatorReport(s.coordinator, s.queue.calls[d])
    ensures HeldSeen(c, schedule + [step], s', d)
  {
    var r := if d < |s.workers| then WorkerReport(s'.workers[d], s'.queue.calls[d])
             else CoordinatorReport(s'.coordinator, s'.queue.calls[d]);
    if r.Some? {
      var counted: int :|
        && Seen(c, schedule, d, counted, r.value.inQueue, r.value.completed, |s.log|)
        && (d < |s.workers| ==> counted == s.transferCompleted);
      SeenLater(c, schedule, step, d, counted, r.value.inQueue, r.value.completed, |s.log|, |s'.log|);
    }
  }

  lemma EntryKept(c: Config, schedule: seq<Step>, step: Step, e: Entry, n: nat)
    requires EntrySeen(c, schedule, e, n)
    ensures EntrySeen(c, schedule + [step], e, n)
  {
    if IsProgress(e) {
      SeenLater(c, schedule, step, e.from.worker, e.update.currentTransfers, e.update.inQueueRelays,
                e.update.completedRelaying, n, n);
    }
  }

  lemma LogKept(c: Config, schedule: seq<Step>, step: Step, log: seq<Entry>)
    requires LogSeen(c, schedule, log)
    ensures LogSeen(c, schedule + [step], log)
  {
    forall n: nat | n < |log|
      ensures EntrySeen(c, schedule + [step], log[n], n)
    {
      EntryKept(c, schedule, step, log[n], n);
    }
  }

  lemma OneMoreEntry(c: Config, schedule: seq<Step>, log: seq<Entry>, e: Entry)
    requires LogSeen(c, schedule, log) && EntrySeen(c, schedule, e, |log|)
    ensures LogSeen(c, schedule, log + [e])
  {
  }

  // A step of the queue.

  lemma ReadReport(q: Queue, d: nat)
    requires Enabled(q, ReadStatus(d))
    ensures q.calls[d].StatusBoth?
    ensures var call := Apply(BatchSize, q, ReadStatus(d)).calls[d];
            call == StatusLeaving(Report(|q.core.queue|, q.core.currentlyRelaying, q.core.relaysCompleted))
  {
  }

  lemma QueueStepShape(s: State, a: Action, d: nat)
    requires Internal(a) && Enabled(s.queue, a)
    ensures var s' := AfterQueueStep(s, a);
            && |s'.queue.calls| == |s.queue.calls| && |s'.workers| == |s.workers|
            && s'.log == s.log && s'.transferCompleted == s.transferCompleted && s'.coordinator == s.coordinator
            && s'.queue == Apply(BatchSize, s.queue, a)
            && (d < |s.workers| ==> s'.workers[d].pc == s.workers[d].pc)
  {
  }

  lemma QueueStepReads(c: Config, schedule: seq<Step>, s: State, s': State, d: nat)
    requires Play(c, Start(c), schedule) == Some(s) && ControlInv(c, s) && Enabled(s.queue, ReadStatus(d))
    requires d <= |s.workers| && |s'.workers| == |s.workers| && |s'.queue.calls| == |s.workers| + 1
    requires s'.queue == Apply(BatchSize, s.queue, ReadStatus(d))
    requires s'.log == s.log && s'.transferCompleted == s.transferCompleted && s'.coordinator == s.coordinator
    requires d < |s.workers| ==> s'.workers[d].pc == s.workers[d].pc
    ensures HeldSeen(c, schedule + [QueueStep(ReadStatus(d))], s', d)
  {
    ReadReport(s.queue, d);
    assert d < |s.workers| ==> CallMatches(s.workers[d], s.queue.calls[d]);
    SeenNow(c, schedule, s, QueueStep(ReadStatus(d)), d);
  }

  /** Reading the counters is the only step of the queue that gives a caller something to report. */
  lemma QueueStepHeld(c: Config, schedule: seq<Step>, s: State, a: Action, d: nat)
    requires Play(c, Start(c), schedule) == Some(s) && ControlInv(c, s) && Possible(s, QueueStep(a))
    requires d <= |s.workers| && HeldSeen(c, schedule, s, d)
    requires |AfterQueueStep(s, a).queue.calls| == |s.workers| + 1 == |AfterQueueStep(s, a).workers| + 1
    ensures HeldSeen(c, schedule + [QueueStep(a)], AfterQueueStep(s, a), d)
  {
    QueueStepShape(s, a, d);
    if a == ReadStatus(d) {
      QueueStepReads(c, schedule, s, AfterQueueStep(s, a), d);
    } else {
      QueueStepReport(s.queue, a, d);
      HeldKept(c, schedule, QueueStep(a), s, AfterQueueStep(s, a), d);
    }
  }

  lemma QueueStepSeen(c: Config, schedule: seq<Step>, s: State, a: Action)
    requires Play(c, Start(c), schedule) == Some(s) && ControlInv(c, s) && Possible(s, QueueStep(a))
    requires SeenInv(c, schedule, s)
    ensures SeenInv(c, schedule + [QueueStep(a)], AfterQueueStep(s, a))
  {
    var s' := AfterQueueStep(s, a);
    QueueStepShape(s, a, 0);
    LogKept(c, schedule, QueueStep(a), s.log);
    forall d: nat | d <= |s.workers|
      ensures HeldSeen(c, schedule + [QueueStep(a)], s', d)
    {
      QueueStepHeld(c, schedule, s, a, d);
    }
  }

  // A worker's step.

  lemma WorkerStepHeld(c: Config, schedule: seq<Step>, s: State, i: nat, act: WorkerAct, d: nat)
    requires ControlInv(c, s) && Possible(s, WorkerStep(i, act))
    requires d <= |s.workers| && HeldSeen(c, schedule, s, d)
    ensures var s' := AfterWorker(c, s, i, act);
            && |s'.queue.calls| == |s'.workers| + 1 && |s'.workers| == |s.workers|
            && HeldSeen(c, schedule + [WorkerStep(i, act)], s', d)
  {
    var s' := AfterWorker(c, s, i, act);
    WorkerBeforeJoin(s, i, act);
    AfterWorkerMoves(c, s, i, act);
    if d == i {
      assert CallMatches(s.workers[i], s.queue.calls[i]);
      NextReport(s.workers[i], s.queue.calls[i], act);
    } else if d < |s.workers| {
      OnlyHolderReports(s, d);
    }
    HeldKept(c, schedule, WorkerStep(i, act), s, s', d);
  }

  lemma WorkerStepSeen(c: Config, schedule: seq<Step>, s: State, i: nat, act: WorkerAct)
    requires ControlInv(c, s) && Possible(s, WorkerStep(i, act)) && SeenInv(c, schedule, s)
    ensures SeenInv(c, schedule + [WorkerStep(i, act)], AfterWorker(c, s, i, act))
  {
    var s' := AfterWorker(c, s, i, act);
    forall d: nat | d <= |s.workers|
      ensures |s'.queue.calls| == |s'.workers| + 1 && |s'.workers| == |s.workers|
      ensures HeldSeen(c, schedule + [WorkerStep(i, act)], s', d)
    {
      WorkerStepHeld(c, schedule, s, i, act, d);
    }
    WorkerLog(c, s, i, act);
    LogKept(c, schedule, WorkerStep(i, act), s.log);
    if WorkerMessage(c, s, s.workers[i], act).Some? {
      SentSeen(c, schedule, s, i, act);
      OneMoreEntry(c, schedule + [WorkerStep(i, act)], s.log,
                   Entry(FromWorker(i), WorkerMessage(c, s, s.workers[i], act).value));
    }
  }

  lemma SentSeen(c: Config, schedule: seq<Step>, s: State, i: nat, act: WorkerAct)
    requires Possible(s, WorkerStep(i, act)) && |s.queue.calls| == |s.workers| + 1 && HeldSeen(c, schedule, s, i)
    requires WorkerMessage(c, s, s.workers[i], act).Some?
    ensures EntrySeen(c, schedule + [WorkerStep(i, act)],
                      Entry(FromWorker(i), WorkerMessage(c, s, s.workers[i], act).value), |s.log|)
  {
    if act.SendUpdate? {
      var r := s.workers[i].pc.report;
      SeenLater(c, schedule, WorkerStep(i, act), i, s.transferCompleted, r.inQueue, r.completed, |s.log|, |s.log|);
    }
  }

  // The coordinator's step.

  lemma CoordinatorStepHeld(c: Config, schedule: seq<Step>, s: State, act: CoordinatorAct, d: nat)
    requires ControlInv(c, s) && Possible(s, CoordinatorStep(act))
    requires d <= |s.workers| && HeldSeen(c, schedule, s, d)
    ensures var s' := AfterCoordinator(c, s, act);
            && |s'.queue.calls| == |s'.workers| + 1 && |s'.workers| == |s.workers|
            && HeldSeen(c, schedule + [CoordinatorStep(act)], s', d)
  {
    CoordinatorPhase(s, act);
    AfterCoordinatorMoves(c, s, act);
    HeldKept(c, schedule, CoordinatorStep(act), s, AfterCoordinator(c, s, act), d);
  }

  lemma CoordinatorStepSeen(c: Config, schedule: seq<Step>, s: State, act: CoordinatorAct)
    requires ControlInv(c, s) && Possible(s, CoordinatorStep(act)) && SeenInv(c, schedule, s)
    ensures SeenInv(c, schedule + [CoordinatorStep(act)], AfterCoordinator(c, s, act))
  {
    var s' := AfterCoordinator(c, s, act);
    forall d: nat | d <= |s.workers|
      ensures |s'.queue.calls| == |s'.workers| + 1 && |s'.workers| == |s.workers|
      ensures HeldSeen(c, schedule + [CoordinatorStep(act)], s', d)
    {
      CoordinatorStepHeld(c, schedule, s, act, d);
    }
    CoordinatorLog(c, s, act);
    LogKept(c, schedule, CoordinatorStep(act), s.log);
    if CoordinatorMessage(c, s, act).Some? {
      OneMoreEntry(c, schedule + [CoordinatorStep(act)], s.log,
                   Entry(Coordinator, CoordinatorMessage(c, s, act).value));
    }
  }

  lemma ReceiveSeen(c: Config, schedule: seq<Step>, s: State)
    requires Possible(s, Receive) && SeenInv(c, schedule, s)
    ensures SeenInv(c, schedule + [Receive], After(c, s, Receive))
  {
    var s' := After(c, s, Receive);
    forall d: nat | d <= |s.workers|
      ensures HeldSeen(c, schedule + [Receive], s', d)
    {
      HeldKept(c, schedule, Receive, s, s', d);
    }
    LogKept(c, schedule, Receive, s.log);
  }

  lemma StepSeen(c: Config, schedule: seq<Step>, s: State, step: Step)
    requires Play(c, Start(c), schedule) == Some(s) && ControlInv(c, s) && Possible(s, step)
    requires SeenInv(c, schedule, s)
    ensures SeenInv(c, schedule + [step], After(c, s, step))
  {
    match step
    case WorkerStep(i, act) => WorkerStepSeen(c, schedule, s, i, act);
    case CoordinatorStep(act) => CoordinatorStepSeen(c, schedule, s, act);
    case QueueStep(a) => QueueStepSeen(c, schedule, s, a);
    case Receive => ReceiveSeen(c, schedule, s);
  }

  lemma StartSeen(c: Config)
    ensures SeenInv(c, [], Start(c))
  {
  }

  lemma {:induction false} RunSeen(c: Config, schedule: seq<Step>)
    requires Play(c, Start(c), schedule).Some?
    ensures SeenInv(c, schedule, Play(c, Start(c), schedule).value)
  {
    if schedule == [] {
      StartSeen(c);
    } else {
      var before, step := schedule[..|schedule| - 1], schedule[|schedule| - 1];
      RunSeen(c, before);
      var s := Play(c, Start(c), before).value;
      ReachableControl(c, s);
      assert before + [step] == schedule;
      StepSeen(c, before, s, step);
    }
  }

  // The theorems.

  /** Both numbers in a worker's update are those of one moment of the run, between the worker's counting its transfer
      and its sending the update: the queue's length, and the packets relayed. */
  lemma WorkerUpdateIsSnapshot(c: Config, schedule: seq<Step>, s: State, n: nat, i: nat)
    requires Play(c, Start(c), schedule) == Some(s) && n < |s.log|
    requires s.log[n].from == FromWorker(i) && s.log[n].update.updateType.TransferUpdate?
    ensures var u := s.log[n].update;
            && u.totalTransfers == c.workers * c.packetsPerWallet
            && Seen(c, schedule, i, u.currentTransfers, u.inQueueRelays, u.completedRelaying, n)
  {
    RunSeen(c, schedule);
    assert EntrySeen(c, schedule, s.log[n], n);
    ReachableInvariant(c, s);
    assert EntryFits(c, s.workers, s.coordinator, n, |s.log|, s.log[n]);
  }

  // The coordinator's own updates.

  /** The coordinator's RelayingUpdates, in channel order. */
  function RelayingUpdates(log: seq<Entry>): seq<Update> {
    if log == [] then []
    else
      var last := log[|log| - 1];
      RelayingUpdates(log[..|log| - 1]) +
      if last.from.Coordinator? && last.update.updateType.RelayingUpdate? then [last.update] else []
  }

  lemma AppendRelaying(log: seq<Entry>, e: Entry)
    ensures RelayingUpdates(log + [e]) ==
            RelayingUpdates(log) +
            if e.from.Coordinator? && e.update.updateType.RelayingUpdate? then [e.update] else []
  {
    assert (log + [e])[..|log|] == log;
  }

  /** How many of them the coordinator has sent. */
  function RelayingCount(pc: CoordinatorPc): nat {
    match pc
    case Announcing => 0
    case Joining => 0
    case StartingRelay => 0
    case Reporting(outcome) => if outcome.TransferFailed? then 0 else 2
    case ReadingStatus => 1
    case ReportingStatus(_) => 1
    case Flushing => 2
    case ReportingDone => 2
    case Closing(outcome) => if outcome.TransferFailed? then 0 else 2
    case Closed(outcome) => if outcome.TransferFailed? then 0 else 2
  }

  /** The first has no numbers from the queue yet; those of the second were seen when every worker had ended. */
  ghost predicate RelayingFits(c: Config, schedule: seq<Step>, updates: seq<Update>, length: nat) {
    && |updates| <= 2
    && (|updates| > 0 ==> updates[0] == Update(RelayingUpdate, c.Total(), c.Total(), 0, 0))
    && (|updates| > 1 ==>
          && updates[1].updateType.RelayingUpdate?
          && updates[1].currentTransfers == updates[1].totalTransfers == c.Total()
          && exists counted: int ::
               Seen(c, schedule, c.workers, counted, updates[1].inQueueRelays, updates[1].completedRelaying, length))
  }

  ghost predicate RelayingInv(c: Config, schedule: seq<Step>, s: State) {
    && |RelayingUpdates(s.log)| == RelayingCount(s.coordinator)
    && RelayingFits(c, schedule, RelayingUpdates(s.log), |s.log|)
  }

  lemma RelayingKept(c: Config, schedule: seq<Step>, step: Step, updates: seq<Update>, length: nat, length': nat)
    requires RelayingFits(c, schedule, updates, length) && length <= length'
    ensures RelayingFits(c, schedule + [step], updates, length')
  {
    if |updates| > 1 {
      var counted: int :|
        Seen(c, schedule, c.workers, counted, updates[1].inQueueRelays, updates[1].completedRelaying, length);
      SeenLater(c, schedule, step, c.workers, counted, updates[1].inQueueRelays, updates[1].completedRelaying,
                length, length');
    }
  }

  /** A coordinator's message is counted exactly if it is a RelayingUpdate. */
  lemma RelayingMessage(c: Config, s: State, act: CoordinatorAct)
    requires Possible(s, CoordinatorStep(act))
    ensures var message := CoordinatorMessage(c, s, act);
            && (act.StartRelay? ==> message == Some(Update(RelayingUpdate, c.Total(), c.Total(), 0, 0)))
            && (act.ReportStatus? ==>
                  var r := s.coordinator.report;
                  message == Some(Update(RelayingUpdate, c.Total(), c.Total(), r.completed, r.inQueue)))
            && (message.Some? && message.value.updateType.RelayingUpdate? ==> act.StartRelay? || act.ReportStatus?)
  {
  }

  lemma RelayingCounted(workers: seq<Worker>, pc: CoordinatorPc, call: Call, act: CoordinatorAct)
    requires CoordinatorReady(pc, call, act)
    ensures RelayingCount(CoordinatorNext(workers, pc, call, act)) ==
            RelayingCount(pc) + if act.StartRelay? || act.ReportStatus? then 1 else 0
    ensures act.StartRelay? ==> RelayingCount(pc) == 0
    ensures act.ReportStatus? ==> RelayingCount(pc) == 1
  {
  }

  lemma RelayingLog(c: Config, s: State, act: CoordinatorAct)
    requires ControlInv(c, s) && Possible(s, CoordinatorStep(act))
    ensures var s' := AfterCoordinator(c, s, act);
            && |s.log| <= |s'.log|
            && RelayingUpdates(s'.log) ==
               RelayingUpdates(s.log) +
               if act.StartRelay? || act.ReportStatus? then [CoordinatorMessage(c, s, act).value] else []
  {
    CoordinatorLog(c, s, act);
    RelayingMessage(c, s, act);
    if CoordinatorMessage(c, s, act).Some? {
      AppendRelaying(s.log, Entry(Coordinator, CoordinatorMessage(c, s, act).value));
    }
  }

  lemma SecondRelaying(c: Config, schedule: seq<Step>, updates: seq<Update>, u: Update, counted: int, length: nat)
    requires RelayingFits(c, schedule, updates, length) && |updates| == 1
    requires u == Update(RelayingUpdate, c.Total(), c.Total(), u.completedRelaying, u.inQueueRelays)
    requires Seen(c, schedule, c.workers, counted, u.inQueueRelays, u.completedRelaying, length)
    ensures RelayingFits(c, schedule, updates + [u], length)
  {
  }

  lemma CoordinatorRelaying(c: Config, schedule: seq<Step>, s: State, act: CoordinatorAct)
    requires ControlInv(c, s) && Possible(s, CoordinatorStep(act))
    requires HeldSeen(c, schedule, s, |s.workers|) && RelayingInv(c, schedule, s)
    ensures RelayingInv(c, schedule + [CoordinatorStep(act)], AfterCoordinator(c, s, act))
  {
    var s', updates, step := AfterCoordinator(c, s, act), RelayingUpdates(s.log), CoordinatorStep(act);
    RelayingLog(c, s, act);
    RelayingMessage(c, s, act);
    RelayingCounted(s.workers, s.coordinator, s.queue.calls[|s.workers|], act);
    RelayingKept(c, schedule, step, updates, |s.log|, |s'.log|);
    if act.ReportStatus? {
      var r := s.coordinator.report;
      var counted: int :| Seen(c, schedule, c.workers, counted, r.inQueue, r.completed, |s.log|);
      SeenLater(c, schedule, step, c.workers, counted, r.inQueue, r.completed, |s.log|, |s'.log|);
      SecondRelaying(c, schedule + [step], updates, CoordinatorMessage(c, s, act).value, counted, |s'.log|);
    }
  }

  lemma OtherRelaying(c: Config, schedule: seq<Step>, s: State, step: Step)
    requires ControlInv(c, s) && Possible(s, step) && !step.CoordinatorStep? && RelayingInv(c, schedule, s)
    ensures RelayingInv(c, schedule + [step], After(c, s, step))
  {
    if step.WorkerStep? {
      WorkerLog(c, s, step.i, step.act);
      var message := WorkerMessage(c, s, s.workers[step.i], step.act);
      if message.Some? {
        AppendRelaying(s.log, Entry(FromWorker(step.i), message.value));
      }
    }
    RelayingKept(c, schedule, step, RelayingUpdates(s.log), |s.log|, |After(c, s, step).log|);
  }

  lemma {:induction false} RunRelaying(c: Config, schedule: seq<Step>)
    requires Play(c, Start(c), schedule).Some?
    ensures RelayingInv(c, schedule, Play(c, Start(c), schedule).value)
  {
    if schedule == [] {
      assert Start(c).log[..0] == [];
    } else {
      var before, step := schedule[..|schedule| - 1], schedule[|schedule| - 1];
      RunRelaying(c, before);
      RunSeen(c, before);
      var s := Play(c, Start(c), before).value;
      ReachableControl(c, s);
      assert before + [step] == schedule;
      if step.CoordinatorStep? {
        CoordinatorRelaying(c, before, s, step.todo);
      } else {
        OtherRelaying(c, before, s, step);
      }
    }
  }

  /** When the coordinator reads the counters, every packet has been added and the queue holds the total modulo ten. */
  lemma SeenByCoordinator(c: Config, schedule: seq<Step>, counted: int, inQueue: int, completed: int, limit: nat)
    requires c.packetsPerWallet >= 0 && Seen(c, schedule, c.workers, counted, inQueue, completed, limit)
    ensures inQueue == c.workers * c.packetsPerWallet % 10
  {
    var k: nat :| SeenAt(c, schedule, k, c.workers, counted, inQueue, completed, limit);
    var t := Play(c, Start(c), schedule[..k]).value;
    ReachableInvariant(c, t);
    QueueUntilFlush(c, t);
    AllAdded(c, t);
  }

  lemma AllAdded(c: Config, t: State)
    requires ControlInv(c, t) && t.coordinator.ReadingStatus? && c.packetsPerWallet >= 0
    ensures |t.queue.core.added| == c.workers * c.packetsPerWallet
  {
    EveryWorker(c, t);
    assert forall w :: w in t.workers ==> w.pc.Through?;
    SumConstant(t.workers, Queued, c.Rounds());
  }

  /** The coordinator sends two RelayingUpdates, unless a transfer failed. Both count all transfers; the first shows
      nothing of the queue; the second shows the total modulo ten as queued, and as relayed the packets relayed at
      a moment when every worker had ended and the coordinator held both read locks. */
  lemma CoordinatorUpdates(c: Config, schedule: seq<Step>, s: State)
    requires Play(c, Start(c), schedule) == Some(s) && c.packetsPerWallet >= 0
    ensures var total, updates := c.workers * c.packetsPerWallet, RelayingUpdates(s.log);
            && |updates| <= 2
            && (|updates| > 0 ==> updates[0] == Update(RelayingUpdate, total, total, 0, 0))
            && (|updates| > 1 ==>
                  && updates[1] == Update(RelayingUpdate, total, total, updates[1].completedRelaying, total % 10)
                  && exists counted: int ::
                       Seen(c, schedule, c.workers, counted, total % 10, updates[1].completedRelaying, |s.log|))
            && (s.closed && (forall w :: w in s.workers ==> !w.pc.GaveUp?) ==> |updates| == 2)
  {
    RunRelaying(c, schedule);
    ReachableInvariant(c, s);
    var updates := RelayingUpdates(s.log);
    if |updates| > 1 {
      var counted: int :|
        Seen(c, schedule, c.workers, counted, updates[1].inQueueRelays, updates[1].completedRelaying, |s.log|);
      SeenByCoordinator(c, schedule, counted, updates[1].inQueueRelays, updates[1].completedRelaying, |s.log|);
    }
  }

  // The announcement.

  /** The transfers that a message of the coordinator counts are those of the updates before it in the channel, and
      perhaps one whose update is on its way. */
  ghost predicate CountsUpdates(log: seq<Entry>, n: nat)
    requires n < |log|
  {
    var e := log[n];
    e.from.Coordinator? && e.update.updateType.TransferUpdate? ==>
      |Progress(log[..n])| <= e.update.currentTransfers <= |Progress(log[..n])| + 1
  }

  ghost predicate CountsInv(log: seq<Entry>) {
    forall n: nat :: n < |log| ==> CountsUpdates(log, n)
  }

  lemma CountsKept(log: seq<Entry>, e: Entry)
    requires CountsInv(log)
    requires e.from.Coordinator? && e.update.updateType.TransferUpdate? ==>
               |Progress(log)| <= e.update.currentTransfers <= |Progress(log)| + 1
    ensures CountsInv(log + [e])
  {
    forall n: nat | n < |log| + 1
      ensures CountsUpdates(log + [e], n)
    {
      assert (log + [e])[..n] == log[..n];
      if n < |log| {
        assert CountsUpdates(log, n);
      } else {
        assert log[..n] == log;
      }
    }
  }

  lemma StepCounts(c: Config, s: State, step: Step)
    requires ControlInv(c, s) && NumberingInv(s.log, s.workers, s.updateMutex, s.transferCompleted)
    requires Possible(s, step) && CountsInv(s.log)
    ensures CountsInv(After(c, s, step).log)
  {
    match step
    case WorkerStep(i, act) =>
      WorkerLog(c, s, i, act);
      var message := WorkerMessage(c, s, s.workers[i], act);
      if message.Some? {
        CountsKept(s.log, Entry(FromWorker(i), message.value));
      }
    case CoordinatorStep(act) =>
      CoordinatorLog(c, s, act);
      var message := CoordinatorMessage(c, s, act);
      if message.Some? {
        CountsKept(s.log, Entry(Coordinator, message.value));
      }
    case QueueStep(a) =>
    case Receive =>
  }

  lemma {:induction false} RunCounts(c: Config, schedule: seq<Step>)
    requires Play(c, Start(c), schedule).Some?
    ensures CountsInv(Play(c, Start(c), schedule).value.log)
  {
    if schedule != [] {
      var before := schedule[..|schedule| - 1];
      RunCounts(c, before);
      var s := Play(c, Start(c), before).value;
      ReachableInvariant(c, s);
      StepCounts(c, s, schedule[|schedule| - 1]);
    }
  }

  /** All other messages have fixed numbers, except that the coordinator's announcement counts the transfers so far. */
  lemma OtherMessages(c: Config, s: State, n: nat)
    requires Reachable(c, s) && n < |s.log|
    ensures var e, total := s.log[n], c.workers * c.packetsPerWallet;
            && (e.from.Starter? <==> n == 0)
            && (n == 0 ==> e.update == Update(TransferUpdate, 0, total, 0, 0))
            && (e.from.Coordinator? && e.update.updateType.TransferUpdate? ==>
                  && e.update == Update(TransferUpdate, e.update.currentTransfers, total, 0, 0)
                  && |Progress(s.log[..n])| <= e.update.currentTransfers <= |Progress(s.log[..n])| + 1)
            && (e.update.updateType.ErrorUpdate? ==> e.update == Update(ErrorUpdate, 0, total, 0, 0))
            && (e.update.updateType.DoneUpdate? ==> e.update == Update(DoneUpdate, total, total, total, 0))
  {
    var schedule :| Play(c, Start(c), schedule) == Some(s);
    RunCounts(c, schedule);
    assert CountsUpdates(s.log, n);
    ReachableInvariant(c, s);
    assert EntryFits(c, s.workers, s.coordinator, n, |s.log|, s.log[n]);
  }
}
