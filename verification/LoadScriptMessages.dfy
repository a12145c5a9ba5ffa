/** Invariants of the progress channel: numbering, snapshots, the shape of the log, and where the consumer stops. */
module LoadScriptMessages {
  import opened Wrappers
  import opened Sequences
  import opened Ibc
  import opened RelayQueueCore
  import opened RelayQueueProtocol
  import opened LoadScript
  import opened LoadScriptInvariants
  import opened LoadScriptFlush
  import Theorems = RelayQueueTheorems

  predicate IsProgress(e: Entry) {
    e.from.FromWorker? && e.update.updateType.TransferUpdate?
  }

  /** The workers' updates, in channel order. */
  function Progress(log: seq<Entry>): seq<Update> {
    if log == [] then []
    else
      var last := log[|log| - 1];
      Progress(log[..|log| - 1]) + if IsProgress(last) then [last.update] else []
  }

  /** How many updates one worker sent. */
  function CountFrom(log: seq<Entry>, i: nat): nat {
    if log == [] then 0
    else
      var last := log[|log| - 1];
      CountFrom(log[..|log| - 1], i) + if IsProgress(last) && last.from.worker == i then 1 else 0
  }

  lemma AppendEntry(log: seq<Entry>, e: Entry)
    ensures Progress(log + [e]) == Progress(log) + if IsProgress(e) then [e.update] else []
    ensures forall i: nat ::
      CountFrom(log + [e], i) == CountFrom(log, i) + if IsProgress(e) && e.from.worker == i then 1 else 0
  {
    assert (log + [e])[..|log|] == log;
  }

  // Numbering.

  predicate CountedAhead(workers: seq<Worker>, m: Holder<nat>) {
    m.Held? && m.who < |workers| && (workers[m.who].pc.InStatus? || workers[m.who].pc.HasStatus?)
  }

  ghost predicate NumberingInv(log: seq<Entry>, workers: seq<Worker>, m: Holder<nat>, counted: nat) {
    && (forall k :: 0 <= k < |Progress(log)| ==> Progress(log)[k].currentTransfers == k + 1)
    && counted == |Progress(log)| + (if CountedAhead(workers, m) then 1 else 0)
    && (forall i: nat :: i < |workers| ==> CountFrom(log, i) == workers[i].sent)
  }

  /** What a worker's step appends, given that the channel is open. */
  lemma WorkerLog(c: Config, s: State, i: nat, act: WorkerAct)
    requires ControlInv(c, s) && Possible(s, WorkerStep(i, act))
    ensures var s' := AfterWorker(c, s, i, act);
            var message := WorkerMessage(c, s, s.workers[i], act);
            s'.log == s.log + if message.Some? then [Entry(FromWorker(i), message.value)] else []
  {
    WorkerBeforeJoin(s, i, act);
  }

  lemma CoordinatorLog(c: Config, s: State, act: CoordinatorAct)
    requires ControlInv(c, s) && Possible(s, CoordinatorStep(act))
    ensures var s' := AfterCoordinator(c, s, act);
            var message := CoordinatorMessage(c, s, act);
            s'.log == s.log + if message.Some? then [Entry(Coordinator, message.value)] else []
  {
    CoordinatorPhase(s, act);
  }

  lemma NumberingMoves(log: seq<Entry>, workers: seq<Worker>, m: Holder<nat>, counted: nat, i: nat, call: Call,
                       act: WorkerAct, u: Update)
    requires NumberingInv(log, workers, m, counted) && UpdateMutexInv(workers, m)
    requires i < |workers| && WorkerReady(workers[i], call, act)
    requires act.CountTransfer? ==> m.Nobody?
    requires act.SendUpdate? ==> u.updateType.TransferUpdate? && u.currentTransfers == counted
    requires act.ReportFailure? ==> u.updateType.ErrorUpdate?
    ensures NumberingInv(log + (if act.SendUpdate? || act.ReportFailure? then [Entry(FromWorker(i), u)] else []),
                         workers[i := WorkerNext(workers[i], call, act)],
                         if act.CountTransfer? then Held(i) else if act.UnlockUpdate? then Nobody else m,
                         counted + if act.CountTransfer? then 1 else 0)
  {
    if act.SendUpdate? || act.ReportFailure? {
      AppendEntry(log, Entry(FromWorker(i), u));
    } else {
      assert log + [] == log;
    }
  }

  lemma WorkerNumbering(c: Config, s: State, i: nat, act: WorkerAct)
    requires ControlInv(c, s) && Possible(s, WorkerStep(i, act))
    requires NumberingInv(s.log, s.workers, s.updateMutex, s.transferCompleted)
    ensures var s' := AfterWorker(c, s, i, act);
            NumberingInv(s'.log, s'.workers, s'.updateMutex, s'.transferCompleted)
  {
    WorkerLog(c, s, i, act);
    var message := WorkerMessage(c, s, s.workers[i], act);
    var u := if message.Some? then message.value else Message(c, DoneUpdate, 0, 0, 0);
    NumberingMoves(s.log, s.workers, s.updateMutex, s.transferCompleted, i, s.queue.calls[i], act, u);
  }

  lemma CoordinatorNumbering(c: Config, s: State, act: CoordinatorAct)
    requires ControlInv(c, s) && Possible(s, CoordinatorStep(act))
    requires NumberingInv(s.log, s.workers, s.updateMutex, s.transferCompleted)
    ensures var s' := AfterCoordinator(c, s, act);
            NumberingInv(s'.log, s'.workers, s'.updateMutex, s'.transferCompleted)
  {
    CoordinatorLog(c, s, act);
    var message := CoordinatorMessage(c, s, act);
    if message.Some? {
      AppendEntry(s.log, Entry(Coordinator, message.value));
    }
  }

  lemma StepNumbering(c: Config, s: State, step: Step)
    requires ControlInv(c, s) && Possible(s, step)
    requires NumberingInv(s.log, s.workers, s.updateMutex, s.transferCompleted)
    ensures var s' := After(c, s, step); NumberingInv(s'.log, s'.workers, s'.updateMutex, s'.transferCompleted)
  {
    match step
    case WorkerStep(i, act) => WorkerNumbering(c, s, i, act);
    case CoordinatorStep(act) => CoordinatorNumbering(c, s, act);
    case QueueStep(a) =>
    case Receive =>
  }

  // Snapshots.

  /** The values that a call of Status has read and not delivered yet. */
  function CallReport(call: Call): Option<Report> {
    match call
    case StatusLeaving(r) => Some(r)
    case StatusDone(r) => Some(r)
    case _ => None
  }

  function WorkerReport(w: Worker, call: Call): Option<Report> {
    match w.pc
    case HasStatus(r) => Some(r)
    case InStatus => CallReport(call)
    case _ => None
  }

  function CoordinatorReport(pc: CoordinatorPc, call: Call): Option<Report> {
    match pc
    case ReportingStatus(r) => Some(r)
    case ReadingStatus => CallReport(call)
    case _ => None
  }

  /** A report never shows more packets than were added, nor more relayed than have been. */
  predicate Covered(r: Report, core: Core) {
    0 <= r.completed <= core.relaysCompleted && r.inQueue + r.completed <= |core.added|
  }

  /** The report of the worker that holds the update mutex: it runs ahead of the transfers counted so far by at
      most the other workers, and not behind any update sent so far. */
  ghost predicate Current(r: Report, progress: seq<Update>, workers: nat, counted: nat) {
    && r.inQueue + r.completed <= counted + workers - 1
    && forall k :: 0 <= k < |progress| ==> progress[k].completedRelaying <= r.completed
  }

  ghost predicate SnapshotsInv(progress: seq<Update>, workers: nat, core: Core) {
    && (forall k :: 0 <= k < |progress| ==>
          && 0 <= progress[k].completedRelaying <= core.relaysCompleted
          && 0 <= progress[k].inQueueRelays
          && progress[k].completedRelaying + progress[k].inQueueRelays <= |core.added|
          && progress[k].completedRelaying + progress[k].inQueueRelays <= progress[k].currentTransfers + workers - 1)
    && (forall k, l :: 0 <= k < l < |progress| ==> progress[k].completedRelaying <= progress[l].completedRelaying)
  }

  ghost predicate WorkerReportFits(s: State, i: nat)
    requires i < |s.workers| && i < |s.queue.calls|
  {
    var r := WorkerReport(s.workers[i], s.queue.calls[i]);
    r.Some? ==>
      Covered(r.value, s.queue.core) && Current(r.value, Progress(s.log), |s.workers|, s.transferCompleted)
  }

  ghost predicate ReportsInv(s: State)
    requires |s.queue.calls| == |s.workers| + 1
  {
    && (forall i: nat :: i < |s.workers| ==> WorkerReportFits(s, i))
    && (var r := CoordinatorReport(s.coordinator, s.queue.calls[|s.workers|]);
        r.Some? ==> Covered(r.value, s.queue.core))
    && SnapshotsInv(Progress(s.log), |s.workers|, s.queue.core)
  }

  lemma OnlyHolderReports(s: State, i: nat)
    requires UpdateMutexInv(s.workers, s.updateMutex) && i < |s.workers| && i < |s.queue.calls|
    ensures WorkerReport(s.workers[i], s.queue.calls[i]).Some? ==> s.updateMutex == Held(i)
  {
  }

  /** Counters and history only grow. */
  lemma QueueGrows(q: Queue, a: Action)
    requires Enabled(q, a)
    ensures var core := Apply(BatchSize, q, a).core;
            && core.relaysCompleted >= q.core.relaysCompleted
            && |core.added| >= |q.core.added|
  {
  }

  lemma QueueStepReport(q: Queue, a: Action, d: nat)
    requires Enabled(q, a) && Internal(a) && d < |q.calls| && a != ReadStatus(d)
    ensures d < |Apply(BatchSize, q, a).calls|
    ensures CallReport(Apply(BatchSize, q, a).calls[d]) == CallReport(q.calls[d])
  {
    if !ActsFor(a, d) {
      OtherCalls(q, a, d);
    }
  }

  lemma FreshReport(c: Config, s: State, d: nat)
    requires ControlInv(c, s) && d < |s.queue.calls| && s.queue.calls[d].StatusBoth?
    ensures var core := s.queue.core;
            && 0 <= core.relaysCompleted
            && |core.queue| + core.relaysCompleted <= |core.added|
            && (d < |s.workers| ==> |core.queue| + core.relaysCompleted <= s.transferCompleted + |s.workers| - 1)
  {
    Theorems.ReadingIsExact(BatchSize, s.queue, d);
    if d < |s.workers| {
      assert CallMatches(s.workers[d], s.queue.calls[d]);
      assert WorkerInv(c.Rounds(), s.workers[d]);
      forall w | w in s.workers
        ensures Queued(w) <= Counted(w) + 1
      {
        var i: nat :| i < |s.workers| && s.workers[i] == w;
        assert WorkerInv(c.Rounds(), s.workers[i]);
      }
      SumSlack(s.workers, Queued, Counted, d);
    }
  }

  lemma WorkerQueueStepReport(c: Config, s: State, a: Action, i: nat)
    requires ControlInv(c, s) && ReportsInv(s) && Possible(s, QueueStep(a)) && i < |s.workers|
    ensures var s' := AfterQueueStep(s, a); i < |s'.queue.calls| && WorkerReportFits(s', i)
  {
    var s' := AfterQueueStep(s, a);
    InternalCall(s.queue, a, i);
    QueueGrows(s.queue, a);
    if a == ReadStatus(i) {
      FreshReport(c, s, i);
    } else {
      QueueStepReport(s.queue, a, i);
      assert WorkerReportFits(s, i);
    }
  }

  lemma CoordinatorQueueStepReport(c: Config, s: State, a: Action)
    requires ControlInv(c, s) && ReportsInv(s) && Possible(s, QueueStep(a))
    ensures var q' := AfterQueueStep(s, a).queue;
            && |q'.calls| == |s.workers| + 1
            && var r := CoordinatorReport(s.coordinator, q'.calls[|s.workers|]);
               r.Some? ==> Covered(r.value, q'.core)
  {
    var n := |s.workers|;
    InternalCall(s.queue, a, n);
    QueueGrows(s.queue, a);
    if a == ReadStatus(n) {
      FreshReport(c, s, n);
    } else {
      QueueStepReport(s.queue, a, n);
    }
  }

  lemma QueueStepReports(c: Config, s: State, a: Action)
    requires ControlInv(c, s) && ReportsInv(s) && Possible(s, QueueStep(a))
    ensures var s' := AfterQueueStep(s, a); |s'.queue.calls| == |s'.workers| + 1 && ReportsInv(s')
  {
    var s' := AfterQueueStep(s, a);
    CoordinatorQueueStepReport(c, s, a);
    QueueGrows(s.queue, a);
    forall i: nat | i < |s.workers|
      ensures WorkerReportFits(s', i)
    {
      WorkerQueueStepReport(c, s, a, i);
    }
  }

  lemma WorkerProgress(c: Config, s: State, i: nat, act: WorkerAct)
    requires ControlInv(c, s) && Possible(s, WorkerStep(i, act))
    ensures var s' := AfterWorker(c, s, i, act);
            && s'.queue.core == s.queue.core
            && |s'.queue.calls| == |s.queue.calls|
            && (forall j: nat :: j < |s.queue.calls| && j != i ==> s'.queue.calls[j] == s.queue.calls[j])
            && s'.queue.calls[i] == NextCall(s.queue.calls[i], act)
    ensures Progress(AfterWorker(c, s, i, act).log) ==
            Progress(s.log)
            + if act.SendUpdate? then [WorkerMessage(c, s, s.workers[i], act).value] else []
  {
    AfterWorkerCall(s.queue, i, s.workers[i], act);
    WorkerLog(c, s, i, act);
    var message := WorkerMessage(c, s, s.workers[i], act);
    if message.Some? {
      AppendEntry(s.log, Entry(FromWorker(i), message.value));
    }
  }

  lemma OtherWorkerReport(c: Config, s: State, i: nat, act: WorkerAct, j: nat)
    requires ControlInv(c, s) && ReportsInv(s) && Possible(s, WorkerStep(i, act))
    requires j < |s.workers| && j != i
    ensures var s' := AfterWorker(c, s, i, act); j < |s'.queue.calls| && WorkerReportFits(s', j)
  {
    WorkerProgress(c, s, i, act);
    OnlyHolderReports(s, j);
    assert WorkerReportFits(s, j);
    assert s.updateMutex == Held(i) <==> HoldsUpdate(s.workers[i]);
  }

  /** A worker has a report to send only from the return of Status on, and it is the one that Status returned. */
  lemma NextReport(w: Worker, call: Call, act: WorkerAct)
    requires CallMatches(w, call) && WorkerReady(w, call, act)
    ensures var r := WorkerReport(WorkerNext(w, call, act), NextCall(call, act));
            r.Some? ==> act.StatusReturns? && r == WorkerReport(w, call)
  {
  }

  lemma OwnReport(c: Config, s: State, i: nat, act: WorkerAct)
    requires ControlInv(c, s) && ReportsInv(s) && Possible(s, WorkerStep(i, act))
    ensures var s' := AfterWorker(c, s, i, act); i < |s'.queue.calls| && WorkerReportFits(s', i)
  {
    WorkerProgress(c, s, i, act);
    WorkerBeforeJoin(s, i, act);
    AfterWorkerMoves(c, s, i, act);
    assert WorkerReportFits(s, i);
    assert CallMatches(s.workers[i], s.queue.calls[i]);
    NextReport(s.workers[i], s.queue.calls[i], act);
  }

  lemma SentSnapshot(c: Config, s: State, i: nat)
    requires ControlInv(c, s) && ReportsInv(s) && Possible(s, WorkerStep(i, SendUpdate))
    ensures SnapshotsInv(Progress(s.log) + [WorkerMessage(c, s, s.workers[i], SendUpdate).value],
                         |s.workers|, s.queue.core)
  {
    assert WorkerReportFits(s, i);
  }

  lemma WorkerReports(c: Config, s: State, i: nat, act: WorkerAct)
    requires ControlInv(c, s) && ReportsInv(s) && Possible(s, WorkerStep(i, act))
    ensures var s' := AfterWorker(c, s, i, act); |s'.queue.calls| == |s'.workers| + 1 && ReportsInv(s')
  {
    var s' := AfterWorker(c, s, i, act);
    WorkerProgress(c, s, i, act);
    if act.SendUpdate? {
      SentSnapshot(c, s, i);
    }
    forall j: nat | j < |s.workers|
      ensures WorkerReportFits(s', j)
    {
      if j == i { OwnReport(c, s, i, act); } else { OtherWorkerReport(c, s, i, act, j); }
    }
  }

  lemma CoordinatorProgress(c: Config, s: State, act: CoordinatorAct)
    requires ControlInv(c, s) && Possible(s, CoordinatorStep(act))
    ensures var s' := AfterCoordinator(c, s, act);
            && s'.queue == s.queue.(calls := s.queue.calls[|s.workers| :=
                              NextCoordinatorCall(s.queue.calls[|s.workers|], act)])
            && Progress(s'.log) == Progress(s.log)
  {
    AfterCoordinatorCall(s.queue, |s.workers|, s.coordinator, act);
    CoordinatorLog(c, s, act);
    var message := CoordinatorMessage(c, s, act);
    if message.Some? {
      AppendEntry(s.log, Entry(Coordinator, message.value));
    }
  }

  lemma CoordinatorOwnReport(c: Config, s: State, act: CoordinatorAct)
    requires ControlInv(c, s) && ReportsInv(s) && Possible(s, CoordinatorStep(act))
    ensures var call := s.queue.calls[|s.workers|];
            var r := CoordinatorReport(CoordinatorNext(s.workers, s.coordinator, call, act),
                                       NextCoordinatorCall(call, act));
            r.Some? ==> Covered(r.value, s.queue.core)
  {
  }

  lemma CoordinatorReports(c: Config, s: State, act: CoordinatorAct)
    requires ControlInv(c, s) && ReportsInv(s) && Possible(s, CoordinatorStep(act))
    ensures var s' := AfterCoordinator(c, s, act); |s'.queue.calls| == |s'.workers| + 1 && ReportsInv(s')
  {
    var s' := AfterCoordinator(c, s, act);
    CoordinatorProgress(c, s, act);
    CoordinatorOwnReport(c, s, act);
    forall j: nat | j < |s.workers|
      ensures WorkerReportFits(s', j)
    {
      assert WorkerReportFits(s, j);
    }
  }

  lemma StepReports(c: Config, s: State, step: Step)
    requires ControlInv(c, s) && ReportsInv(s) && Possible(s, step)
    ensures var s' := After(c, s, step); |s'.queue.calls| == |s'.workers| + 1 && ReportsInv(s')
  {
    match step
    case WorkerStep(i, act) => WorkerReports(c, s, i, act);
    case CoordinatorStep(act) => CoordinatorReports(c, s, act);
    case QueueStep(a) => QueueStepReports(c, s, a);
    case Receive =>
      forall j: nat | j < |s.workers|
        ensures WorkerReportFits(After(c, s, step), j)
      {
        assert WorkerReportFits(s, j);
      }
  }

  // The shape of the log.

  /** Where each message can come from, and what has become of its sender. */
  predicate EntryFits(c: Config, workers: seq<Worker>, pc: CoordinatorPc, n: nat, length: nat, e: Entry) {
    && e.update.totalTransfers == c.Total()
    && match e.from
       case Starter => n == 0 && e.update == Message(c, TransferUpdate, 0, 0, 0)
       case FromWorker(i) =>
         && i < |workers| && 0 < n
         && (e.update.updateType.TransferUpdate?
             || (e.update == Message(c, ErrorUpdate, 0, 0, 0) && workers[i].pc.GaveUp? && n >= 1 + workers[i].sent))
       case Coordinator =>
         && 0 < n
         && match e.update.updateType
            case TransferUpdate =>
              !pc.Announcing? && e.update == Message(c, TransferUpdate, e.update.currentTransfers, 0, 0)
            case RelayingUpdate => Joined(pc) && !SawFailure(pc)
            case ErrorUpdate =>
              && n == length - 1 && (pc.Closing? || pc.Closed?) && !pc.outcome.AllDone?
              && e.update == Message(c, ErrorUpdate, 0, 0, 0)
            case DoneUpdate =>
              && n == length - 1 && (pc.Closing? || pc.Closed?) && pc.outcome.AllDone?
              && e.update == Message(c, DoneUpdate, c.Total(), c.Total(), 0)
  }

  /** The last message tells the outcome. */
  predicate EndFits(pc: CoordinatorPc, e: Entry) {
    pc.Closing? || pc.Closed? ==>
      e.from.Coordinator? &&
      if pc.outcome.AllDone? then e.update.updateType.DoneUpdate? else e.update.updateType.ErrorUpdate?
  }

  ghost predicate LogInv(c: Config, workers: seq<Worker>, pc: CoordinatorPc, log: seq<Entry>) {
    && |log| > 0
    && log[0].from.Starter?
    && (forall n: nat :: n < |log| ==> EntryFits(c, workers, pc, n, |log|, log[n]))
    && EndFits(pc, log[|log| - 1])
  }

  lemma WorkerEntry(c: Config, s: State, i: nat, act: WorkerAct)
    requires ControlInv(c, s) && Possible(s, WorkerStep(i, act))
    requires WorkerMessage(c, s, s.workers[i], act).Some?
    ensures |s.log| >= 1 + s.workers[i].sent
    ensures var w := WorkerNext(s.workers[i], s.queue.calls[i], act);
            EntryFits(c, s.workers[i := w], s.coordinator, |s.log|, |s.log| + 1,
                      Entry(FromWorker(i), WorkerMessage(c, s, s.workers[i], act).value))
  {
    SumAtLeast(s.workers, i, Messages);
  }

  lemma WorkerLogFits(c: Config, s: State, i: nat, act: WorkerAct)
    requires ControlInv(c, s) && Possible(s, WorkerStep(i, act))
    requires LogInv(c, s.workers, s.coordinator, s.log)
    ensures var s' := AfterWorker(c, s, i, act); LogInv(c, s'.workers, s'.coordinator, s'.log)
  {
    WorkerBeforeJoin(s, i, act);
    WorkerLog(c, s, i, act);
    if WorkerMessage(c, s, s.workers[i], act).Some? {
      WorkerEntry(c, s, i, act);
    }
  }

  /** A coordinator that still acts has sent neither an error nor the end. */
  lemma OldEntry(c: Config, workers: seq<Worker>, pc: CoordinatorPc, call: Call, act: CoordinatorAct, n: nat,
                 length: nat, length': nat, e: Entry)
    requires CoordinatorReady(pc, call, act) && EntryFits(c, workers, pc, n, length, e)
    requires length' == length || (length' > length && !pc.Closing?)
    ensures EntryFits(c, workers, CoordinatorNext(workers, pc, call, act), n, length', e)
  {
  }

  lemma CoordinatorEntry(c: Config, s: State, act: CoordinatorAct)
    requires ControlInv(c, s) && Possible(s, CoordinatorStep(act)) && |s.log| > 0
    ensures var pc := CoordinatorNext(s.workers, s.coordinator, s.queue.calls[|s.workers|], act);
            var message := CoordinatorMessage(c, s, act);
            && (message.Some? ==>
                  && EntryFits(c, s.workers, pc, |s.log|, |s.log| + 1, Entry(Coordinator, message.value))
                  && EndFits(pc, Entry(Coordinator, message.value)) && !s.coordinator.Closing?)
            && (message.None? && EndFits(s.coordinator, s.log[|s.log| - 1]) ==> EndFits(pc, s.log[|s.log| - 1]))
  {
    CoordinatorPhase(s, act);
  }

  lemma CoordinatorLogFits(c: Config, s: State, act: CoordinatorAct)
    requires ControlInv(c, s) && Possible(s, CoordinatorStep(act))
    requires LogInv(c, s.workers, s.coordinator, s.log)
    ensures var s' := AfterCoordinator(c, s, act); LogInv(c, s'.workers, s'.coordinator, s'.log)
  {
    var s' := AfterCoordinator(c, s, act);
    CoordinatorLog(c, s, act);
    CoordinatorEntry(c, s, act);
    forall n: nat | n < |s.log|
      ensures EntryFits(c, s.workers, s'.coordinator, n, |s'.log|, s.log[n])
    {
      OldEntry(c, s.workers, s.coordinator, s.queue.calls[|s.workers|], act, n, |s.log|, |s'.log|, s.log[n]);
    }
  }

  lemma QueueStepLogFits(c: Config, s: State, a: Action)
    requires ControlInv(c, s) && Possible(s, QueueStep(a))
    requires LogInv(c, s.workers, s.coordinator, s.log)
    ensures LogInv(c, AfterQueueStep(s, a).workers, s.coordinator, s.log)
  {
  }

  lemma StepLog(c: Config, s: State, step: Step)
    requires ControlInv(c, s) && LogInv(c, s.workers, s.coordinator, s.log) && Possible(s, step)
    ensures var s' := After(c, s, step); LogInv(c, s'.workers, s'.coordinator, s'.log)
  {
    match step
    case WorkerStep(i, act) => WorkerLogFits(c, s, i, act);
    case CoordinatorStep(act) => CoordinatorLogFits(c, s, act);
    case QueueStep(a) => QueueStepLogFits(c, s, a);
    case Receive =>
  }

  // Values in range.

  /** With a non-negative packet count, every number in a message lies between zero and the total. */
  predicate InRange(c: Config, u: Update) {
    && 0 <= u.currentTransfers <= c.Total()
    && 0 <= u.completedRelaying && 0 <= u.inQueueRelays
    && u.completedRelaying + u.inQueueRelays <= c.Total()
  }

  ghost predicate RangeInv(c: Config, log: seq<Entry>) {
    c.packetsPerWallet >= 0 ==> forall e :: e in log ==> InRange(c, e.update)
  }

  lemma CountsInRange(c: Config, s: State)
    requires ControlInv(c, s)
    ensures |s.queue.core.added| <= c.workers * c.Rounds() && s.transferCompleted <= c.workers * c.Rounds()
  {
    forall w | w in s.workers
      ensures Queued(w) <= c.Rounds() && Counted(w) <= c.Rounds()
    {
      var i: nat :| i < |s.workers| && s.workers[i] == w;
      assert WorkerInv(c.Rounds(), s.workers[i]);
    }
    SumAtMost(s.workers, Queued, c.Rounds());
    SumAtMost(s.workers, Counted, c.Rounds());
  }

  lemma WorkerRange(c: Config, s: State, i: nat, act: WorkerAct)
    requires ControlInv(c, s) && ReportsInv(s) && Possible(s, WorkerStep(i, act)) && RangeInv(c, s.log)
    ensures RangeInv(c, AfterWorker(c, s, i, act).log)
  {
    WorkerLog(c, s, i, act);
    CountsInRange(c, s);
    assert WorkerReportFits(s, i);
  }

  lemma CoordinatorRange(c: Config, s: State, act: CoordinatorAct)
    requires ControlInv(c, s) && ReportsInv(s) && Possible(s, CoordinatorStep(act)) && RangeInv(c, s.log)
    ensures RangeInv(c, AfterCoordinator(c, s, act).log)
  {
    CoordinatorLog(c, s, act);
    CountsInRange(c, s);
  }

  lemma StepRange(c: Config, s: State, step: Step)
    requires ControlInv(c, s) && ReportsInv(s) && Possible(s, step) && RangeInv(c, s.log)
    ensures RangeInv(c, After(c, s, step).log)
  {
    match step
    case WorkerStep(i, act) => WorkerRange(c, s, i, act);
    case CoordinatorStep(act) => CoordinatorRange(c, s, act);
    case QueueStep(a) =>
    case Receive =>
  }

  // The consumer.

  /** What the consumer had taken when it stopped: everything the failed worker ever sent, or everything. */
  ghost predicate StopInv(c: Config, s: State) {
    && (c.consumerDrains ==> s.consumer.Reading?)
    && (s.consumer.Stopped? && c.Total() != 0 ==>
          match s.consumer.cause
          case Starter => false
          case FromWorker(f) => f < |s.workers| && s.workers[f].pc.GaveUp? && s.taken >= 2 + s.workers[f].sent
          case Coordinator => (s.coordinator.Closing? || s.coordinator.Closed?) && s.taken == |s.log|)
  }

  lemma WorkerStop(c: Config, s: State, i: nat, act: WorkerAct)
    requires ControlInv(c, s) && StopInv(c, s) && Possible(s, WorkerStep(i, act))
    ensures StopInv(c, AfterWorker(c, s, i, act))
  {
    WorkerBeforeJoin(s, i, act);
  }

  lemma ReceiveStop(c: Config, s: State)
    requires ControlInv(c, s) && LogInv(c, s.workers, s.coordinator, s.log) && StopInv(c, s) && Possible(s, Receive)
    ensures StopInv(c, After(c, s, Receive))
  {
    assert EntryFits(c, s.workers, s.coordinator, s.taken, |s.log|, s.log[s.taken]);
  }

  lemma CoordinatorStop(c: Config, s: State, act: CoordinatorAct)
    requires ControlInv(c, s) && StopInv(c, s) && Possible(s, CoordinatorStep(act))
    ensures StopInv(c, AfterCoordinator(c, s, act))
  {
    CoordinatorPhase(s, act);
  }

  lemma QueueStop(c: Config, s: State, a: Action)
    requires StopInv(c, s) && Possible(s, QueueStep(a))
    ensures StopInv(c, AfterQueueStep(s, a))
  {
  }

  lemma StepStop(c: Config, s: State, step: Step)
    requires ControlInv(c, s) && LogInv(c, s.workers, s.coordinator, s.log) && StopInv(c, s) && Possible(s, step)
    ensures StopInv(c, After(c, s, step))
  {
    match step
    case WorkerStep(i, act) => WorkerStop(c, s, i, act);
    case CoordinatorStep(act) => CoordinatorStop(c, s, act);
    case QueueStep(a) => QueueStop(c, s, a);
    case Receive => ReceiveStop(c, s);
  }

  // Whose packets are on the queue.

  /** The packets that caller i added, in order. */
  function AddedBy(added: seq<Packet>, adders: seq<nat>, i: nat): seq<Packet>
    requires |added| == |adders|
  {
    if added == [] then []
    else
      var n := |added| - 1;
      AddedBy(added[..n], adders[..n], i) + if adders[n] == i then [added[n]] else []
  }

  ghost predicate AddersInv(added: seq<Packet>, adders: seq<nat>, workers: seq<Worker>) {
    && |added| == |adders|
    && (forall k :: 0 <= k < |adders| ==> adders[k] < |workers|)
    && (forall i: nat :: i < |workers| ==> AddedBy(added, adders, i) == workers[i].queued)
  }

  lemma AppendAdder(added: seq<Packet>, adders: seq<nat>, packet: Packet, who: nat, i: nat)
    requires |added| == |adders|
    ensures AddedBy(added + [packet], adders + [who], i) ==
            AddedBy(added, adders, i) + if who == i then [packet] else []
  {
    assert (adders + [who])[..|adders|] == adders;
    assert (added + [packet])[..|added|] == added;
  }

  lemma QueueStepAdders(c: Config, s: State, a: Action)
    requires ControlInv(c, s) && Possible(s, QueueStep(a)) && AddersInv(s.queue.core.added, s.adders, s.workers)
    ensures var s' := AfterQueueStep(s, a); AddersInv(s'.queue.core.added, s'.adders, s'.workers)
  {
    QueueStepAdds(s, a);
    if a.AddBody? {
      forall i: nat {
        AppendAdder(s.queue.core.added, s.adders, s.queue.calls[a.c].packet, a.c, i);
      }
    }
  }

  lemma StepAdders(c: Config, s: State, step: Step)
    requires ControlInv(c, s) && Possible(s, step) && AddersInv(s.queue.core.added, s.adders, s.workers)
    ensures var s' := After(c, s, step); AddersInv(s'.queue.core.added, s'.adders, s'.workers)
  {
    match step
    case WorkerStep(i, act) => AfterWorkerCall(s.queue, i, s.workers[i], act);
    case CoordinatorStep(act) => AfterCoordinatorCall(s.queue, |s.workers|, s.coordinator, act);
    case QueueStep(a) => QueueStepAdders(c, s, a);
    case Receive =>
  }

  // Everything together.

  ghost predicate Invariant(c: Config, s: State) {
    && ControlInv(c, s)
    && NumberingInv(s.log, s.workers, s.updateMutex, s.transferCompleted)
    && ReportsInv(s)
    && LogInv(c, s.workers, s.coordinator, s.log)
    && RangeInv(c, s.log)
    && StopInv(c, s)
    && AddersInv(s.queue.core.added, s.adders, s.workers)
    && FlushStageInv(s)
  }

  lemma StartMessages(c: Config)
    ensures var s := Start(c);
            && NumberingInv(s.log, s.workers, s.updateMutex, s.transferCompleted)
            && LogInv(c, s.workers, s.coordinator, s.log)
            && RangeInv(c, s.log)
  {
    assert Progress(Start(c).log[..0]) == [];
    assert c.packetsPerWallet >= 0 ==> c.workers * c.packetsPerWallet >= 0;
  }

  lemma StartInvariant(c: Config)
    ensures Invariant(c, Start(c))
  {
    StartControl(c);
    StartMessages(c);
    assert Progress(Start(c).log) == [];
  }

  lemma StepInvariant(c: Config, s: State, step: Step)
    requires Invariant(c, s) && Possible(s, step)
    ensures Invariant(c, After(c, s, step))
  {
    StepControl(c, s, step);
    StepNumbering(c, s, step);
    StepReports(c, s, step);
    StepLog(c, s, step);
    StepRange(c, s, step);
    StepStop(c, s, step);
    StepAdders(c, s, step);
    StepFlush(c, s, step);
  }

  lemma {:induction false} PlayInvariant(c: Config, s: State, schedule: seq<Step>)
    requires Invariant(c, s) && Play(c, s, schedule).Some?
    ensures Invariant(c, Play(c, s, schedule).value)
  {
    if schedule != [] {
      var before := schedule[..|schedule| - 1];
      PlayInvariant(c, s, before);
      StepInvariant(c, Play(c, s, before).value, schedule[|schedule| - 1]);
    }
  }

  lemma ReachableInvariant(c: Config, s: State)
    requires Reachable(c, s)
    ensures Invariant(c, s)
  {
    var schedule :| Play(c, Start(c), schedule) == Some(s);
    StartInvariant(c);
    PlayInvariant(c, Start(c), schedule);
  }
}
