/** The inductive invariant of the load script, one predicate for each aspect. */
module LoadScriptInvariants {
  import opened Wrappers
  import opened Sequences
  import opened RelayQueueProtocol
  import opened LoadScript

  // Who is inside which method of the queue.

  predicate AddKind(call: Call) {
    call.AddWant? || call.AddPending? || call.AddHeld? || call.AddLeaving? || call.AddDone?
  }

  predicate NotYetAdded(call: Call) {
    call.AddWant? || call.AddPending? || call.AddHeld?
  }

  predicate StatusKind(call: Call) {
    call.StatusWant? || call.StatusQueue? || call.StatusBoth? || call.StatusLeaving? || call.StatusDone?
  }

  predicate FlushKind(call: Call) {
    !AddKind(call) && !StatusKind(call) && !call.Idle?
  }

  predicate CallMatches(w: Worker, call: Call) {
    if w.pc.InAdd? then
      && AddKind(call) && |w.got| > 0
      && (if NotYetAdded(call)
          then call.packet == w.got[|w.got| - 1] && |w.queued| == |w.got| - 1
          else |w.queued| == |w.got|)
    else if w.pc.InStatus? then StatusKind(call)
    else call.Idle?
  }

  predicate CoordinatorMatches(pc: CoordinatorPc, call: Call) {
    if pc.ReadingStatus? then StatusKind(call)
    else if pc.Flushing? then FlushKind(call)
    else call.Idle?
  }

  ghost predicate CallsInv(workers: seq<Worker>, pc: CoordinatorPc, calls: seq<Call>) {
    && |calls| == |workers| + 1
    && (forall i: nat :: i < |workers| ==> CallMatches(workers[i], calls[i]))
    && CoordinatorMatches(pc, calls[|workers|])
  }

  // The update mutex.

  predicate HoldsUpdate(w: Worker) { w.pc.InStatus? || w.pc.HasStatus? || w.pc.SentUpdate? }

  ghost predicate UpdateMutexInv(workers: seq<Worker>, m: Holder<nat>) {
    && (forall i: nat :: i < |workers| ==> (m == Held(i) <==> HoldsUpdate(workers[i])))
    && (m.Held? ==> m.who < |workers|)
  }

  // What each worker has done.

  predicate WorkerInv(rounds: nat, w: Worker) {
    && w.queued <= w.got
    && match w.pc
       case Sending(failures) =>
         && failures < MaxRetries && |w.got| == |w.queued| == w.sent && w.sent + 1 + w.left == rounds
         && w.calls <= 3 * w.sent + failures
       case ReportingFailure =>
         |w.got| == |w.queued| == w.sent && w.sent + 1 + w.left == rounds && w.calls <= 3 * w.sent + 3
       case GaveUp =>
         |w.got| == |w.queued| == w.sent && w.sent + 1 + w.left == rounds && w.calls <= 3 * w.sent + 3
       case InAdd =>
         && |w.got| == w.sent + 1 && w.sent <= |w.queued| && w.sent + 1 + w.left == rounds
         && w.calls <= 3 * w.sent + 3
       case SentUpdate =>
         |w.got| == |w.queued| == w.sent && w.sent + w.left == rounds && w.calls <= 3 * w.sent
       case Through =>
         |w.got| == |w.queued| == w.sent == rounds && w.calls <= 3 * w.sent
       case _ =>
         |w.got| == |w.queued| == w.sent + 1 && w.sent + 1 + w.left == rounds && w.calls <= 3 * w.sent + 3
  }

  ghost predicate WorkersInv(rounds: nat, workers: seq<Worker>) {
    forall i: nat :: i < |workers| ==> WorkerInv(rounds, workers[i])
  }

  // The coordinator, and the channel's end.

  predicate Joined(pc: CoordinatorPc) { !pc.Announcing? && !pc.Joining? }

  predicate SawFailure(pc: CoordinatorPc) {
    (pc.Reporting? || pc.Closing? || pc.Closed?) && pc.outcome.TransferFailed?
  }

  ghost predicate CoordinatorInv(workers: seq<Worker>, pc: CoordinatorPc, closed: bool, panicked: bool) {
    && (Joined(pc) ==> forall w :: w in workers ==> Ended(w))
    && (Joined(pc) ==> (SawFailure(pc) <==> exists w :: w in workers && w.pc.GaveUp?))
    && (pc.Reporting? ==> !pc.outcome.AllDone?)
    && (closed <==> pc.Closed?)
    && !panicked
  }

  // Counting.

  function Queued(w: Worker): nat { |w.queued| }

  function Sent(w: Worker): nat { w.sent }

  function Counted(w: Worker): nat { w.sent + if w.pc.InStatus? || w.pc.HasStatus? then 1 else 0 }

  function Messages(w: Worker): nat { w.sent + if w.pc.GaveUp? then 1 else 0 }

  function CoordinatorMessages(pc: CoordinatorPc): nat {
    match pc
    case Announcing => 0
    case Joining => 1
    case Reporting(outcome) => if outcome.TransferFailed? then 1 else 3
    case StartingRelay => 1
    case ReadingStatus => 2
    case ReportingStatus(_) => 2
    case Flushing => 3
    case ReportingDone => 3
    case Closing(outcome) => if outcome.TransferFailed? then 2 else 4
    case Closed(outcome) => if outcome.TransferFailed? then 2 else 4
  }

  ghost predicate CountInv(workers: seq<Worker>, pc: CoordinatorPc, added: nat, counted: nat, logged: nat) {
    && added == Sum(workers, Queued)
    && counted == Sum(workers, Counted)
    && logged == 1 + Sum(workers, Messages) + CoordinatorMessages(pc)
  }

  ghost predicate ControlInv(c: Config, s: State) {
    && |s.workers| == c.workers
    && QueueInv(BatchSize, s.queue)
    && CallsInv(s.workers, s.coordinator, s.queue.calls)
    && UpdateMutexInv(s.workers, s.updateMutex)
    && WorkersInv(c.Rounds(), s.workers)
    && CoordinatorInv(s.workers, s.coordinator, s.closed, s.panicked)
    && CountInv(s.workers, s.coordinator, |s.queue.core.added|, s.transferCompleted, |s.log|)
    && s.taken <= |s.log| <= s.taken + Capacity
  }

  // How one worker's step moves the sums.

  lemma MoveWorker(workers: seq<Worker>, i: nat, w: Worker)
    requires i < |workers|
    ensures Sum(workers[i := w], Queued) + Queued(workers[i]) == Sum(workers, Queued) + Queued(w)
    ensures Sum(workers[i := w], Counted) + Counted(workers[i]) == Sum(workers, Counted) + Counted(w)
    ensures Sum(workers[i := w], Messages) + Messages(workers[i]) == Sum(workers, Messages) + Messages(w)
    ensures Sum(workers[i := w], Sent) + Sent(workers[i]) == Sum(workers, Sent) + Sent(w)
  {
    SumUpdate(workers, i, w, Queued);
    SumUpdate(workers, i, w, Counted);
    SumUpdate(workers, i, w, Messages);
    SumUpdate(workers, i, w, Sent);
  }

  lemma StartControl(c: Config)
    ensures ControlInv(c, Start(c))
  {
    var s := Start(c);
    InitInv(BatchSize, c.workers + 1);
    SumZero(s.workers, Queued);
    SumZero(s.workers, Counted);
    SumZero(s.workers, Messages);
  }

  // A worker's own step.

  lemma WorkerKeeps(rounds: nat, w: Worker, call: Call, act: WorkerAct)
    requires WorkerInv(rounds, w) && CallMatches(w, call) && WorkerReady(w, call, act)
    ensures WorkerInv(rounds, WorkerNext(w, call, act))
  {
  }

  /** The queue call that goes with a worker's step. */
  function NextCall(call: Call, act: WorkerAct): Call {
    match act
    case SendOk(packet) => AddWant(packet)
    case CountTransfer => StatusWant
    case AddReturns => Idle
    case StatusReturns => Idle
    case _ => call
  }

  lemma WorkerCallMatches(rounds: nat, w: Worker, call: Call, act: WorkerAct)
    requires WorkerInv(rounds, w) && CallMatches(w, call) && WorkerReady(w, call, act)
    ensures CallMatches(WorkerNext(w, call, act), NextCall(call, act))
  {
  }

  lemma AfterWorkerCall(q: Queue, i: nat, w: Worker, act: WorkerAct)
    requires i < |q.calls| && WorkerReady(w, q.calls[i], act)
    ensures var a := WorkerCall(i, act);
            && (a.Some? ==> Enabled(q, a.value))
            && AfterCall(q, a) == q.(calls := q.calls[i := NextCall(q.calls[i], act)])
  {
  }

  lemma QueueCallKeeps(q: Queue, a: Option<Action>)
    requires QueueInv(BatchSize, q) && (a.Some? ==> Enabled(q, a.value))
    ensures QueueInv(BatchSize, AfterCall(q, a))
  {
    if a.Some? {
      StepInv(BatchSize, q, a.value);
    }
  }

  lemma WorkerMutex(workers: seq<Worker>, m: Holder<nat>, i: nat, call: Call, act: WorkerAct)
    requires UpdateMutexInv(workers, m) && i < |workers| && WorkerReady(workers[i], call, act)
    requires act.CountTransfer? ==> m.Nobody?
    ensures UpdateMutexInv(workers[i := WorkerNext(workers[i], call, act)],
                           if act.CountTransfer? then Held(i) else if act.UnlockUpdate? then Nobody else m)
  {
  }

  /** A worker that acts has not ended, so the coordinator has not joined the workers yet. */
  lemma WorkerBeforeJoin(s: State, i: nat, act: WorkerAct)
    requires CoordinatorInv(s.workers, s.coordinator, s.closed, s.panicked) && Possible(s, WorkerStep(i, act))
    ensures !Joined(s.coordinator) && !s.closed
  {
    assert s.workers[i] in s.workers && !Ended(s.workers[i]);
  }

  lemma WorkerCounts(s: State, i: nat, call: Call, act: WorkerAct)
    requires i < |s.workers| && WorkerReady(s.workers[i], call, act)
    requires CountInv(s.workers, s.coordinator, |s.queue.core.added|, s.transferCompleted, |s.log|)
    ensures CountInv(s.workers[i := WorkerNext(s.workers[i], call, act)], s.coordinator, |s.queue.core.added|,
                     s.transferCompleted + if act.CountTransfer? then 1 else 0,
                     |s.log| + if act.ReportFailure? || act.SendUpdate? then 1 else 0)
  {
    MoveWorker(s.workers, i, WorkerNext(s.workers[i], call, act));
  }

  lemma WorkerCalls(c: Config, s: State, i: nat, act: WorkerAct)
    requires ControlInv(c, s) && Possible(s, WorkerStep(i, act))
    ensures CallsInv(s.workers[i := WorkerNext(s.workers[i], s.queue.calls[i], act)], s.coordinator,
                     s.queue.calls[i := NextCall(s.queue.calls[i], act)])
  {
    WorkerCallMatches(c.Rounds(), s.workers[i], s.queue.calls[i], act);
  }

  /** What a worker's step makes of the state, while the channel is open. */
  ghost predicate WorkerMoves(s: State, i: nat, act: WorkerAct, s': State)
    requires Possible(s, WorkerStep(i, act))
  {
    var call := s.queue.calls[i];
    && s'.workers == s.workers[i := WorkerNext(s.workers[i], call, act)]
    && s'.queue == s.queue.(calls := s.queue.calls[i := NextCall(call, act)])
    && s'.updateMutex == (if act.CountTransfer? then Held(i) else if act.UnlockUpdate? then Nobody else s.updateMutex)
    && s'.transferCompleted == s.transferCompleted + (if act.CountTransfer? then 1 else 0)
    && |s'.log| == |s.log| + (if act.ReportFailure? || act.SendUpdate? then 1 else 0)
    && s'.taken == s.taken && s'.coordinator == s.coordinator
    && s'.closed == s.closed && s'.panicked == s.panicked
  }

  lemma AfterWorkerMoves(c: Config, s: State, i: nat, act: WorkerAct)
    requires Possible(s, WorkerStep(i, act)) && !s.closed
    ensures WorkerMoves(s, i, act, AfterWorker(c, s, i, act))
  {
    AfterWorkerCall(s.queue, i, s.workers[i], act);
  }

  lemma WorkerMovesKeep(c: Config, s: State, i: nat, act: WorkerAct, s': State)
    requires ControlInv(c, s) && Possible(s, WorkerStep(i, act)) && WorkerMoves(s, i, act, s')
    ensures ControlInv(c, s')
  {
    var w, call := s.workers[i], s.queue.calls[i];
    WorkerKeeps(c.Rounds(), w, call, act);
    WorkerCalls(c, s, i, act);
    AfterWorkerCall(s.queue, i, w, act);
    QueueCallKeeps(s.queue, WorkerCall(i, act));
    WorkerMutex(s.workers, s.updateMutex, i, call, act);
    WorkerBeforeJoin(s, i, act);
    WorkerCounts(s, i, call, act);
  }

  lemma WorkerControl(c: Config, s: State, i: nat, act: WorkerAct)
    requires ControlInv(c, s) && Possible(s, WorkerStep(i, act))
    ensures ControlInv(c, AfterWorker(c, s, i, act))
  {
    WorkerBeforeJoin(s, i, act);
    AfterWorkerMoves(c, s, i, act);
    WorkerMovesKeep(c, s, i, act, AfterWorker(c, s, i, act));
  }

  // The coordinator's own step.

  function NextCoordinatorCall(call: Call, act: CoordinatorAct): Call {
    match act
    case StartRelay => StatusWant
    case ReportStatus => FlushWant
    case ReadStatusReturns => Idle
    case FlushReturns => Idle
    case _ => call
  }

  lemma AfterCoordinatorCall(q: Queue, n: nat, pc: CoordinatorPc, act: CoordinatorAct)
    requires n < |q.calls| && CoordinatorReady(pc, q.calls[n], act)
    ensures var a := CoordinatorCall(n, act);
            && (a.Some? ==> Enabled(q, a.value))
            && AfterCall(q, a) == q.(calls := q.calls[n := NextCoordinatorCall(q.calls[n], act)])
  {
  }

  lemma CoordinatorCallMatches(workers: seq<Worker>, pc: CoordinatorPc, call: Call, act: CoordinatorAct)
    requires CoordinatorMatches(pc, call) && CoordinatorReady(pc, call, act)
    ensures CoordinatorMatches(CoordinatorNext(workers, pc, call, act), NextCoordinatorCall(call, act))
  {
  }

  lemma CoordinatorPhase(s: State, act: CoordinatorAct)
    requires CoordinatorInv(s.workers, s.coordinator, s.closed, s.panicked) && Possible(s, CoordinatorStep(act))
    ensures !s.closed
    ensures CoordinatorInv(s.workers,
                           CoordinatorNext(s.workers, s.coordinator, s.queue.calls[|s.workers|], act),
                           act.CloseChannel?, false)
  {
  }

  lemma CoordinatorCounts(s: State, call: Call, act: CoordinatorAct)
    requires CoordinatorReady(s.coordinator, call, act)
    requires s.coordinator.Reporting? ==> !s.coordinator.outcome.AllDone?
    requires CountInv(s.workers, s.coordinator, |s.queue.core.added|, s.transferCompleted, |s.log|)
    ensures CountInv(s.workers, CoordinatorNext(s.workers, s.coordinator, call, act), |s.queue.core.added|,
                     s.transferCompleted, |s.log| + if Sends(CoordinatorStep(act)) then 1 else 0)
  {
  }

  /** What the coordinator's step makes of the state, while the channel is open. */
  ghost predicate CoordinatorMoves(s: State, act: CoordinatorAct, s': State)
    requires Possible(s, CoordinatorStep(act))
  {
    var n := |s.workers|;
    var call := s.queue.calls[n];
    && s'.workers == s.workers
    && s'.queue == s.queue.(calls := s.queue.calls[n := NextCoordinatorCall(call, act)])
    && s'.updateMutex == s.updateMutex && s'.transferCompleted == s.transferCompleted
    && |s'.log| == |s.log| + (if Sends(CoordinatorStep(act)) then 1 else 0)
    && s'.taken == s.taken
    && s'.coordinator == CoordinatorNext(s.workers, s.coordinator, call, act)
    && s'.closed == act.CloseChannel? && s'.panicked == s.panicked
  }

  lemma AfterCoordinatorMoves(c: Config, s: State, act: CoordinatorAct)
    requires Possible(s, CoordinatorStep(act)) && !s.closed
    ensures CoordinatorMoves(s, act, AfterCoordinator(c, s, act))
  {
    AfterCoordinatorCall(s.queue, |s.workers|, s.coordinator, act);
  }

  lemma CoordinatorMovesKeep(c: Config, s: State, act: CoordinatorAct, s': State)
    requires ControlInv(c, s) && Possible(s, CoordinatorStep(act)) && CoordinatorMoves(s, act, s')
    ensures ControlInv(c, s')
  {
    var n := |s.workers|;
    var call := s.queue.calls[n];
    AfterCoordinatorCall(s.queue, n, s.coordinator, act);
    CoordinatorCallMatches(s.workers, s.coordinator, call, act);
    QueueCallKeeps(s.queue, CoordinatorCall(n, act));
    CoordinatorPhase(s, act);
    CoordinatorCounts(s, call, act);
  }

  lemma CoordinatorControl(c: Config, s: State, act: CoordinatorAct)
    requires ControlInv(c, s) && Possible(s, CoordinatorStep(act))
    ensures ControlInv(c, AfterCoordinator(c, s, act))
  {
    CoordinatorPhase(s, act);
    AfterCoordinatorMoves(c, s, act);
    CoordinatorMovesKeep(c, s, act, AfterCoordinator(c, s, act));
  }

  // A step of the queue.

  /** Between a call and its return, a caller stays in the method it called; only the body of Add adds. */
  predicate SameMethod(call: Call, call': Call) {
    && (AddKind(call) ==> AddKind(call') && (NotYetAdded(call') ==> NotYetAdded(call) && call'.packet == call.packet))
    && (StatusKind(call) ==> StatusKind(call'))
    && (FlushKind(call) ==> FlushKind(call'))
    && (call.Idle? ==> call'.Idle?)
  }

  /** The caller on whose behalf a step is taken; a goroutine's step touches no call. */
  predicate ActsFor(a: Action, d: nat) {
    if RelayStep(a) then a.owner == Flusher(d) else a.c == d
  }

  lemma OtherCalls(q: Queue, a: Action, d: nat)
    requires Enabled(q, a) && d < |q.calls| && !ActsFor(a, d)
    ensures var q' := Apply(BatchSize, q, a); |q'.calls| == |q.calls| && q'.calls[d] == q.calls[d]
  {
  }

  lemma OwnCall(q: Queue, a: Action, d: nat)
    requires Enabled(q, a) && Internal(a) && d < |q.calls| && ActsFor(a, d)
    ensures var q' := Apply(BatchSize, q, a);
            && |q'.calls| == |q.calls|
            && SameMethod(q.calls[d], q'.calls[d])
            && (!a.AddBody? ==> NotYetAdded(q'.calls[d]) == NotYetAdded(q.calls[d]))
            && (a.AddBody? ==> q.calls[d].AddHeld? && q'.calls[d].AddLeaving?)
  {
  }

  lemma InternalCall(q: Queue, a: Action, d: nat)
    requires Enabled(q, a) && Internal(a) && d < |q.calls|
    ensures var q' := Apply(BatchSize, q, a);
            && |q'.calls| == |q.calls|
            && SameMethod(q.calls[d], q'.calls[d])
            && (a != AddBody(d) ==> NotYetAdded(q'.calls[d]) == NotYetAdded(q.calls[d]))
            && (a == AddBody(d) ==> q.calls[d].AddHeld? && q'.calls[d].AddLeaving?)
  {
    if ActsFor(a, d) {
      OwnCall(q, a, d);
    } else {
      OtherCalls(q, a, d);
    }
  }

  lemma QueueStepAdds(s: State, a: Action)
    requires CallsInv(s.workers, s.coordinator, s.queue.calls) && Internal(a) && Enabled(s.queue, a)
    ensures AfterQueueStep(s, a).queue.core.added ==
            if a.AddBody? then s.queue.core.added + [s.queue.calls[a.c].packet] else s.queue.core.added
    ensures a.AddBody? ==> a.c < |s.workers| && s.workers[a.c].pc.InAdd?
  {
    if a.AddBody? && a.c < |s.workers| {
      assert CallMatches(s.workers[a.c], s.queue.calls[a.c]);
    }
  }

  lemma QueueStepCalls(s: State, a: Action)
    requires CallsInv(s.workers, s.coordinator, s.queue.calls) && Internal(a) && Enabled(s.queue, a)
    ensures var s' := AfterQueueStep(s, a); CallsInv(s'.workers, s.coordinator, s'.queue.calls)
  {
    QueueStepAdds(s, a);
    var s' := AfterQueueStep(s, a);
    InternalCall(s.queue, a, |s.workers|);
    forall i: nat | i < |s.workers|
      ensures CallMatches(s'.workers[i], s'.queue.calls[i])
    {
      InternalCall(s.queue, a, i);
      assert CallMatches(s.workers[i], s.queue.calls[i]);
    }
  }

  /** The body of a worker's Add puts its latest transfer on the queue. */
  lemma AddBodyWorker(c: Config, s: State, a: Action)
    requires ControlInv(c, s) && a.AddBody? && Enabled(s.queue, a) && a.c < |s.workers|
    ensures var w := s.workers[a.c];
            var w' := w.(queued := w.queued + [s.queue.calls[a.c].packet]);
            WorkerInv(c.Rounds(), w') && w'.queued == w.got && w.pc.InAdd?
  {
    assert CallMatches(s.workers[a.c], s.queue.calls[a.c]) && WorkerInv(c.Rounds(), s.workers[a.c]);
  }

  lemma AddBodyState(c: Config, s: State, i: nat, w: Worker)
    requires ControlInv(c, s) && i < |s.workers| && s.workers[i].pc.InAdd?
    requires WorkerInv(c.Rounds(), w) && w.pc.InAdd? && w == s.workers[i].(queued := w.queued)
    requires |w.queued| == |s.workers[i].queued| + 1
    ensures var workers := s.workers[i := w];
            && UpdateMutexInv(workers, s.updateMutex)
            && WorkersInv(c.Rounds(), workers)
            && CoordinatorInv(workers, s.coordinator, s.closed, s.panicked)
            && CountInv(workers, s.coordinator, |s.queue.core.added| + 1, s.transferCompleted, |s.log|)
  {
    MoveWorker(s.workers, i, w);
    assert s.workers[i] in s.workers && !Ended(s.workers[i]);
  }

  lemma QueueStepWorkers(c: Config, s: State, a: Action)
    requires ControlInv(c, s) && Internal(a) && Enabled(s.queue, a)
    ensures var s' := AfterQueueStep(s, a);
            && UpdateMutexInv(s'.workers, s'.updateMutex)
            && WorkersInv(c.Rounds(), s'.workers)
            && CoordinatorInv(s'.workers, s'.coordinator, s'.closed, s'.panicked)
            && CountInv(s'.workers, s'.coordinator, |s'.queue.core.added|, s'.transferCompleted, |s'.log|)
  {
    QueueStepAdds(s, a);
    if a.AddBody? {
      AddBodyWorker(c, s, a);
      AddBodyState(c, s, a.c, AfterQueueStep(s, a).workers[a.c]);
    }
  }

  lemma QueueStepFrame(s: State, a: Action)
    requires Internal(a) && Enabled(s.queue, a)
    ensures var s' := AfterQueueStep(s, a);
            && s'.queue == Apply(BatchSize, s.queue, a) && |s'.workers| == |s.workers|
            && s'.log == s.log && s'.taken == s.taken
  {
  }

  lemma ControlFromParts(c: Config, s: State)
    requires |s.workers| == c.workers && s.taken <= |s.log| <= s.taken + Capacity
    requires QueueInv(BatchSize, s.queue) && CallsInv(s.workers, s.coordinator, s.queue.calls)
    requires UpdateMutexInv(s.workers, s.updateMutex) && WorkersInv(c.Rounds(), s.workers)
    requires CoordinatorInv(s.workers, s.coordinator, s.closed, s.panicked)
    requires CountInv(s.workers, s.coordinator, |s.queue.core.added|, s.transferCompleted, |s.log|)
    ensures ControlInv(c, s)
  {
  }

  lemma QueueStepControl(c: Config, s: State, a: Action)
    requires ControlInv(c, s) && Possible(s, QueueStep(a))
    ensures ControlInv(c, AfterQueueStep(s, a))
  {
    StepInv(BatchSize, s.queue, a);
    QueueStepFrame(s, a);
    QueueStepCalls(s, a);
    QueueStepWorkers(c, s, a);
    ControlFromParts(c, AfterQueueStep(s, a));
  }

  lemma StepControl(c: Config, s: State, step: Step)
    requires ControlInv(c, s) && Possible(s, step)
    ensures ControlInv(c, After(c, s, step))
  {
    match step
    case WorkerStep(i, act) => WorkerControl(c, s, i, act);
    case CoordinatorStep(act) => CoordinatorControl(c, s, act);
    case QueueStep(a) => QueueStepControl(c, s, a);
    case Receive =>
  }
}
