/**
 TransferAndRelayFromAToB as a step system: one worker per wallet pair, the coordinating goroutine, the relay
 queue with its batch goroutines, the progress channel and its consumer. A step is one lock, channel or join
 operation (with the accesses the held locks protect) or the return of one external call; the outcomes of
 SendTransfer, Relay and IsPacketReceived are arbitrary.
 */
module LoadScript {
  import opened Wrappers
  import opened Sequences
  import opened Ibc
  import opened RelayQueueProtocol

  const BatchSize := 10
  const Capacity := 100
  const MaxRetries := 3

  /** The number of wallet pairs, numPacketsPerWallet, and whether the consumer reads until the channel is
      closed or, as `run` does, returns at the first error. */
  datatype Config = Config(workers: nat, packetsPerWallet: int, consumerDrains: bool) {
    function Total(): int { workers * packetsPerWallet }

    /** `for range numPacketsPerWallet`: a negative count means no round. */
    function Rounds(): nat { if packetsPerWallet < 0 then 0 else packetsPerWallet }
  }

  datatype UpdateType = ErrorUpdate | TransferUpdate | RelayingUpdate | DoneUpdate

  datatype Update = Update(
    updateType: UpdateType,
    currentTransfers: int,
    totalTransfers: int,
    completedRelaying: int,
    inQueueRelays: int)

  datatype Sender = Starter | FromWorker(worker: nat) | Coordinator

  /** A message with its sender; the channel holds the messages of the log that were not taken yet. */
  datatype Entry = Entry(from: Sender, update: Update)

  datatype WorkerPc =
    | Sending(failures: nat)
    | ReportingFailure
    | InAdd
    | WantUpdate
    | InStatus
    | HasStatus(report: Report)
    | SentUpdate
    | Through
    | GaveUp

  /** `left` rounds follow the current one. The rest is history: SendTransfer calls, its results, what was put
      on the queue, and how many updates were sent. */
  datatype Worker = Worker(
    pc: WorkerPc,
    left: nat,
    calls: nat,
    got: seq<Packet>,
    queued: seq<Packet>,
    sent: nat)

  datatype Outcome = TransferFailed | FlushFailed | AllDone

  datatype CoordinatorPc =
    | Announcing
    | Joining
    | Reporting(outcome: Outcome)
    | StartingRelay
    | ReadingStatus
    | ReportingStatus(report: Report)
    | Flushing
    | ReportingDone
    | Closing(outcome: Outcome)
    | Closed(outcome: Outcome)

  datatype Consumer = Reading | Stopped(cause: Sender)

  datatype State = State(
    queue: Queue,
    workers: seq<Worker>,
    updateMutex: Holder<nat>,
    transferCompleted: nat,
    coordinator: CoordinatorPc,
    log: seq<Entry>,
    taken: nat,
    consumer: Consumer,
    closed: bool,
    panicked: bool,
    adders: seq<nat>)

  datatype WorkerAct =
    | SendOk(packet: Packet)
    | SendFail
    | ReportFailure
    | AddReturns
    | CountTransfer
    | StatusReturns
    | SendUpdate
    | UnlockUpdate

  datatype CoordinatorAct =
    | Announce
    | JoinWorkers
    | ReportError
    | StartRelay
    | ReadStatusReturns
    | ReportStatus
    | FlushReturns
    | ReportDone
    | CloseChannel

  datatype Step =
    | WorkerStep(i: nat, act: WorkerAct)
    | CoordinatorStep(todo: CoordinatorAct)
    | QueueStep(a: Action)
    | Receive

  function Message(c: Config, t: UpdateType, current: int, completed: int, inQueue: int): Update {
    Update(t, current, c.Total(), completed, inQueue)
  }

  function FirstWorker(c: Config): Worker {
    if c.Rounds() == 0 then Worker(Through, 0, 0, [], [], 0) else Worker(Sending(0), c.Rounds() - 1, 0, [], [], 0)
  }

  /** The state in which the goroutines start: the first message is already in the buffer. */
  function Start(c: Config): State {
    State(
      Init(c.workers + 1),
      seq(c.workers, _ => FirstWorker(c)),
      Nobody,
      0,
      Announcing,
      [Entry(Starter, Message(c, TransferUpdate, 0, 0, 0))],
      0,
      Reading,
      false,
      false,
      [])
  }

  predicate Ended(w: Worker) { w.pc.Through? || w.pc.GaveUp? }

  /** Can a send go ahead now? A send on a closed channel does not wait (it panics). */
  predicate CanSend(s: State) { s.closed || |s.log| - s.taken < Capacity }

  /** Is the worker, whose call of the queue is `call`, at the point where it does this? */
  predicate WorkerReady(w: Worker, call: Call, act: WorkerAct) {
    match act
    case SendOk(_) => w.pc.Sending? && call.Idle?
    case SendFail => w.pc.Sending?
    case ReportFailure => w.pc.ReportingFailure?
    case AddReturns => w.pc.InAdd? && call.AddDone?
    case CountTransfer => w.pc.WantUpdate? && call.Idle?
    case StatusReturns => w.pc.InStatus? && call.StatusDone?
    case SendUpdate => w.pc.HasStatus?
    case UnlockUpdate => w.pc.SentUpdate?
  }

  predicate CoordinatorReady(pc: CoordinatorPc, call: Call, act: CoordinatorAct) {
    match act
    case Announce => pc.Announcing?
    case JoinWorkers => pc.Joining?
    case ReportError => pc.Reporting?
    case StartRelay => pc.StartingRelay? && call.Idle?
    case ReadStatusReturns => pc.ReadingStatus? && call.StatusDone?
    case ReportStatus => pc.ReportingStatus? && call.Idle?
    case FlushReturns => pc.Flushing? && call.FlushDone?
    case ReportDone => pc.ReportingDone?
    case CloseChannel => pc.Closing?
  }

  predicate Sends(step: Step) {
    || (step.WorkerStep? && (step.act.ReportFailure? || step.act.SendUpdate?))
    || (step.CoordinatorStep? &&
        (step.todo.Announce? || step.todo.ReportError? || step.todo.StartRelay? || step.todo.ReportStatus?
         || step.todo.ReportDone?))
  }

  predicate Possible(s: State, step: Step) {
    && (Sends(step) ==> CanSend(s))
    && match step
       case WorkerStep(i, act) =>
         && i < |s.workers| && i < |s.queue.calls| && WorkerReady(s.workers[i], s.queue.calls[i], act)
         && (act.CountTransfer? ==> s.updateMutex.Nobody?)
       case CoordinatorStep(act) =>
         && |s.workers| < |s.queue.calls|
         && CoordinatorReady(s.coordinator, s.queue.calls[|s.workers|], act)
         && (act.JoinWorkers? ==> forall w :: w in s.workers ==> Ended(w))
       case QueueStep(a) => Internal(a) && Enabled(s.queue, a)
       case Receive => s.consumer.Reading? && s.taken < |s.log|
  }

  /** withRetry gives up after MaxRetries failures. */
  function AfterFailure(w: Worker): Worker
    requires w.pc.Sending?
  {
    w.(pc := if w.pc.failures + 1 < MaxRetries then Sending(w.pc.failures + 1) else ReportingFailure,
       calls := w.calls + 1)
  }

  function NextRound(w: Worker): Worker {
    if w.left > 0 then w.(pc := Sending(0), left := w.left - 1) else w.(pc := Through)
  }

  function WorkerNext(w: Worker, call: Call, act: WorkerAct): Worker
    requires WorkerReady(w, call, act)
  {
    match act
    case SendOk(packet) => w.(pc := InAdd, calls := w.calls + 1, got := w.got + [packet])
    case SendFail => AfterFailure(w)
    case ReportFailure => w.(pc := GaveUp)
    case AddReturns => w.(pc := WantUpdate)
    case CountTransfer => w.(pc := InStatus)
    case StatusReturns => w.(pc := HasStatus(call.report))
    case SendUpdate => w.(pc := SentUpdate, sent := w.sent + 1)
    case UnlockUpdate => NextRound(w)
  }

  function CoordinatorNext(workers: seq<Worker>, pc: CoordinatorPc, call: Call, act: CoordinatorAct): CoordinatorPc
    requires CoordinatorReady(pc, call, act)
  {
    match act
    case Announce => Joining
    case JoinWorkers =>
      if exists w :: w in workers && w.pc.GaveUp? then Reporting(TransferFailed) else StartingRelay
    case ReportError => Closing(pc.outcome)
    case StartRelay => ReadingStatus
    case ReadStatusReturns => ReportingStatus(call.report)
    case ReportStatus => Flushing
    case FlushReturns => if call.ok then ReportingDone else Reporting(FlushFailed)
    case ReportDone => Closing(AllDone)
    case CloseChannel => Closed(pc.outcome)
  }

  /** The call a step makes into the queue, or the return it takes from it. */
  function WorkerCall(i: nat, act: WorkerAct): Option<Action> {
    match act
    case SendOk(packet) => Some(InvokeAdd(i, packet))
    case CountTransfer => Some(InvokeStatus(i))
    case AddReturns => Some(Return(i))
    case StatusReturns => Some(Return(i))
    case _ => None
  }

  function CoordinatorCall(n: nat, act: CoordinatorAct): Option<Action> {
    match act
    case StartRelay => Some(InvokeStatus(n))
    case ReportStatus => Some(InvokeFlush(n))
    case ReadStatusReturns => Some(Return(n))
    case FlushReturns => Some(Return(n))
    case _ => None
  }

  function AfterCall(q: Queue, a: Option<Action>): Queue
    requires a.Some? ==> Enabled(q, a.value)
  {
    match a
    case None => q
    case Some(a) => Apply(BatchSize, q, a)
  }

  function WorkerMessage(c: Config, s: State, w: Worker, act: WorkerAct): Option<Update> {
    if act.ReportFailure? then Some(Message(c, ErrorUpdate, 0, 0, 0))
    else if act.SendUpdate? && w.pc.HasStatus? then
      Some(Message(c, TransferUpdate, s.transferCompleted, w.pc.report.completed, w.pc.report.inQueue))
    else None
  }

  function CoordinatorMessage(c: Config, s: State, act: CoordinatorAct): Option<Update> {
    match act
    case Announce => Some(Message(c, TransferUpdate, s.transferCompleted, 0, 0))
    case ReportError => Some(Message(c, ErrorUpdate, 0, 0, 0))
    case StartRelay => Some(Message(c, RelayingUpdate, c.Total(), 0, 0))
    case ReportStatus =>
      if s.coordinator.ReportingStatus?
      then Some(Message(c, RelayingUpdate, c.Total(), s.coordinator.report.completed, s.coordinator.report.inQueue))
      else None
    case ReportDone => Some(Message(c, DoneUpdate, c.Total(), c.Total(), 0))
    case _ => None
  }

  /** A send on a closed channel panics; otherwise the message goes to the end of the log. */
  function Send(s: State, from: Sender, update: Option<Update>): State {
    match update
    case None => s
    case Some(update) =>
      if s.closed then s.(panicked := true) else s.(log := s.log + [Entry(from, update)])
  }

  function AfterWorker(c: Config, s: State, i: nat, act: WorkerAct): State
    requires Possible(s, WorkerStep(i, act))
  {
    var w := s.workers[i];
    var next := Send(s, FromWorker(i), WorkerMessage(c, s, w, act));
    next.(
      workers := s.workers[i := WorkerNext(w, s.queue.calls[i], act)],
      queue := AfterCall(s.queue, WorkerCall(i, act)),
      updateMutex := if act.CountTransfer? then Held(i) else if act.UnlockUpdate? then Nobody else s.updateMutex,
      transferCompleted := if act.CountTransfer? then s.transferCompleted + 1 else s.transferCompleted)
  }

  /** Closing a closed channel panics. */
  function AfterCoordinator(c: Config, s: State, act: CoordinatorAct): State
    requires Possible(s, CoordinatorStep(act))
  {
    var n := |s.workers|;
    var next := Send(s, Coordinator, CoordinatorMessage(c, s, act));
    next.(
      coordinator := CoordinatorNext(s.workers, s.coordinator, s.queue.calls[n], act),
      queue := AfterCall(s.queue, CoordinatorCall(n, act)),
      closed := s.closed || act.CloseChannel?,
      panicked := next.panicked || (s.closed && act.CloseChannel?))
  }

  /** A step of the queue; when it is the body of a worker's Add, the history notes what was put in. */
  function AfterQueueStep(s: State, a: Action): State
    requires Internal(a) && Enabled(s.queue, a)
  {
    var next := s.(queue := Apply(BatchSize, s.queue, a));
    if a.AddBody? && a.c < |s.workers| then
      var w := s.workers[a.c];
      next.(workers := s.workers[a.c := w.(queued := w.queued + [s.queue.calls[a.c].packet])],
            adders := s.adders + [a.c])
    else
      next
  }

  /** `run` returns at the first error or at the end. */
  predicate Terminal(u: Update) { u.updateType.ErrorUpdate? || u.updateType.DoneUpdate? }

  /** `run` divides by the total when it shows a transfer update. */
  predicate DividesByZero(u: Update) { u.updateType.TransferUpdate? && u.totalTransfers == 0 }

  function AfterReceive(c: Config, e: Entry): Consumer {
    if !c.consumerDrains && (Terminal(e.update) || DividesByZero(e.update)) then Stopped(e.from) else Reading
  }

  function After(c: Config, s: State, step: Step): State
    requires Possible(s, step)
  {
    match step
    case WorkerStep(i, act) => AfterWorker(c, s, i, act)
    case CoordinatorStep(act) => AfterCoordinator(c, s, act)
    case QueueStep(a) => AfterQueueStep(s, a)
    case Receive => s.(taken := s.taken + 1, consumer := AfterReceive(c, s.log[s.taken]))
  }

  function Next(c: Config): (State, Step) -> Option<State> {
    (s: State, step: Step) => if Possible(s, step) then Some(After(c, s, step)) else None
  }

  /** The state after a schedule, if every step of the schedule was possible when it was taken. */
  function Play(c: Config, s: State, schedule: seq<Step>): Option<State> {
    Fold(Next(c), s, schedule)
  }

  ghost predicate Reachable(c: Config, s: State) {
    exists schedule :: Play(c, Start(c), schedule) == Some(s)
  }
}
