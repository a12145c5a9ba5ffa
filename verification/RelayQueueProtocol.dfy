/**
 The relay queue as a concurrent protocol: any number of callers run Add, Status and Flush while the errgroup's
 goroutines relay the dispatched batches. A step is one lock operation together with the accesses that the
 locks then held protect, or the return of one external call (whose outcome is arbitrary).
 A writer announces itself before it waits for readers, as sync.RWMutex does.
 */
module RelayQueueProtocol {
  import opened Sequences
  import opened Ibc
  import opened RelayQueueCore

  /** sync.RWMutex: an announced writer keeps new readers out; it is granted once the readers have left. */
  datatype RwMutex<Owner> = RwMutex(writer: Holder<Owner>, granted: bool, readers: set<nat>)

  datatype Holder<Owner> = Nobody | Held(who: Owner)

  /** relayMutex is taken by a batch's goroutine or by a Flush that relays by itself. */
  datatype RelayOwner = Goroutine(batch: nat) | Flusher(caller: nat)

  /** The three values Status returns. */
  datatype Report = Report(inQueue: nat, relaying: int, completed: int)

  /** Where a caller is inside the queue's methods. */
  datatype Call =
    | Idle
    | AddWant(packet: Packet)
    | AddPending(packet: Packet)
    | AddHeld(packet: Packet)
    | AddLeaving
    | AddDone
    | StatusWant
    | StatusQueue
    | StatusBoth
    | StatusLeaving(report: Report)
    | StatusDone(report: Report)
    | FlushWant
    | FlushPending
    | FlushHeld
    | FlushRelayWant(copy: seq<Packet>)
    | FlushRelayPending(copy: seq<Packet>)
    | FlushRelaying(copy: seq<Packet>)
    | FlushRelayReturned(copy: seq<Packet>, ok: bool)
    | FlushWaiting
    | FlushLeaving(ok: bool)
    | FlushDone(ok: bool)

  datatype Queue = Queue(
    core: Core,
    calls: seq<Call>,
    queueMutex: RwMutex<nat>,
    relayMutex: RwMutex<RelayOwner>)

  datatype Action =
    | InvokeAdd(c: nat, packet: Packet)
    | InvokeStatus(c: nat)
    | InvokeFlush(c: nat)
    | Return(c: nat)
    | LockQueue(c: nat)
    | EnterQueue(c: nat)
    | AddBody(c: nat)
    | FlushBody(c: nat)
    | UnlockQueue(c: nat)
    | RLockQueue(c: nat)
    | RLockRelay(c: nat)
    | ReadStatus(c: nat)
    | RUnlockQueue(c: nat)
    | LockRelay(owner: RelayOwner)
    | EnterRelay(owner: RelayOwner)
    | RelayResult(owner: RelayOwner, ok: bool)
    | UnlockRelay(owner: RelayOwner)
    | JoinGroup(c: nat)

  function Free<Owner>(): RwMutex<Owner> {
    RwMutex(Nobody, false, {})
  }

  /** NewRelayerQueue, for a fixed number of callers. */
  function Init(callers: nat): Queue {
    Queue(EmptyCore, seq(callers, _ => Idle), Free(), Free())
  }

  // What a caller holds.

  predicate WritesQueue(call: Call) {
    || call.AddPending? || call.AddHeld? || call.AddLeaving?
    || call.FlushPending? || call.FlushHeld? || call.FlushRelayWant? || call.FlushRelayPending?
    || call.FlushRelaying? || call.FlushRelayReturned? || call.FlushWaiting? || call.FlushLeaving?
  }

  predicate ReadsQueue(call: Call) {
    call.StatusQueue? || call.StatusBoth? || call.StatusLeaving?
  }

  predicate AwaitsReaders(call: Call) {
    call.AddPending? || call.FlushPending?
  }

  predicate WritesRelay(call: Call) {
    call.FlushRelayPending? || call.FlushRelaying? || call.FlushRelayReturned?
  }

  predicate Relays(e: Exit) {
    e.dispatched && (e.stage.Pending? || e.stage.Running? || e.stage.Returned?)
  }

  predicate Completed(call: Call) {
    call.AddDone? || call.StatusDone? || call.FlushDone?
  }

  predicate HasCopy(call: Call) {
    call.FlushRelayWant? || call.FlushRelayPending? || call.FlushRelaying? || call.FlushRelayReturned?
  }

  /** The steps the queue takes by itself, between a call and its return. */
  predicate Internal(a: Action) {
    !a.InvokeAdd? && !a.InvokeStatus? && !a.InvokeFlush? && !a.Return?
  }

  /** The steps of relay; all others are taken by a caller on its own behalf. */
  predicate RelayStep(a: Action) {
    a.LockRelay? || a.EnterRelay? || a.RelayResult? || a.UnlockRelay?
  }

  /** Is owner at this point of relay (a goroutine's stage, or a flusher's call)? */
  predicate OwnerAt(q: Queue, owner: RelayOwner, stage: Stage) {
    match owner
    case Goroutine(j) => j < |q.core.exits| && q.core.exits[j].dispatched && q.core.exits[j].stage == stage
    case Flusher(c) =>
      && c < |q.calls|
      && match stage
         case Spawned => q.calls[c].FlushRelayWant?
         case Pending => q.calls[c].FlushRelayPending?
         case Running => q.calls[c].FlushRelaying?
         case Returned(ok) => q.calls[c].FlushRelayReturned? && q.calls[c].ok == ok
         case Finished(ok) => false
  }

  /** The packets that owner relays. */
  function Cargo(q: Queue, owner: RelayOwner): seq<Packet>
    requires exists stage :: OwnerAt(q, owner, stage) && !stage.Finished?
  {
    match owner
    case Goroutine(j) => q.core.exits[j].packets
    case Flusher(c) => q.calls[c].copy
  }

  predicate Enabled(q: Queue, a: Action) {
    match a
    case InvokeAdd(c, _) => c < |q.calls| && q.calls[c].Idle?
    case InvokeStatus(c) => c < |q.calls| && q.calls[c].Idle?
    case InvokeFlush(c) => c < |q.calls| && q.calls[c].Idle?
    case Return(c) => c < |q.calls| && Completed(q.calls[c])
    case LockQueue(c) =>
      c < |q.calls| && (q.calls[c].AddWant? || q.calls[c].FlushWant?) && q.queueMutex.writer.Nobody?
    case EnterQueue(c) =>
      c < |q.calls| && (q.calls[c].AddPending? || q.calls[c].FlushPending?) && q.queueMutex.readers == {}
    case AddBody(c) => c < |q.calls| && q.calls[c].AddHeld?
    case FlushBody(c) => c < |q.calls| && q.calls[c].FlushHeld?
    case UnlockQueue(c) => c < |q.calls| && (q.calls[c].AddLeaving? || q.calls[c].FlushLeaving?)
    case RLockQueue(c) => c < |q.calls| && q.calls[c].StatusWant? && q.queueMutex.writer.Nobody?
    case RLockRelay(c) => c < |q.calls| && q.calls[c].StatusQueue? && q.relayMutex.writer.Nobody?
    case ReadStatus(c) => c < |q.calls| && q.calls[c].StatusBoth?
    case RUnlockQueue(c) => c < |q.calls| && q.calls[c].StatusLeaving?
    case LockRelay(owner) => OwnerAt(q, owner, Spawned) && q.relayMutex.writer.Nobody?
    case EnterRelay(owner) => OwnerAt(q, owner, Pending) && q.relayMutex.readers == {}
    case RelayResult(owner, _) => OwnerAt(q, owner, Running)
    case UnlockRelay(owner) => OwnerAt(q, owner, Returned(true)) || OwnerAt(q, owner, Returned(false))
    case JoinGroup(c) => c < |q.calls| && q.calls[c].FlushWaiting? && AllReturned(q.core.exits)
  }

  function At(q: Queue, c: nat, call: Call): Queue
    requires c < |q.calls|
  {
    q.(calls := q.calls[c := call])
  }

  /** Moves owner to the next point of relay. */
  function Advance(q: Queue, owner: RelayOwner, stage: Stage): Queue
    requires exists from :: OwnerAt(q, owner, from) && !from.Finished?
    requires !stage.Spawned?
  {
    match owner
    case Goroutine(j) => q.(core := SetStage(q.core, j, stage))
    case Flusher(c) =>
      var copy := q.calls[c].copy;
      match stage
      case Pending => At(q, c, FlushRelayPending(copy))
      case Running => At(q, c, FlushRelaying(copy))
      case Returned(ok) => At(q, c, FlushRelayReturned(copy, ok))
      case Finished(ok) => At(q, c, FlushLeaving(ok)).(core := FinishFlush(q.core, copy, ok))
  }

  function Apply(queueSize: int, q: Queue, a: Action): Queue
    requires Enabled(q, a)
  {
    match a
    case InvokeAdd(c, packet) => At(q, c, AddWant(packet))
    case InvokeStatus(c) => At(q, c, StatusWant)
    case InvokeFlush(c) => At(q, c, FlushWant)
    case Return(c) => At(q, c, Idle)
    case LockQueue(c) =>
      At(q, c, if q.calls[c].AddWant? then AddPending(q.calls[c].packet) else FlushPending)
      .(queueMutex := q.queueMutex.(writer := Held(c)))
    case EnterQueue(c) =>
      At(q, c, if q.calls[c].AddPending? then AddHeld(q.calls[c].packet) else FlushHeld)
      .(queueMutex := q.queueMutex.(granted := true))
    case AddBody(c) => At(q, c, AddLeaving).(core := Enqueue(q.core, queueSize, q.calls[c].packet))
    case FlushBody(c) => At(q, c, if |q.core.queue| > 0 then FlushRelayWant(q.core.queue) else FlushWaiting)
    case UnlockQueue(c) =>
      At(q, c, if q.calls[c].AddLeaving? then AddDone else FlushDone(q.calls[c].ok))
      .(queueMutex := q.queueMutex.(writer := Nobody, granted := false))
    case RLockQueue(c) =>
      At(q, c, StatusQueue).(queueMutex := q.queueMutex.(readers := q.queueMutex.readers + {c}))
    case RLockRelay(c) =>
      At(q, c, StatusBoth).(relayMutex := q.relayMutex.(readers := q.relayMutex.readers + {c}))
    case ReadStatus(c) =>
      At(q, c, StatusLeaving(Report(|q.core.queue|, q.core.currentlyRelaying, q.core.relaysCompleted)))
      .(relayMutex := q.relayMutex.(readers := q.relayMutex.readers - {c}))
    case RUnlockQueue(c) =>
      At(q, c, StatusDone(q.calls[c].report))
      .(queueMutex := q.queueMutex.(readers := q.queueMutex.readers - {c}))
    case LockRelay(owner) => Advance(q, owner, Pending).(relayMutex := q.relayMutex.(writer := Held(owner)))
    case EnterRelay(owner) =>
      var next := Advance(q, owner, Running);
      next.(core := BeginRelay(next.core, Cargo(q, owner)), relayMutex := q.relayMutex.(granted := true))
    case RelayResult(owner, ok) =>
      var next := Advance(q, owner, Returned(ok));
      var core := EndRelay(next.core, Cargo(q, owner), ok);
      next.(core := if owner.Flusher? && !ok
                    then core.(failedFlushes := core.failedFlushes + |Cargo(q, owner)|)
                    else core)
    case UnlockRelay(owner) =>
      Advance(q, owner, Finished(OwnerAt(q, owner, Returned(true))))
      .(relayMutex := q.relayMutex.(writer := Nobody, granted := false))
    case JoinGroup(c) => At(q, c, FlushLeaving(AllSucceeded(q.core.exits)))
  }

  // Summands over calls: a flush's own relay is in the counters before (and after) it is in the exits.

  function FlushingSize(call: Call): nat { if call.FlushRelaying? then |call.copy| else 0 }

  function FlushedSize(call: Call): nat { if call.FlushRelayReturned? && call.ok then |call.copy| else 0 }

  /** queueMutex says exactly which caller writes, whether it is still waiting for readers, and who reads. */
  ghost predicate QueueMutexInv(calls: seq<Call>, m: RwMutex<nat>) {
    && (forall c: nat :: c < |calls| ==> (m.writer == Held(c) <==> WritesQueue(calls[c])))
    && (m.writer.Held? ==> m.writer.who < |calls|)
    && (m.granted <==> m.writer.Held? && !AwaitsReaders(calls[m.writer.who]))
    && (m.granted ==> m.readers == {})
    && (forall c: nat :: c in m.readers <==> c < |calls| && ReadsQueue(calls[c]))
  }

  predicate RelayPending(calls: seq<Call>, exits: seq<Exit>, owner: RelayOwner) {
    match owner
    case Goroutine(j) => j < |exits| && exits[j].stage.Pending?
    case Flusher(c) => c < |calls| && calls[c].FlushRelayPending?
  }

  /** relayMutex says exactly which goroutine or flush relays, whether it still waits for readers, and who reads. */
  ghost predicate RelayMutexInv(calls: seq<Call>, exits: seq<Exit>, m: RwMutex<RelayOwner>) {
    && (forall c: nat :: c < |calls| ==> (m.writer == Held(Flusher(c)) <==> WritesRelay(calls[c])))
    && (forall j: nat :: j < |exits| ==> (m.writer == Held(Goroutine(j)) <==> Relays(exits[j])))
    && (m.writer.Held? ==>
          match m.writer.who
          case Goroutine(j) => j < |exits|
          case Flusher(c) => c < |calls|)
    && (m.granted <==> m.writer.Held? && !RelayPending(calls, exits, m.writer.who))
    && (m.granted ==> m.readers == {})
    && (forall c: nat :: c in m.readers <==> c < |calls| && calls[c].StatusBoth?)
  }

  /** A flush's copy is the queue; a flush that waits for the errgroup has found the queue empty. */
  ghost predicate FlushInv(calls: seq<Call>, queue: seq<Packet>) {
    forall c: nat :: c < |calls| ==> FlushMatches(calls[c], queue)
  }

  predicate FlushMatches(call: Call, queue: seq<Packet>) {
    && (HasCopy(call) ==> call.copy == queue && |queue| > 0)
    && (call.FlushWaiting? || call == FlushLeaving(true) ==> queue == [])
  }

  /** Exact counter accounting in every state, mid-relay states included. */
  ghost predicate AccountingInv(core: Core, calls: seq<Call>) {
    Balanced(core, Sum(calls, FlushedSize), Sum(calls, FlushingSize))
  }

  ghost predicate QueueInv(queueSize: int, q: Queue) {
    && QueueMutexInv(q.calls, q.queueMutex)
    && RelayMutexInv(q.calls, q.core.exits, q.relayMutex)
    && PacketsInv(queueSize, q.core)
    && FlushInv(q.calls, q.core.queue)
    && AccountingInv(q.core, q.calls)
  }

  lemma InitInv(queueSize: int, callers: nat)
    ensures QueueInv(queueSize, Init(callers))
  {
    SumZero(Init(callers).calls, FlushedSize);
    SumZero(Init(callers).calls, FlushingSize);
    assert PacketsOf(EmptyCore.exits) == [];
  }

  // queueMutex, one lemma per kind of step.

  lemma KeepQueueRole(calls: seq<Call>, m: RwMutex<nat>, c: nat, call: Call)
    requires QueueMutexInv(calls, m) && c < |calls|
    requires WritesQueue(call) == WritesQueue(calls[c]) && AwaitsReaders(call) == AwaitsReaders(calls[c])
    requires ReadsQueue(call) == ReadsQueue(calls[c])
    ensures QueueMutexInv(calls[c := call], m)
  {
  }

  lemma QueueMutexSteps(queueSize: int, q: Queue, a: Action)
    requires QueueMutexInv(q.calls, q.queueMutex) && Enabled(q, a)
    requires a.LockQueue? || a.EnterQueue? || a.UnlockQueue? || a.RLockQueue? || a.RUnlockQueue?
    ensures var q' := Apply(queueSize, q, a); QueueMutexInv(q'.calls, q'.queueMutex)
  {
  }

  lemma QueueMutexPreserved(queueSize: int, q: Queue, a: Action)
    requires QueueMutexInv(q.calls, q.queueMutex) && Enabled(q, a)
    ensures var q' := Apply(queueSize, q, a); QueueMutexInv(q'.calls, q'.queueMutex)
  {
    if a.LockQueue? || a.EnterQueue? || a.UnlockQueue? || a.RLockQueue? || a.RUnlockQueue? {
      QueueMutexSteps(queueSize, q, a);
    } else if RelayStep(a) {
      if a.owner.Flusher? {
        var c := a.owner.caller;
        KeepQueueRole(q.calls, q.queueMutex, c, Apply(queueSize, q, a).calls[c]);
      }
    } else {
      KeepQueueRole(q.calls, q.queueMutex, a.c, Apply(queueSize, q, a).calls[a.c]);
    }
  }

  // relayMutex.

  lemma KeepRelayRole(calls: seq<Call>, exits: seq<Exit>, m: RwMutex<RelayOwner>, c: nat, call: Call)
    requires RelayMutexInv(calls, exits, m) && c < |calls|
    requires WritesRelay(call) == WritesRelay(calls[c]) && call.FlushRelayPending? == calls[c].FlushRelayPending?
    requires call.StatusBoth? == calls[c].StatusBoth?
    ensures RelayMutexInv(calls[c := call], exits, m)
  {
  }

  lemma NewExitRole(calls: seq<Call>, exits: seq<Exit>, m: RwMutex<RelayOwner>, e: Exit)
    requires RelayMutexInv(calls, exits, m) && !Relays(e)
    ensures RelayMutexInv(calls, exits + [e], m)
  {
    if m.writer.Held? && m.writer.who.Goroutine? {
      assert (exits + [e])[m.writer.who.batch] == exits[m.writer.who.batch];
    }
  }

  lemma RelayMutexReaders(queueSize: int, q: Queue, a: Action)
    requires RelayMutexInv(q.calls, q.core.exits, q.relayMutex) && Enabled(q, a)
    requires a.RLockRelay? || a.ReadStatus?
    ensures var q' := Apply(queueSize, q, a); RelayMutexInv(q'.calls, q'.core.exits, q'.relayMutex)
  {
  }

  lemma RelayMutexGoroutine(queueSize: int, q: Queue, a: Action)
    requires RelayMutexInv(q.calls, q.core.exits, q.relayMutex) && Enabled(q, a)
    requires RelayStep(a) && a.owner.Goroutine?
    ensures var q' := Apply(queueSize, q, a); RelayMutexInv(q'.calls, q'.core.exits, q'.relayMutex)
  {
  }

  lemma RelayMutexFlusher(queueSize: int, q: Queue, a: Action)
    requires RelayMutexInv(q.calls, q.core.exits, q.relayMutex) && Enabled(q, a)
    requires (a.LockRelay? || a.EnterRelay? || a.RelayResult?) && a.owner.Flusher?
    ensures var q' := Apply(queueSize, q, a); RelayMutexInv(q'.calls, q'.core.exits, q'.relayMutex)
  {
  }

  lemma RelayMutexFlushed(queueSize: int, q: Queue, a: Action)
    requires RelayMutexInv(q.calls, q.core.exits, q.relayMutex) && Enabled(q, a)
    requires a.UnlockRelay? && a.owner.Flusher?
    ensures var q' := Apply(queueSize, q, a); RelayMutexInv(q'.calls, q'.core.exits, q'.relayMutex)
  {
    var c := a.owner.caller;
    var calls := q.calls[c := FlushLeaving(q.calls[c].ok)];
    assert RelayMutexInv(calls, q.core.exits, Free());
    if q.calls[c].ok {
      NewExitRole(calls, q.core.exits, Free(), Exit(q.calls[c].copy, false, Finished(true)));
    }
  }

  lemma RelayMutexPreserved(queueSize: int, q: Queue, a: Action)
    requires RelayMutexInv(q.calls, q.core.exits, q.relayMutex) && Enabled(q, a)
    ensures var q' := Apply(queueSize, q, a); RelayMutexInv(q'.calls, q'.core.exits, q'.relayMutex)
  {
    if a.RLockRelay? || a.ReadStatus? {
      RelayMutexReaders(queueSize, q, a);
    } else if RelayStep(a) {
      if a.owner.Goroutine? {
        RelayMutexGoroutine(queueSize, q, a);
      } else if a.UnlockRelay? {
        RelayMutexFlushed(queueSize, q, a);
      } else {
        RelayMutexFlusher(queueSize, q, a);
      }
    } else {
      var q' := Apply(queueSize, q, a);
      KeepRelayRole(q.calls, q.core.exits, q.relayMutex, a.c, q'.calls[a.c]);
      if a.AddBody? && q'.core.exits != q.core.exits {
        NewExitRole(q'.calls, q.core.exits, q.relayMutex, q'.core.exits[|q.core.exits|]);
      }
    }
  }

  // Packets.

  /** Packets do not depend on the counters. */
  lemma PacketsFrame(queueSize: int, core: Core, core': Core)
    requires PacketsInv(queueSize, core)
    requires core'.exits == core.exits && core'.queue == core.queue && core'.added == core.added
    ensures PacketsInv(queueSize, core')
  {
  }

  lemma GoroutineFrame(queueSize: int, q: Queue, a: Action)
    requires Enabled(q, a) && RelayStep(a) && a.owner.Goroutine?
    ensures var j, core' := a.owner.batch, Apply(queueSize, q, a).core;
            && j < |q.core.exits| && q.core.exits[j].dispatched && j < |core'.exits|
            && core'.exits == SetStage(q.core, j, core'.exits[j].stage).exits
            && core'.queue == q.core.queue && core'.added == q.core.added
  {
  }

  lemma PacketsPreserved(queueSize: int, q: Queue, a: Action)
    requires PacketsInv(queueSize, q.core) && FlushInv(q.calls, q.core.queue) && Enabled(q, a)
    ensures PacketsInv(queueSize, Apply(queueSize, q, a).core)
  {
    if a.AddBody? {
      EnqueuePackets(queueSize, q.core, q.calls[a.c].packet);
    } else if RelayStep(a) && a.owner.Goroutine? {
      var core' := Apply(queueSize, q, a).core;
      GoroutineFrame(queueSize, q, a);
      SetStagePackets(queueSize, q.core, a.owner.batch, core'.exits[a.owner.batch].stage);
      PacketsFrame(queueSize, SetStage(q.core, a.owner.batch, core'.exits[a.owner.batch].stage), core');
    } else if a.UnlockRelay? {
      FinishFlushPackets(queueSize, q.core, q.calls[a.owner.caller].ok);
    } else {
      PacketsFrame(queueSize, q.core, Apply(queueSize, q, a).core);
    }
  }

  // The flush's copy.

  /** Only the holder of queueMutex changes the queue, and a holder in Add or leaving Flush leaves no other copy. */
  lemma OtherCallsFree(q: Queue, c: nat, queue: seq<Packet>)
    requires QueueMutexInv(q.calls, q.queueMutex) && FlushInv(q.calls, q.core.queue)
    requires c < |q.calls| && WritesQueue(q.calls[c])
    ensures forall d: nat :: d < |q.calls| && d != c ==> FlushMatches(q.calls[d], queue)
  {
  }

  lemma KeepCopy(calls: seq<Call>, queue: seq<Packet>, c: nat, call: Call)
    requires FlushInv(calls, queue) && c < |calls| && FlushMatches(call, queue)
    ensures FlushInv(calls[c := call], queue)
  {
  }

  /** All other steps leave the queue as it is, and move one call at most. */
  lemma FlushKept(queueSize: int, q: Queue, a: Action)
    requires FlushInv(q.calls, q.core.queue) && Enabled(q, a)
    requires !a.AddBody? && !(a.UnlockRelay? && a.owner.Flusher?)
    ensures var q' := Apply(queueSize, q, a); FlushInv(q'.calls, q'.core.queue)
  {
    if !(RelayStep(a) && a.owner.Goroutine?) {
      var c := if RelayStep(a) then a.owner.caller else a.c;
      var call := Apply(queueSize, q, a).calls[c];
      assert FlushMatches(q.calls[c], q.core.queue);
      KeepCopy(q.calls, q.core.queue, c, call);
    }
  }

  lemma FlushPreserved(queueSize: int, q: Queue, a: Action)
    requires QueueMutexInv(q.calls, q.queueMutex) && FlushInv(q.calls, q.core.queue) && Enabled(q, a)
    ensures var q' := Apply(queueSize, q, a); FlushInv(q'.calls, q'.core.queue)
  {
    if a.AddBody? {
      OtherCallsFree(q, a.c, Apply(queueSize, q, a).core.queue);
    } else if a.UnlockRelay? && a.owner.Flusher? {
      OtherCallsFree(q, a.owner.caller, Apply(queueSize, q, a).core.queue);
    } else {
      FlushKept(queueSize, q, a);
    }
  }

  // Counters.

  lemma MoveCall(calls: seq<Call>, c: nat, call: Call)
    requires c < |calls|
    ensures Sum(calls[c := call], FlushedSize) + FlushedSize(calls[c]) == Sum(calls, FlushedSize) + FlushedSize(call)
    ensures Sum(calls[c := call], FlushingSize) + FlushingSize(calls[c]) ==
            Sum(calls, FlushingSize) + FlushingSize(call)
  {
    SumUpdate(calls, c, call, FlushedSize);
    SumUpdate(calls, c, call, FlushingSize);
  }

  lemma AccountingGoroutine(queueSize: int, q: Queue, a: Action, flushed: nat, flushing: nat)
    requires Balanced(q.core, flushed, flushing) && Enabled(q, a)
    requires RelayStep(a) && a.owner.Goroutine?
    ensures Balanced(Apply(queueSize, q, a).core, flushed, flushing)
  {
    var j := a.owner.batch;
    match a
    case LockRelay(_) => SetStageBalanced(q.core, j, Pending, flushed, flushing);
    case EnterRelay(_) => StartBatchBalanced(q.core, j, flushed, flushing);
    case RelayResult(_, ok) => EndBatchBalanced(q.core, j, Returned(ok), flushed, flushing);
    case UnlockRelay(_) => SetStageBalanced(q.core, j, Finished(q.core.exits[j].stage.ok), flushed, flushing);
  }

  lemma AccountingFlusher(queueSize: int, q: Queue, a: Action)
    requires AccountingInv(q.core, q.calls) && Enabled(q, a)
    requires (a.LockRelay? || a.EnterRelay? || a.RelayResult?) && a.owner.Flusher?
    ensures var q' := Apply(queueSize, q, a); AccountingInv(q'.core, q'.calls)
  {
    var c := a.owner.caller;
    MoveCall(q.calls, c, Apply(queueSize, q, a).calls[c]);
  }

  lemma AccountingFlushed(core: Core, calls: seq<Call>, c: nat, copy: seq<Packet>, ok: bool)
    requires AccountingInv(core, calls) && c < |calls| && calls[c] == FlushRelayReturned(copy, ok)
    ensures AccountingInv(FinishFlush(core, copy, ok), calls[c := FlushLeaving(ok)])
  {
    MoveCall(calls, c, FlushLeaving(ok));
    FinishFlushBalanced(core, copy, ok, Sum(calls, FlushedSize), Sum(calls, FlushingSize));
  }

  lemma AccountingCaller(queueSize: int, q: Queue, a: Action, call: Call)
    requires AccountingInv(q.core, q.calls) && Enabled(q, a)
    requires !RelayStep(a)
    requires Apply(queueSize, q, a).calls == q.calls[a.c := call]
    ensures AccountingInv(Apply(queueSize, q, a).core, q.calls[a.c := call])
  {
    MoveCall(q.calls, a.c, call);
    assert Apply(queueSize, q, a).calls[a.c] == call;
    if a.AddBody? {
      EnqueueBalanced(queueSize, q.core, q.calls[a.c].packet, Sum(q.calls, FlushedSize), Sum(q.calls, FlushingSize));
    } else {
      assert Apply(queueSize, q, a).core == q.core;
    }
  }

  lemma AccountingPreserved(queueSize: int, q: Queue, a: Action)
    requires AccountingInv(q.core, q.calls) && FlushInv(q.calls, q.core.queue) && Enabled(q, a)
    ensures var q' := Apply(queueSize, q, a); AccountingInv(q'.core, q'.calls)
  {
    if RelayStep(a) {
      if a.owner.Goroutine? {
        AccountingGoroutine(queueSize, q, a, Sum(q.calls, FlushedSize), Sum(q.calls, FlushingSize));
      } else if a.UnlockRelay? {
        var call := q.calls[a.owner.caller];
        AccountingFlushed(q.core, q.calls, a.owner.caller, call.copy, call.ok);
      } else {
        AccountingFlusher(queueSize, q, a);
      }
    } else {
      AccountingCaller(queueSize, q, a, Apply(queueSize, q, a).calls[a.c]);
    }
  }

  /** Every step of every caller and every goroutine keeps the invariant. */
  lemma StepInv(queueSize: int, q: Queue, a: Action)
    requires QueueInv(queueSize, q) && Enabled(q, a)
    ensures QueueInv(queueSize, Apply(queueSize, q, a))
  {
    QueueMutexPreserved(queueSize, q, a);
    RelayMutexPreserved(queueSize, q, a);
    PacketsPreserved(queueSize, q, a);
    FlushPreserved(queueSize, q, a);
    AccountingPreserved(queueSize, q, a);
  }
}
