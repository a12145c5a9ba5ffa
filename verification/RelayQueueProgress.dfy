/** The queue never deadlocks, whatever its callers do, and its runs are bounded by the calls that they start. */
module RelayQueueProgress {
  import opened Sequences
  import opened RelayQueueCore
  import opened RelayQueueProtocol
  import Theorems = RelayQueueTheorems

  predicate Outstanding(call: Call) {
    !call.Idle? && !Completed(call)
  }

  /** A step that is not a failed relay, and a goroutine's only if something waits for goroutines. */
  ghost predicate Useful(q: Queue, a: Action) {
    && Enabled(q, a) && Internal(a)
    && (a.RelayResult? ==> a.ok)
    && (RelayStep(a) && a.owner.Goroutine? ==>
          || (exists j: nat :: q.relayMutex.writer == Held(Goroutine(j)))
          || exists c: nat :: c < |q.calls| && q.calls[c].FlushWaiting?)
  }

  lemma ReaderProgress(q: Queue, c: nat) returns (a: Action)
    requires c < |q.calls| && q.calls[c].StatusBoth?
    ensures Useful(q, a)
  {
    a := ReadStatus(c);
  }

  /** Whoever holds relayMutex, or waits for its readers, can go on, or a reader can. */
  lemma RelayMutexProgress(queueSize: int, q: Queue) returns (a: Action)
    requires QueueInv(queueSize, q) && q.relayMutex.writer.Held?
    ensures Useful(q, a)
  {
    var owner := q.relayMutex.writer.who;
    if q.relayMutex.readers != {} {
      var c :| c in q.relayMutex.readers;
      a := ReaderProgress(q, c);
    } else {
      match owner {
        case Goroutine(j) =>
          assert Relays(q.core.exits[j]);
          var stage := q.core.exits[j].stage;
          a := if stage.Pending? then EnterRelay(owner)
               else if stage.Running? then RelayResult(owner, true) else UnlockRelay(owner);
        case Flusher(c) =>
          assert WritesRelay(q.calls[c]);
          var call := q.calls[c];
          a := if call.FlushRelayPending? then EnterRelay(owner)
               else if call.FlushRelaying? then RelayResult(owner, true) else UnlockRelay(owner);
      }
    }
  }

  lemma GoroutineProgress(queueSize: int, q: Queue, c: nat) returns (a: Action)
    requires QueueInv(queueSize, q) && q.relayMutex.writer.Nobody?
    requires c < |q.calls| && q.calls[c].FlushWaiting?
    ensures Useful(q, a)
  {
    if AllReturned(q.core.exits) {
      a := JoinGroup(c);
    } else {
      var j: nat :| j < |q.core.exits| && !q.core.exits[j].stage.Finished?;
      assert q.core.exits[j].dispatched && !Relays(q.core.exits[j]);
      a := LockRelay(Goroutine(j));
    }
  }

  lemma WriterProgress(queueSize: int, q: Queue, c: nat) returns (a: Action)
    requires QueueInv(queueSize, q) && q.relayMutex.writer.Nobody?
    requires c < |q.calls| && WritesQueue(q.calls[c]) && !AwaitsReaders(q.calls[c])
    ensures Useful(q, a)
  {
    var call := q.calls[c];
    assert !WritesRelay(call);
    if call.FlushWaiting? {
      a := GoroutineProgress(queueSize, q, c);
    } else {
      a := if call.AddHeld? then AddBody(c)
           else if call.FlushHeld? then FlushBody(c)
           else if call.FlushRelayWant? then LockRelay(Flusher(c))
           else UnlockQueue(c);
    }
  }

  /** With relayMutex free, whoever holds queueMutex, or waits for its readers, can go on, or a reader can. */
  lemma QueueMutexProgress(queueSize: int, q: Queue) returns (a: Action)
    requires QueueInv(queueSize, q) && q.relayMutex.writer.Nobody? && q.queueMutex.writer.Held?
    ensures Useful(q, a)
  {
    var c := q.queueMutex.writer.who;
    assert WritesQueue(q.calls[c]);
    if q.queueMutex.readers != {} {
      var r :| r in q.queueMutex.readers;
      a := if q.calls[r].StatusQueue? then RLockRelay(r)
           else if q.calls[r].StatusBoth? then ReadStatus(r) else RUnlockQueue(r);
    } else if AwaitsReaders(q.calls[c]) {
      a := EnterQueue(c);
    } else {
      a := WriterProgress(queueSize, q, c);
    }
  }

  /** Deadlock freedom of the queue: while some call has not returned, the queue can take a step, and one in
      which no relay fails. The order queueMutex before relayMutex, and goroutines never taking queueMutex,
      are what makes this true. */
  lemma QueueProgress(queueSize: int, q: Queue, c: nat) returns (a: Action)
    requires QueueInv(queueSize, q) && c < |q.calls| && Outstanding(q.calls[c])
    ensures Useful(q, a)
  {
    if q.relayMutex.writer.Held? {
      a := RelayMutexProgress(queueSize, q);
    } else if q.queueMutex.writer.Held? {
      a := QueueMutexProgress(queueSize, q);
    } else {
      var call := q.calls[c];
      assert !WritesQueue(call);
      a := if call.AddWant? || call.FlushWant? then LockQueue(c)
           else if call.StatusWant? then RLockQueue(c)
           else if call.StatusQueue? then RLockRelay(c)
           else if call.StatusBoth? then ReadStatus(c) else RUnlockQueue(c);
    }
  }

  /** A batch that has not returned can go on, or relayMutex's holder or readers can. */
  lemma BatchProgress(queueSize: int, q: Queue, j: nat) returns (a: Action)
    requires QueueInv(queueSize, q) && j < |q.core.exits| && !q.core.exits[j].stage.Finished?
    ensures Enabled(q, a) && Internal(a) && (a.RelayResult? ==> a.ok)
  {
    if q.relayMutex.writer.Held? {
      a := RelayMutexProgress(queueSize, q);
    } else {
      assert q.core.exits[j].dispatched && !Relays(q.core.exits[j]);
      a := LockRelay(Goroutine(j));
    }
  }

  // Termination.

  function CallWeight(call: Call): nat {
    match call
    case Idle => 0
    case AddWant(_) => 9
    case AddPending(_) => 8
    case AddHeld(_) => 7
    case AddLeaving => 2
    case AddDone => 1
    case StatusWant => 5
    case StatusQueue => 4
    case StatusBoth => 3
    case StatusLeaving(_) => 2
    case StatusDone(_) => 1
    case FlushWant => 10
    case FlushPending => 9
    case FlushHeld => 8
    case FlushRelayWant(_) => 7
    case FlushRelayPending(_) => 6
    case FlushRelaying(_) => 5
    case FlushRelayReturned(_, _) => 4
    case FlushWaiting => 3
    case FlushLeaving(_) => 2
    case FlushDone(_) => 1
  }

  function ExitWeight(e: Exit): nat {
    match e.stage
    case Spawned => 4
    case Pending => 3
    case Running => 2
    case Returned(_) => 1
    case Finished(_) => 0
  }

  /** A bound on the steps the queue can still take by itself. */
  function Work(q: Queue): nat {
    Sum(q.calls, CallWeight) + Sum(q.core.exits, ExitWeight)
  }

  lemma GoroutineWork(queueSize: int, q: Queue, a: Action)
    requires Enabled(q, a) && RelayStep(a) && a.owner.Goroutine?
    ensures Work(Apply(queueSize, q, a)) < Work(q)
  {
    var j := a.owner.batch;
    var q' := Apply(queueSize, q, a);
    SumUpdate(q.core.exits, j, q'.core.exits[j], ExitWeight);
    assert q'.core.exits == q.core.exits[j := q'.core.exits[j]];
  }

  lemma FlusherWork(queueSize: int, q: Queue, a: Action)
    requires Enabled(q, a) && RelayStep(a) && a.owner.Flusher?
    ensures Work(Apply(queueSize, q, a)) < Work(q)
  {
    var c := a.owner.caller;
    var call := Apply(queueSize, q, a).calls[c];
    assert CallWeight(call) < CallWeight(q.calls[c]);
    SumUpdate(q.calls, c, call, CallWeight);
    if a.UnlockRelay? && q.calls[c].ok {
      SumAppend(q.core.exits, Exit(q.calls[c].copy, false, Finished(true)), ExitWeight);
    } else {
      assert Apply(queueSize, q, a).core.exits == q.core.exits;
    }
  }

  /** A caller's step moves its own call; only the body of Add can add a batch. */
  lemma CallerFrame(queueSize: int, q: Queue, a: Action)
    requires Enabled(q, a) && !RelayStep(a)
    ensures var q' := Apply(queueSize, q, a);
            && q'.calls == q.calls[a.c := q'.calls[a.c]]
            && (q'.core.exits == q.core.exits
                || (a.AddBody? &&
                    q'.core.exits == q.core.exits + [Exit(q.core.queue + [q.calls[a.c].packet], true, Spawned)]))
  {
  }

  lemma CallerLighter(queueSize: int, q: Queue, a: Action)
    requires Enabled(q, a) && !RelayStep(a) && Internal(a)
    ensures CallWeight(Apply(queueSize, q, a).calls[a.c]) + (if a.AddBody? then 4 else 0) < CallWeight(q.calls[a.c])
  {
  }

  lemma CallerWork(queueSize: int, q: Queue, a: Action)
    requires Enabled(q, a) && !RelayStep(a)
    ensures Internal(a) ==> Work(Apply(queueSize, q, a)) < Work(q)
    ensures !Internal(a) ==>
              Work(Apply(queueSize, q, a)) + CallWeight(q.calls[a.c])
              == Work(q) + CallWeight(Apply(queueSize, q, a).calls[a.c])
  {
    SumUpdate(q.calls, a.c, Apply(queueSize, q, a).calls[a.c], CallWeight);
    CallerFrame(queueSize, q, a);
    if a.AddBody? {
      SumAppend(q.core.exits, Exit(q.core.queue + [q.calls[a.c].packet], true, Spawned), ExitWeight);
    }
    if Internal(a) {
      CallerLighter(queueSize, q, a);
    }
  }

  /** Every step the queue takes by itself uses up work. */
  lemma InternalWork(queueSize: int, q: Queue, a: Action)
    requires Enabled(q, a) && Internal(a)
    ensures Work(Apply(queueSize, q, a)) < Work(q)
  {
    if RelayStep(a) {
      if a.owner.Goroutine? { GoroutineWork(queueSize, q, a); } else { FlusherWork(queueSize, q, a); }
    } else {
      CallerWork(queueSize, q, a);
    }
  }

  predicate Invokes(a: Action) { a.InvokeAdd? || a.InvokeStatus? || a.InvokeFlush? }

  /** How many calls a schedule starts. */
  function Invocations(schedule: seq<Action>): nat {
    if schedule == [] then 0
    else
      var n := |schedule| - 1;
      Invocations(schedule[..n]) + if Invokes(schedule[n]) then 1 else 0
  }

  lemma StepWork(queueSize: int, q: Queue, a: Action)
    requires Enabled(q, a)
    ensures Work(Apply(queueSize, q, a)) + 1 <= Work(q) + if Invokes(a) then 11 else 0
  {
    if Internal(a) {
      InternalWork(queueSize, q, a);
    } else {
      CallerWork(queueSize, q, a);
    }
  }

  /** A run is bounded by the calls that it starts: with what is under way at its beginning, eleven steps for each.
      In particular, if no call is started the run comes to an end. */
  lemma {:induction false} RunIsBounded(queueSize: int, q: Queue, schedule: seq<Action>)
    requires Theorems.Run(queueSize, q, schedule).Some?
    ensures Work(Theorems.Run(queueSize, q, schedule).value) + |schedule| <= Work(q) + 11 * Invocations(schedule)
  {
    if schedule != [] {
      var n := |schedule| - 1;
      RunIsBounded(queueSize, q, schedule[..n]);
      StepWork(queueSize, Theorems.Run(queueSize, q, schedule[..n]).value, schedule[n]);
    }
  }

  /** Where a run cannot go on by itself, every call that was started is ready to return, and every batch has. */
  lemma SettledMeansReturned(queueSize: int, q: Queue)
    requires Theorems.Reachable(queueSize, q) && forall a :: Internal(a) ==> !Enabled(q, a)
    ensures forall c: nat :: c < |q.calls| ==> q.calls[c].Idle? || Completed(q.calls[c])
    ensures AllReturned(q.core.exits)
  {
    Theorems.ReachableInv(queueSize, q);
    forall c: nat | c < |q.calls|
      ensures q.calls[c].Idle? || Completed(q.calls[c])
    {
      if Outstanding(q.calls[c]) {
        var a := QueueProgress(queueSize, q, c);
      }
    }
    forall j: nat | j < |q.core.exits|
      ensures q.core.exits[j].stage.Finished?
    {
      if !q.core.exits[j].stage.Finished? {
        var a := BatchProgress(queueSize, q, j);
      }
    }
  }
}
