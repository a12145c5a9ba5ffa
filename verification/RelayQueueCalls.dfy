/**
 Whole calls as protocol runs: what a method of the object does to an idle queue in one go, a caller of the protocol
 does step by step.
 */
module RelayQueueCalls {
  import opened Wrappers
  import opened Sequences
  import opened Ibc
  import opened RelayQueueCore
  import opened RelayQueueProtocol
  import Theorems = RelayQueueTheorems

  /** A queue with one caller, who is at this point, and all locks free. */
  function Single(core: Core, call: Call): Queue {
    Queue(core, [call], Free(), Free())
  }

  /** The same, with the caller inside queueMutex. */
  function Inside(core: Core, call: Call): Queue {
    Queue(core, [call], RwMutex(Held(0), true, {}), Free())
  }

  function AddSchedule(packet: Packet): seq<Action> {
    [InvokeAdd(0, packet), LockQueue(0), EnterQueue(0), AddBody(0), UnlockQueue(0)]
  }

  function StatusSchedule(): seq<Action> {
    [InvokeStatus(0), RLockQueue(0), RLockRelay(0), ReadStatus(0), RUnlockQueue(0)]
  }

  function FlushStart(): seq<Action> {
    [InvokeFlush(0), LockQueue(0), EnterQueue(0), FlushBody(0)]
  }

  function FlushSchedule(ok: bool): seq<Action> {
    FlushStart() + (Theorems.RelaySchedule(Flusher(0), ok) + [UnlockQueue(0)])
  }

  /** The goroutines of some batches, one after the other, with their outcomes. */
  function BatchSchedule(runs: seq<(nat, bool)>): seq<Action> {
    if runs == [] then []
    else
      var n := |runs| - 1;
      BatchSchedule(runs[..n]) + Theorems.RelaySchedule(Goroutine(runs[n].0), runs[n].1)
  }

  function WaitSchedule(runs: seq<(nat, bool)>): seq<Action> {
    FlushStart() + (BatchSchedule(runs) + [JoinGroup(0), UnlockQueue(0)])
  }

  // One step at a time.

  lemma Continue(queueSize: int, q: Queue, first: seq<Action>, q': Queue, rest: seq<Action>)
    requires Theorems.Run(queueSize, q, first) == Some(q')
    ensures Theorems.Run(queueSize, q, first + rest) == Theorems.Run(queueSize, q', rest)
  {
    FoldAppend(Theorems.Next(queueSize), q, first, rest);
  }

  const NoPacket := Packet("", 0, 0, "", "", 0, RawV2(ClientPacket(0, "", "", 0, [])))

  lemma InvokeStep(queueSize: int, core: Core, packet: Packet)
    ensures Enabled(Single(core, Idle), InvokeAdd(0, packet))
            && Apply(queueSize, Single(core, Idle), InvokeAdd(0, packet)) == Single(core, AddWant(packet))
    ensures Enabled(Single(core, Idle), InvokeStatus(0))
            && Apply(queueSize, Single(core, Idle), InvokeStatus(0)) == Single(core, StatusWant)
    ensures Enabled(Single(core, Idle), InvokeFlush(0))
            && Apply(queueSize, Single(core, Idle), InvokeFlush(0)) == Single(core, FlushWant)
  {
  }

  /** From wanting queueMutex to having it. */
  lemma LockRun(queueSize: int, core: Core, call: Call, rest: seq<Action>)
    requires call.AddWant? || call.FlushWant?
    ensures Theorems.Run(queueSize, Single(core, call), [LockQueue(0)] + ([EnterQueue(0)] + rest)) ==
            Theorems.Run(queueSize, Inside(core, if call.AddWant? then AddHeld(call.packet) else FlushHeld), rest)
  {
    var pending := if call.AddWant? then AddPending(call.packet) else FlushPending;
    var held := if call.AddWant? then AddHeld(call.packet) else FlushHeld;
    var announced := Queue(core, [pending], RwMutex(Held(0), false, {}), Free());
    Theorems.RunFrom(queueSize, Single(core, call), LockQueue(0), announced, [EnterQueue(0)] + rest);
    Theorems.RunFrom(queueSize, announced, EnterQueue(0), Inside(core, held), rest);
  }

  lemma UnlockRun(queueSize: int, core: Core, call: Call)
    requires call.AddLeaving? || call.FlushLeaving?
    ensures Theorems.Run(queueSize, Inside(core, call), [UnlockQueue(0)]) ==
            Some(Single(core, if call.AddLeaving? then AddDone else FlushDone(call.ok)))
  {
    var done := Single(core, if call.AddLeaving? then AddDone else FlushDone(call.ok));
    Theorems.RunFrom(queueSize, Inside(core, call), UnlockQueue(0), done, []);
    assert [UnlockQueue(0)] + [] == [UnlockQueue(0)];
  }

  // The calls.

  /** A call of Add. */
  lemma AddRun(queueSize: int, core: Core, packet: Packet)
    ensures Theorems.Run(queueSize, Single(core, Idle), AddSchedule(packet)) ==
            Some(Single(Enqueue(core, queueSize, packet), AddDone))
  {
    var after := Enqueue(core, queueSize, packet);
    var body := [AddBody(0)] + [UnlockQueue(0)];
    assert AddSchedule(packet) == [InvokeAdd(0, packet)] + ([LockQueue(0)] + ([EnterQueue(0)] + body));
    InvokeStep(queueSize, core, packet);
    Theorems.RunFrom(queueSize, Single(core, Idle), InvokeAdd(0, packet), Single(core, AddWant(packet)),
          [LockQueue(0)] + ([EnterQueue(0)] + body));
    LockRun(queueSize, core, AddWant(packet), body);
    Theorems.RunFrom(queueSize, Inside(core, AddHeld(packet)), AddBody(0), Inside(after, AddLeaving), [UnlockQueue(0)]);
    UnlockRun(queueSize, after, AddLeaving);
  }

  lemma StatusSteps(queueSize: int, core: Core)
    ensures var report := Report(|core.queue|, core.currentlyRelaying, core.relaysCompleted);
            var want, leaving := Single(core, StatusWant), Reader(core, StatusLeaving(report), {});
            && Enabled(want, RLockQueue(0)) && Apply(queueSize, want, RLockQueue(0)) == Reader(core, StatusQueue, {})
            && Enabled(leaving, RUnlockQueue(0))
            && Apply(queueSize, leaving, RUnlockQueue(0)) == Single(core, StatusDone(report))
  {
    assert {} + {0} == {0} && {0} - {0} == {};
  }

  lemma StatusReads(queueSize: int, core: Core)
    ensures var report := Report(|core.queue|, core.currentlyRelaying, core.relaysCompleted);
            var queued, both := Reader(core, StatusQueue, {}), Reader(core, StatusBoth, {0});
            && Enabled(queued, RLockRelay(0)) && Apply(queueSize, queued, RLockRelay(0)) == both
            && Enabled(both, ReadStatus(0))
            && Apply(queueSize, both, ReadStatus(0)) == Reader(core, StatusLeaving(report), {})
  {
    assert {} + {0} == {0} && {0} - {0} == {};
  }

  /** The one caller reads under queueMutex, and these callers under relayMutex. */
  function Reader(core: Core, call: Call, relayReaders: set<nat>): Queue {
    Queue(core, [call], RwMutex(Nobody, false, {0}), RwMutex(Nobody, false, relayReaders))
  }

  /** A call of Status: the three counters at one moment. */
  lemma StatusRun(queueSize: int, core: Core)
    ensures Theorems.Run(queueSize, Single(core, Idle), StatusSchedule()) ==
            Some(Single(core, StatusDone(Report(|core.queue|, core.currentlyRelaying, core.relaysCompleted))))
  {
    var report := Report(|core.queue|, core.currentlyRelaying, core.relaysCompleted);
    InvokeStep(queueSize, core, NoPacket);
    StatusSteps(queueSize, core);
    StatusReads(queueSize, core);
    var s5 := [RUnlockQueue(0)] + [];
    var s4 := [ReadStatus(0)] + s5;
    var s3 := [RLockRelay(0)] + s4;
    var s2 := [RLockQueue(0)] + s3;
    assert StatusSchedule() == [InvokeStatus(0)] + s2;
    Theorems.RunFrom(queueSize, Single(core, Idle), InvokeStatus(0), Single(core, StatusWant), s2);
    Theorems.RunFrom(queueSize, Single(core, StatusWant), RLockQueue(0), Reader(core, StatusQueue, {}), s3);
    Theorems.RunFrom(queueSize, Reader(core, StatusQueue, {}), RLockRelay(0), Reader(core, StatusBoth, {0}), s4);
    Theorems.RunFrom(queueSize, Reader(core, StatusBoth, {0}), ReadStatus(0),
                     Reader(core, StatusLeaving(report), {}), s5);
    Theorems.RunFrom(queueSize, Reader(core, StatusLeaving(report), {}), RUnlockQueue(0),
                     Single(core, StatusDone(report)), []);
  }

  lemma FlushStartRun(queueSize: int, core: Core, rest: seq<Action>)
    ensures Theorems.Run(queueSize, Single(core, Idle), FlushStart() + rest) ==
            Theorems.Run(queueSize, Inside(core, if |core.queue| > 0 then FlushRelayWant(core.queue) else FlushWaiting),
                         rest)
  {
    var looked := Inside(core, if |core.queue| > 0 then FlushRelayWant(core.queue) else FlushWaiting);
    var body := [FlushBody(0)] + rest;
    assert FlushStart() + rest == [InvokeFlush(0)] + ([LockQueue(0)] + ([EnterQueue(0)] + body));
    InvokeStep(queueSize, core, NoPacket);
    Theorems.RunFrom(queueSize, Single(core, Idle), InvokeFlush(0), Single(core, FlushWant),
          [LockQueue(0)] + ([EnterQueue(0)] + body));
    LockRun(queueSize, core, FlushWant, body);
    Theorems.RunFrom(queueSize, Inside(core, FlushHeld), FlushBody(0), looked, rest);
  }

  /** A call of Flush on a queue that is not empty: the flush relays it, and keeps it on failure. */
  lemma FlushRun(queueSize: int, core: Core, ok: bool)
    requires core.queue != []
    ensures Theorems.Run(queueSize, Single(core, Idle), FlushSchedule(ok)) ==
            Some(Single(RelayQueue(core, ok), FlushDone(ok)))
  {
    var want, relayed := Inside(core, FlushRelayWant(core.queue)), Inside(RelayQueue(core, ok), FlushLeaving(ok));
    FlushStartRun(queueSize, core, Theorems.RelaySchedule(Flusher(0), ok) + [UnlockQueue(0)]);
    Theorems.FlushRelays(queueSize, want, 0, ok);
    assert want.calls[0 := FlushLeaving(ok)] == relayed.calls;
    Continue(queueSize, want, Theorems.RelaySchedule(Flusher(0), ok), relayed, [UnlockQueue(0)]);
    UnlockRun(queueSize, RelayQueue(core, ok), FlushLeaving(ok));
  }

  /** A dispatched batch that was not relayed yet. */
  predicate CanRelay(core: Core, j: nat) {
    j < |core.exits| && core.exits[j].dispatched && core.exits[j].stage.Spawned?
  }

  /** What the goroutines of some batches do to the queue, if each of the batches was still to be relayed. */
  function RelayBatches(core: Core, runs: seq<(nat, bool)>): Option<Core> {
    if runs == [] then Some(core)
    else
      var run := runs[|runs| - 1];
      match RelayBatches(core, runs[..|runs| - 1])
      case None => None
      case Some(before) =>
        if CanRelay(before, run.0) then Some(RelayBatch(before, run.0, run.1)) else None
  }

  /** Goroutines can run, one after the other, whenever relayMutex is free, whatever the callers are at. */
  lemma {:induction false} BatchesRun(queueSize: int, q: Queue, runs: seq<(nat, bool)>)
    requires q.relayMutex == Free() && RelayBatches(q.core, runs).Some?
    ensures Theorems.Run(queueSize, q, BatchSchedule(runs)) == Some(q.(core := RelayBatches(q.core, runs).value))
  {
    if runs != [] {
      var n := |runs| - 1;
      BatchesRun(queueSize, q, runs[..n]);
      var before := q.(core := RelayBatches(q.core, runs[..n]).value);
      Theorems.GoroutineRelays(queueSize, before, runs[n].0, runs[n].1);
      Continue(queueSize, q, BatchSchedule(runs[..n]), before, Theorems.RelaySchedule(Goroutine(runs[n].0), runs[n].1));
    }
  }

  lemma OneMoreBatch(core: Core, runs: seq<(nat, bool)>, before: Core, j: nat, ok: bool)
    requires RelayBatches(core, runs) == Some(before) && CanRelay(before, j)
    ensures RelayBatches(core, runs + [(j, ok)]) == Some(RelayBatch(before, j, ok))
  {
    assert (runs + [(j, ok)])[..|runs|] == runs;
  }

  /** Relaying moves no packet: what left the queue, what is in it and what was added stay the same. */
  ghost predicate SamePackets(core: Core, core': Core) {
    && PacketsOf(core'.exits) == PacketsOf(core.exits)
    && core'.queue == core.queue && core'.added == core.added && core'.failedFlushes == core.failedFlushes
  }

  lemma {:induction false} BatchesMoveNothing(core: Core, runs: seq<(nat, bool)>)
    requires RelayBatches(core, runs).Some?
    ensures SamePackets(core, RelayBatches(core, runs).value)
  {
    if runs != [] {
      var n := |runs| - 1;
      BatchesMoveNothing(core, runs[..n]);
      ChangeStage(RelayBatches(core, runs[..n]).value.exits, runs[n].0, Finished(runs[n].1));
    }
  }

  lemma JoinRun(queueSize: int, core: Core)
    requires core.queue == [] && AllReturned(core.exits)
    ensures Theorems.Run(queueSize, Inside(core, FlushWaiting), [JoinGroup(0), UnlockQueue(0)]) ==
            Some(Single(core, FlushDone(AllSucceeded(core.exits))))
  {
    var ok := AllSucceeded(core.exits);
    assert [JoinGroup(0), UnlockQueue(0)] == [JoinGroup(0)] + [UnlockQueue(0)];
    Theorems.RunFrom(queueSize, Inside(core, FlushWaiting), JoinGroup(0), Inside(core, FlushLeaving(ok)),
                     [UnlockQueue(0)]);
    UnlockRun(queueSize, core, FlushLeaving(ok));
  }

  /** A call of Flush on an empty queue: while it waits the remaining goroutines run, and it returns what they say. */
  lemma WaitRun(queueSize: int, core: Core, runs: seq<(nat, bool)>)
    requires core.queue == [] && RelayBatches(core, runs).Some? && AllReturned(RelayBatches(core, runs).value.exits)
    ensures var after := RelayBatches(core, runs).value;
            Theorems.Run(queueSize, Single(core, Idle), WaitSchedule(runs)) ==
            Some(Single(after, FlushDone(AllSucceeded(after.exits))))
  {
    var after := RelayBatches(core, runs).value;
    FlushStartRun(queueSize, core, BatchSchedule(runs) + [JoinGroup(0), UnlockQueue(0)]);
    BatchesRun(queueSize, Inside(core, FlushWaiting), runs);
    Continue(queueSize, Inside(core, FlushWaiting), BatchSchedule(runs), Inside(after, FlushWaiting),
             [JoinGroup(0), UnlockQueue(0)]);
    BatchesMoveNothing(core, runs);
    JoinRun(queueSize, after);
  }

  // What calls make of a new queue.

  /** The data of a queue after some calls of its methods. */
  ghost predicate Arises(queueSize: int, core: Core) {
    Theorems.Reachable(queueSize, Single(core, Idle))
  }

  lemma NewArises(queueSize: int)
    ensures Arises(queueSize, EmptyCore)
  {
    assert Init(1) == Single(EmptyCore, Idle);
    assert Theorems.Run(queueSize, Init(1), []) == Some(Single(EmptyCore, Idle));
  }

  lemma ReachOn(queueSize: int, q: Queue, schedule: seq<Action>)
    requires Theorems.Reachable(queueSize, q) && Theorems.Run(queueSize, q, schedule).Some?
    ensures Theorems.Reachable(queueSize, Theorems.Run(queueSize, q, schedule).value)
  {
    var callers: nat, before :| Theorems.Run(queueSize, Init(callers), before) == Some(q);
    Continue(queueSize, Init(callers), before, q, schedule);
    assert Theorems.Run(queueSize, Init(callers), before + schedule).Some?;
  }

  /** After a call that comes to its return the queue is idle again. */
  lemma CallArises(queueSize: int, core: Core, schedule: seq<Action>, after: Core, call: Call)
    requires Arises(queueSize, core) && Completed(call)
    requires Theorems.Run(queueSize, Single(core, Idle), schedule) == Some(Single(after, call))
    ensures Arises(queueSize, after)
  {
    ReachOn(queueSize, Single(core, Idle), schedule);
    Theorems.RunFrom(queueSize, Single(after, call), Return(0), Single(after, Idle), []);
    assert [Return(0)] + [] == [Return(0)];
    ReachOn(queueSize, Single(after, call), [Return(0)]);
  }

  lemma AddArises(queueSize: int, core: Core, packet: Packet)
    requires Arises(queueSize, core)
    ensures Arises(queueSize, Enqueue(core, queueSize, packet))
  {
    AddRun(queueSize, core, packet);
    CallArises(queueSize, core, AddSchedule(packet), Enqueue(core, queueSize, packet), AddDone);
  }

  lemma FlushArises(queueSize: int, core: Core, ok: bool)
    requires Arises(queueSize, core) && core.queue != []
    ensures Arises(queueSize, RelayQueue(core, ok))
  {
    FlushRun(queueSize, core, ok);
    CallArises(queueSize, core, FlushSchedule(ok), RelayQueue(core, ok), FlushDone(ok));
  }

  lemma BatchArises(queueSize: int, core: Core, j: nat, ok: bool)
    requires Arises(queueSize, core)
    requires CanRelay(core, j)
    ensures Arises(queueSize, RelayBatch(core, j, ok))
  {
    Theorems.GoroutineRelays(queueSize, Single(core, Idle), j, ok);
    ReachOn(queueSize, Single(core, Idle), Theorems.RelaySchedule(Goroutine(j), ok));
  }
}
