/**
 The data that a relay queue guards with its two mutexes, and what each critical section does to it.
 `exits`, `added` and `failedFlushes` are history: what left the queue (in order), what was ever put in,
 and how many packets were in flush attempts that failed.
 */
module RelayQueueCore {
  import opened Sequences
  import opened Ibc

  /** Life of a batch: handed to the errgroup, waiting for readers of relayMutex to leave, holding relayMutex,
      outcome recorded but relayMutex still held, goroutine returned. */
  datatype Stage = Spawned | Pending | Running | Returned(ok: bool) | Finished(ok: bool)

  /** Packets that left the queue together: a batch dispatched by Add, or the queue taken by a successful Flush. */
  datatype Exit = Exit(packets: seq<Packet>, dispatched: bool, stage: Stage)

  datatype Core = Core(
    queue: seq<Packet>,
    currentlyRelaying: int,
    relaysCompleted: int,
    exits: seq<Exit>,
    added: seq<Packet>,
    failedFlushes: nat)

  const EmptyCore := Core([], 0, 0, [], [], 0)

  /** The length at which Add dispatches: a queue size below one dispatches every packet. */
  function Threshold(queueSize: int): nat {
    if queueSize < 1 then 1 else queueSize
  }

  /** Add, under queueMutex. */
  function Enqueue(core: Core, queueSize: int, packet: Packet): Core {
    var queue := core.queue + [packet];
    if |queue| >= queueSize then
      core.(queue := [], added := core.added + [packet], exits := core.exits + [Exit(queue, true, Spawned)])
    else
      core.(queue := queue, added := core.added + [packet])
  }

  /** First statement of relay, under relayMutex. */
  function BeginRelay(core: Core, packets: seq<Packet>): Core {
    core.(currentlyRelaying := core.currentlyRelaying + |packets|)
  }

  /** Last statements of relay: a failed relay leaves currentlyRelaying as it is. */
  function EndRelay(core: Core, packets: seq<Packet>, ok: bool): Core {
    if ok then
      core.(relaysCompleted := core.relaysCompleted + |packets|,
            currentlyRelaying := core.currentlyRelaying - |packets|)
    else
      core
  }

  function SetStage(core: Core, j: nat, stage: Stage): Core
    requires j < |core.exits|
  {
    core.(exits := core.exits[j := core.exits[j].(stage := stage)])
  }

  /** Flush after its own relay call: the queue is emptied only on success. */
  function FinishFlush(core: Core, copy: seq<Packet>, ok: bool): Core {
    if ok then core.(queue := [], exits := core.exits + [Exit(copy, false, Finished(true))]) else core
  }

  predicate AllReturned(exits: seq<Exit>) {
    forall j :: 0 <= j < |exits| ==> exits[j].stage.Finished?
  }

  predicate AllSucceeded(exits: seq<Exit>) {
    forall j :: 0 <= j < |exits| ==> exits[j].stage == Finished(true)
  }

  function PacketsOf(exits: seq<Exit>): (r: seq<seq<Packet>>)
    ensures |r| == |exits|
    ensures forall j :: 0 <= j < |r| ==> r[j] == exits[j].packets
  {
    seq(|exits|, j requires 0 <= j < |exits| => exits[j].packets)
  }

  // Summands over exits.

  function Size(e: Exit): nat { |e.packets| }

  predicate Succeeded(e: Exit) { e.stage == Returned(true) || e.stage == Finished(true) }

  predicate Failed(e: Exit) { e.stage == Returned(false) || e.stage == Finished(false) }

  function SucceededSize(e: Exit): nat { if Succeeded(e) then |e.packets| else 0 }

  function FailedSize(e: Exit): nat { if Failed(e) then |e.packets| else 0 }

  function RunningSize(e: Exit): nat { if e.stage == Running then |e.packets| else 0 }

  function PendingSize(e: Exit): nat { if e.stage == Pending || e.stage == Spawned then |e.packets| else 0 }

  /** Size and origin of whatever left the queue. */
  predicate WellFormedExit(queueSize: int, e: Exit) {
    && 0 < |e.packets|
    && (e.dispatched ==> |e.packets| == Threshold(queueSize))
    && (!e.dispatched ==> e.stage == Finished(true) && |e.packets| < Threshold(queueSize))
  }

  /** What every critical section keeps about the packets, whatever the counters are. */
  ghost predicate PacketsInv(queueSize: int, core: Core) {
    && Flatten(PacketsOf(core.exits)) + core.queue == core.added
    && |core.queue| < Threshold(queueSize)
    && (forall j :: 0 <= j < |core.exits| ==> WellFormedExit(queueSize, core.exits[j]))
  }

  /** Exact counter accounting: `flushed` packets were relayed by a flush that has not emptied the queue yet,
      `flushing` ones are being relayed by a flush. */
  ghost predicate Balanced(core: Core, flushed: nat, flushing: nat) {
    && core.relaysCompleted == Sum(core.exits, SucceededSize) + flushed
    && core.currentlyRelaying ==
       Sum(core.exits, FailedSize) + Sum(core.exits, RunningSize) + core.failedFlushes + flushing
  }

  lemma AppendExit(exits: seq<Exit>, e: Exit)
    ensures Flatten(PacketsOf(exits + [e])) == Flatten(PacketsOf(exits)) + e.packets
    ensures Sum(exits + [e], SucceededSize) == Sum(exits, SucceededSize) + SucceededSize(e)
    ensures Sum(exits + [e], FailedSize) == Sum(exits, FailedSize) + FailedSize(e)
    ensures Sum(exits + [e], RunningSize) == Sum(exits, RunningSize) + RunningSize(e)
    ensures Sum(exits + [e], PendingSize) == Sum(exits, PendingSize) + PendingSize(e)
    ensures Sum(exits + [e], Size) == Sum(exits, Size) + Size(e)
  {
    SumAppend(exits, e, SucceededSize);
    SumAppend(exits, e, FailedSize);
    SumAppend(exits, e, RunningSize);
    SumAppend(exits, e, PendingSize);
    SumAppend(exits, e, Size);
    assert PacketsOf(exits + [e])[..|exits|] == PacketsOf(exits);
  }

  /** Moving a batch to another stage keeps its packets and moves its size between the sums. */
  lemma ChangeStage(exits: seq<Exit>, j: nat, stage: Stage)
    requires j < |exits|
    ensures var after := exits[j := exits[j].(stage := stage)];
            && PacketsOf(after) == PacketsOf(exits)
            && Sum(after, Size) == Sum(exits, Size)
            && Sum(after, SucceededSize) + SucceededSize(exits[j]) ==
               Sum(exits, SucceededSize) + SucceededSize(after[j])
            && Sum(after, FailedSize) + FailedSize(exits[j]) == Sum(exits, FailedSize) + FailedSize(after[j])
            && Sum(after, RunningSize) + RunningSize(exits[j]) == Sum(exits, RunningSize) + RunningSize(after[j])
            && Sum(after, PendingSize) + PendingSize(exits[j]) == Sum(exits, PendingSize) + PendingSize(after[j])
  {
    var e := exits[j].(stage := stage);
    SumUpdate(exits, j, e, Size);
    SumUpdate(exits, j, e, SucceededSize);
    SumUpdate(exits, j, e, FailedSize);
    SumUpdate(exits, j, e, RunningSize);
    SumUpdate(exits, j, e, PendingSize);
    assert PacketsOf(exits[j := e]) == PacketsOf(exits);
  }

  /** Every packet that left is in exactly one of the four stages; so what has succeeded fits in what was added. */
  lemma {:induction false} StagesPartition(exits: seq<Exit>)
    ensures |Flatten(PacketsOf(exits))| == Sum(exits, Size)
    ensures Sum(exits, Size) ==
            Sum(exits, SucceededSize) + Sum(exits, FailedSize) + Sum(exits, RunningSize) + Sum(exits, PendingSize)
  {
    if exits != [] {
      var n := |exits| - 1;
      assert exits == exits[..n] + [exits[n]];
      StagesPartition(exits[..n]);
      AppendExit(exits[..n], exits[n]);
    }
  }

  // What each critical section keeps.

  lemma EnqueuePackets(queueSize: int, core: Core, packet: Packet)
    requires PacketsInv(queueSize, core)
    ensures PacketsInv(queueSize, Enqueue(core, queueSize, packet))
  {
    var queue := core.queue + [packet];
    AppendExit(core.exits, Exit(queue, true, Spawned));
    assert core.added + [packet] == Flatten(PacketsOf(core.exits)) + queue;
  }

  lemma FinishFlushPackets(queueSize: int, core: Core, ok: bool)
    requires PacketsInv(queueSize, core) && |core.queue| > 0
    ensures PacketsInv(queueSize, FinishFlush(core, core.queue, ok))
  {
    AppendExit(core.exits, Exit(core.queue, false, Finished(true)));
  }

  lemma SetStagePackets(queueSize: int, core: Core, j: nat, stage: Stage)
    requires PacketsInv(queueSize, core) && j < |core.exits| && core.exits[j].dispatched
    ensures PacketsInv(queueSize, SetStage(core, j, stage))
  {
    ChangeStage(core.exits, j, stage);
  }

  lemma EnqueueBalanced(queueSize: int, core: Core, packet: Packet, flushed: nat, flushing: nat)
    requires Balanced(core, flushed, flushing)
    ensures Balanced(Enqueue(core, queueSize, packet), flushed, flushing)
  {
    AppendExit(core.exits, Exit(core.queue + [packet], true, Spawned));
  }

  /** Announcing on relayMutex, or leaving it, changes no counter. */
  lemma SetStageBalanced(core: Core, j: nat, stage: Stage, flushed: nat, flushing: nat)
    requires Balanced(core, flushed, flushing) && j < |core.exits|
    requires (core.exits[j].stage.Spawned? && stage.Pending?)
          || (core.exits[j].stage.Returned? && stage == Finished(core.exits[j].stage.ok))
    ensures Balanced(SetStage(core, j, stage), flushed, flushing)
  {
    ChangeStage(core.exits, j, stage);
  }

  lemma StartBatchBalanced(core: Core, j: nat, flushed: nat, flushing: nat)
    requires Balanced(core, flushed, flushing) && j < |core.exits|
    requires core.exits[j].stage.Spawned? || core.exits[j].stage.Pending?
    ensures Balanced(BeginRelay(SetStage(core, j, Running), core.exits[j].packets), flushed, flushing)
  {
    ChangeStage(core.exits, j, Running);
  }

  lemma EndBatchBalanced(core: Core, j: nat, stage: Stage, flushed: nat, flushing: nat)
    requires Balanced(core, flushed, flushing) && j < |core.exits|
    requires core.exits[j].stage.Running? && (stage.Returned? || stage.Finished?)
    ensures Balanced(EndRelay(SetStage(core, j, stage), core.exits[j].packets, stage.ok), flushed, flushing)
  {
    ChangeStage(core.exits, j, stage);
  }

  /** A successful flush's packets move from the flush to the exits; a failed flush moves nothing. */
  lemma FinishFlushBalanced(core: Core, copy: seq<Packet>, ok: bool, flushed: nat, flushing: nat)
    requires Balanced(core, flushed, flushing) && (ok ==> |copy| <= flushed)
    ensures Balanced(FinishFlush(core, copy, ok), if ok then flushed - |copy| else flushed, flushing)
  {
    AppendExit(core.exits, Exit(copy, false, Finished(true)));
  }

  // Whole relays, as one thread sees them.

  /** A goroutine's call of relay for batch j, from its first to its last statement. */
  function RelayBatch(core: Core, j: nat, ok: bool): Core
    requires j < |core.exits|
  {
    var packets := core.exits[j].packets;
    EndRelay(SetStage(BeginRelay(core, packets), j, Finished(ok)), packets, ok)
  }

  /** A Flush of a queue that is not empty. */
  function RelayQueue(core: Core, ok: bool): Core {
    var relayed := EndRelay(BeginRelay(core, core.queue), core.queue, ok);
    FinishFlush(if ok then relayed else relayed.(failedFlushes := relayed.failedFlushes + |core.queue|), core.queue, ok)
  }

  lemma RelayBatchKeeps(queueSize: int, core: Core, j: nat, ok: bool)
    requires PacketsInv(queueSize, core) && Balanced(core, 0, 0)
    requires j < |core.exits| && core.exits[j].dispatched && core.exits[j].stage.Spawned?
    ensures PacketsInv(queueSize, RelayBatch(core, j, ok)) && Balanced(RelayBatch(core, j, ok), 0, 0)
  {
    SetStagePackets(queueSize, core, j, Finished(ok));
    ChangeStage(core.exits, j, Finished(ok));
  }

  lemma RelayQueueKeeps(queueSize: int, core: Core, ok: bool)
    requires PacketsInv(queueSize, core) && Balanced(core, 0, 0) && |core.queue| > 0
    ensures PacketsInv(queueSize, RelayQueue(core, ok)) && Balanced(RelayQueue(core, ok), 0, 0)
  {
    AppendExit(core.exits, Exit(core.queue, false, Finished(true)));
    FinishFlushPackets(queueSize, core, ok);
  }

  lemma {:induction false} ExitPacketsAdded(exits: seq<Exit>, j: nat, p: Packet)
    requires j < |exits| && p in exits[j].packets
    ensures p in Flatten(PacketsOf(exits))
  {
    var n := |exits| - 1;
    assert PacketsOf(exits)[..n] == PacketsOf(exits[..n]);
    if j < n {
      ExitPacketsAdded(exits[..n], j, p);
    }
  }

  lemma {:induction false} AllSucceededSums(exits: seq<Exit>)
    requires AllSucceeded(exits)
    ensures Sum(exits, SucceededSize) == Sum(exits, Size)
    ensures Sum(exits, FailedSize) == Sum(exits, RunningSize) == Sum(exits, PendingSize) == 0
  {
    if exits != [] {
      AllSucceededSums(exits[..|exits| - 1]);
    }
  }

  /** With an empty queue and every batch relayed, the counter is the number of packets ever added. */
  lemma AllRelayed(queueSize: int, core: Core)
    requires PacketsInv(queueSize, core) && Balanced(core, 0, 0) && core.queue == [] && AllSucceeded(core.exits)
    ensures core.relaysCompleted == |core.added|
  {
    AllSucceededSums(core.exits);
    StagesPartition(core.exits);
  }

  /** Passing through the stages one after the other, with the counters in between, comes to the same. */
  lemma BatchStages(core: Core, j: nat, ok: bool)
    requires j < |core.exits|
    ensures var packets := core.exits[j].packets;
            var begun := BeginRelay(SetStage(SetStage(core, j, Pending), j, Running), packets);
            var ended := EndRelay(SetStage(begun, j, Returned(ok)), packets, ok);
            SetStage(ended, j, Finished(ok)) == RelayBatch(core, j, ok)
  {
    var e := core.exits[j];
    assert core.exits[j := e.(stage := Pending)][j := e.(stage := Running)][j := e.(stage := Returned(ok))]
           [j := e.(stage := Finished(ok))] == core.exits[j := e.(stage := Finished(ok))];
  }
}
