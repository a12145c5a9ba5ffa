/**
 RelayerQueue as the object that its callers use, one critical section at a time. The errgroup is the list of the
 goroutines started so far; running one of them is a method. The history (what left the queue, what was added) is
 ghost, and ties the object to the protocol: both do the same to the same Core.
 */
module RelayerQueue {
  import opened Wrappers
  import opened Sequences
  import opened Ibc
  import opened RelayQueueCore
  import opened ReceiptPolling
  import Calls = RelayQueueCalls
  import Protocol = RelayQueueProtocol
  import Theorems = RelayQueueTheorems

  datatype Status = NotRun | Ran(ok: bool)

  /** A goroutine of the errgroup: the batch it relays, and what it returned. */
  datatype Goroutine = Goroutine(packets: seq<Packet>, status: Status)

  /** One call of Relayer.Relay. */
  datatype RelayCall = RelayCall(srcClient: string, dstClient: string, txIds: seq<string>)

  /** What a call of relay meets: the outcome of Relayer.Relay, or the receipts. */
  datatype Environment = Environment(relayOk: bool, world: World)

  function TxIds(packets: seq<Packet>): (r: seq<string>)
    ensures |r| == |packets| && forall i :: 0 <= i < |r| ==> r[i] == packets[i].txHash
  {
    seq(|packets|, i requires 0 <= i < |packets| => packets[i].txHash)
  }

  function StageOf(status: Status): Stage {
    match status
    case NotRun => Spawned
    case Ran(ok) => Finished(ok)
  }

  /** The errgroup's goroutines are the dispatched batches, in order, and it remembers any failure. */
  ghost predicate GroupMatches(goroutines: seq<Goroutine>, tickets: seq<nat>, exits: seq<Exit>, groupFailed: bool) {
    && |tickets| == |goroutines|
    && (forall k :: 0 <= k < |goroutines| ==>
          tickets[k] < |exits|
          && exits[tickets[k]] == Exit(goroutines[k].packets, true, StageOf(goroutines[k].status)))
    && (forall k, l :: 0 <= k < l < |tickets| ==> tickets[k] != tickets[l])
    && (forall j :: 0 <= j < |exits| && exits[j].dispatched ==> j in tickets)
    && (groupFailed <==> exists k :: 0 <= k < |goroutines| && goroutines[k].status == Ran(false))
  }

  /** Every call of Relayer.Relay was about a batch of added packets: with its first packet's clients, and the
      hashes of all of them in order. */
  ghost predicate CallsMatch(calls: seq<RelayCall>, relayed: seq<seq<Packet>>, added: seq<Packet>) {
    && |relayed| == |calls|
    && forall k :: 0 <= k < |calls| ==>
         && relayed[k] != []
         && (forall p :: p in relayed[k] ==> p in added)
         && calls[k] == RelayCall(relayed[k][0].sourceClient, relayed[k][0].destinationClient, TxIds(relayed[k]))
  }

  lemma Spawn(goroutines: seq<Goroutine>, tickets: seq<nat>, exits: seq<Exit>, groupFailed: bool, copy: seq<Packet>)
    requires GroupMatches(goroutines, tickets, exits, groupFailed)
    ensures GroupMatches(goroutines + [Goroutine(copy, NotRun)], tickets + [|exits|],
                         exits + [Exit(copy, true, Spawned)], groupFailed)
  {
    var after := goroutines + [Goroutine(copy, NotRun)];
    assert forall k :: 0 <= k < |goroutines| ==> after[k] == goroutines[k];
    assert (tickets + [|exits|])[|tickets|] == |exits|;
    assert forall j :: j in tickets ==> j in tickets + [|exits|];
  }

  lemma Finish(goroutines: seq<Goroutine>, tickets: seq<nat>, exits: seq<Exit>, groupFailed: bool, k: nat, ok: bool)
    requires GroupMatches(goroutines, tickets, exits, groupFailed)
    requires k < |goroutines| && goroutines[k].status.NotRun?
    ensures GroupMatches(goroutines[k := goroutines[k].(status := Ran(ok))], tickets,
                         exits[tickets[k] := exits[tickets[k]].(stage := Finished(ok))], groupFailed || !ok)
  {
    var after := goroutines[k := goroutines[k].(status := Ran(ok))];
    assert !ok ==> after[k].status == Ran(false);
    assert forall l :: 0 <= l < |goroutines| && l != k ==> after[l] == goroutines[l];
  }

  lemma FlushExit(goroutines: seq<Goroutine>, tickets: seq<nat>, exits: seq<Exit>, groupFailed: bool, copy: seq<Packet>)
    requires GroupMatches(goroutines, tickets, exits, groupFailed)
    ensures GroupMatches(goroutines, tickets, exits + [Exit(copy, false, Finished(true))], groupFailed)
  {
  }

  /** If all goroutines have run, every batch has returned, and all succeeded exactly if the group saw no failure. */
  lemma GroupOutcome(queueSize: int, goroutines: seq<Goroutine>, tickets: seq<nat>, core: Core, groupFailed: bool)
    requires GroupMatches(goroutines, tickets, core.exits, groupFailed) && PacketsInv(queueSize, core)
    requires forall k :: 0 <= k < |goroutines| ==> goroutines[k].status.Ran?
    ensures AllReturned(core.exits) && (AllSucceeded(core.exits) <==> !groupFailed)
  {
    forall j | 0 <= j < |core.exits|
      ensures core.exits[j].stage.Finished? && (!groupFailed ==> core.exits[j].stage.ok)
    {
      assert WellFormedExit(queueSize, core.exits[j]);
      if core.exits[j].dispatched {
        var k :| 0 <= k < |tickets| && tickets[k] == j;
      }
    }
    if groupFailed {
      var k :| 0 <= k < |goroutines| && goroutines[k].status == Ran(false);
      assert core.exits[tickets[k]].stage == Finished(false);
    }
  }

  /** The object as a value: what the protocol knows of the queue, the errgroup, and the calls made; for each
      goroutine, which exit is its batch, and for each call, the batch it was about; and the queues that Flush tried to
      relay by itself. */
  datatype Model = Model(
    core: Core,
    goroutines: seq<Goroutine>,
    tickets: seq<nat>,
    groupFailed: bool,
    calls: seq<RelayCall>,
    relayed: seq<seq<Packet>>,
    flushes: seq<seq<Packet>>)

  /** The data are those of a queue of the protocol after whole calls, and the rest of the object goes with them. */
  ghost predicate Consistent(queueSize: int, m: Model) {
    && Calls.Arises(queueSize, m.core)
    && PacketsInv(queueSize, m.core)
    && Balanced(m.core, 0, 0)
    && GroupMatches(m.goroutines, m.tickets, m.core.exits, m.groupFailed)
    && CallsMatch(m.calls, m.relayed, m.core.added)
  }

  function Added(queueSize: int, m: Model, packet: Packet): Model {
    var next := m.(core := Enqueue(m.core, queueSize, packet));
    if |m.core.queue| + 1 >= queueSize then
      next.(goroutines := m.goroutines + [Goroutine(m.core.queue + [packet], NotRun)],
            tickets := m.tickets + [|m.core.exits|])
    else
      next
  }

  function Called(selfRelay: bool, m: Model, packets: seq<Packet>): Model
    requires packets != []
  {
    if selfRelay then
      m.(calls := m.calls + [RelayCall(packets[0].sourceClient, packets[0].destinationClient, TxIds(packets))],
         relayed := m.relayed + [packets])
    else
      m
  }

  predicate CanRun(m: Model, k: nat) {
    && k < |m.goroutines| == |m.tickets| && m.tickets[k] < |m.core.exits|
    && m.goroutines[k].packets == m.core.exits[m.tickets[k]].packets != []
  }

  function GoroutineRan(selfRelay: bool, m: Model, k: nat, ok: bool): Model
    requires CanRun(m, k)
  {
    var packets := m.goroutines[k].packets;
    Called(selfRelay, m, packets).(
      core := RelayBatch(m.core, m.tickets[k], ok),
      goroutines := m.goroutines[k := Goroutine(packets, Ran(ok))],
      groupFailed := m.groupFailed || !ok)
  }

  function QueueRelayed(selfRelay: bool, m: Model, ok: bool): Model
    requires m.core.queue != []
  {
    Called(selfRelay, m, m.core.queue).(core := RelayQueue(m.core, ok), flushes := m.flushes + [m.core.queue])
  }

  lemma AddedConsistent(queueSize: int, m: Model, packet: Packet)
    requires Consistent(queueSize, m)
    ensures Consistent(queueSize, Added(queueSize, m, packet))
  {
    Calls.AddArises(queueSize, m.core, packet);
    EnqueuePackets(queueSize, m.core, packet);
    EnqueueBalanced(queueSize, m.core, packet, 0, 0);
    Spawn(m.goroutines, m.tickets, m.core.exits, m.groupFailed, m.core.queue + [packet]);
  }

  lemma CalledConsistent(selfRelay: bool, m: Model, packets: seq<Packet>)
    requires CallsMatch(m.calls, m.relayed, m.core.added)
    requires packets != [] && forall p :: p in packets ==> p in m.core.added
    ensures var after := Called(selfRelay, m, packets); CallsMatch(after.calls, after.relayed, m.core.added)
  {
  }

  lemma BatchWasAdded(queueSize: int, core: Core, j: nat)
    requires PacketsInv(queueSize, core) && j < |core.exits|
    ensures core.exits[j].packets != [] && forall p :: p in core.exits[j].packets ==> p in core.added
  {
    assert WellFormedExit(queueSize, core.exits[j]);
    forall p | p in core.exits[j].packets
      ensures p in core.added
    {
      ExitPacketsAdded(core.exits, j, p);
    }
  }

  lemma RanConsistent(queueSize: int, selfRelay: bool, m: Model, k: nat, ok: bool)
    requires Consistent(queueSize, m) && k < |m.goroutines| && m.goroutines[k].status.NotRun?
    ensures k < |m.tickets| && Calls.CanRelay(m.core, m.tickets[k])
    ensures CanRun(m, k) && Consistent(queueSize, GoroutineRan(selfRelay, m, k, ok))
    ensures Calls.SamePackets(m.core, GoroutineRan(selfRelay, m, k, ok).core)
  {
    Calls.BatchArises(queueSize, m.core, m.tickets[k], ok);
    BatchWasAdded(queueSize, m.core, m.tickets[k]);
    CalledConsistent(selfRelay, m, m.goroutines[k].packets);
    RelayBatchKeeps(queueSize, m.core, m.tickets[k], ok);
    Finish(m.goroutines, m.tickets, m.core.exits, m.groupFailed, k, ok);
    ChangeStage(m.core.exits, m.tickets[k], Finished(ok));
  }

  lemma QueueRelayedConsistent(queueSize: int, selfRelay: bool, m: Model, ok: bool)
    requires Consistent(queueSize, m) && m.core.queue != []
    ensures Consistent(queueSize, QueueRelayed(selfRelay, m, ok))
  {
    Calls.FlushArises(queueSize, m.core, ok);
    CalledConsistent(selfRelay, m, m.core.queue);
    RelayQueueKeeps(queueSize, m.core, ok);
    FlushExit(m.goroutines, m.tickets, m.core.exits, m.groupFailed, m.core.queue);
  }

  // Which calls are made.

  ghost function RanBatch(g: Goroutine): multiset<seq<Packet>> {
    if g.status.Ran? then multiset{g.packets} else multiset{}
  }

  /** The batches of the goroutines that have run. */
  ghost function RanBatches(goroutines: seq<Goroutine>): multiset<seq<Packet>> {
    if goroutines == [] then multiset{}
    else RanBatches(goroutines[..|goroutines| - 1]) + RanBatch(goroutines[|goroutines| - 1])
  }

  function RanCount(goroutines: seq<Goroutine>): nat {
    if goroutines == [] then 0
    else RanCount(goroutines[..|goroutines| - 1]) + if goroutines[|goroutines| - 1].status.Ran? then 1 else 0
  }

  function FlushedExit(e: Exit): nat { if e.dispatched then 0 else |e.packets| }

  function Length(packets: seq<Packet>): nat { |packets| }

  /** When relaying ourselves, one call for each goroutine that has run and one for each Flush that relayed, whatever
      came of them; otherwise none. The flushes are those that failed, which the counters know of, and those that
      emptied the queue. */
  ghost predicate Recorded(selfRelay: bool, m: Model) {
    && (selfRelay ==> multiset(m.relayed) == RanBatches(m.goroutines) + multiset(m.flushes))
    && (!selfRelay ==> m.calls == [] && m.relayed == [])
    && (forall e :: e in m.core.exits && !e.dispatched ==> e.packets in m.flushes)
    && Sum(m.flushes, Length) == m.core.failedFlushes + Sum(m.core.exits, FlushedExit)
  }

  lemma RanAppend(goroutines: seq<Goroutine>, g: Goroutine)
    ensures RanBatches(goroutines + [g]) == RanBatches(goroutines) + RanBatch(g)
  {
    assert (goroutines + [g])[..|goroutines|] == goroutines;
  }

  lemma {:induction false} OneMoreRan(goroutines: seq<Goroutine>, k: nat, ran: Goroutine)
    requires k < |goroutines| && goroutines[k].status.NotRun? && ran.status.Ran?
    ensures RanBatches(goroutines[k := ran]) == RanBatches(goroutines) + multiset{ran.packets}
  {
    var n := |goroutines| - 1;
    var before, last := goroutines[..n], goroutines[n];
    assert goroutines == before + [last];
    RanAppend(before, last);
    if k == n {
      assert goroutines[k := ran] == before + [ran];
      RanAppend(before, ran);
    } else {
      assert goroutines[k := ran] == before[k := ran] + [last];
      RanAppend(before[k := ran], last);
      OneMoreRan(before, k, ran);
    }
  }

  lemma SameFlushes(core: Core, j: nat, ok: bool)
    requires j < |core.exits| && core.exits[j].dispatched
    ensures var exits := RelayBatch(core, j, ok).exits;
            && Sum(exits, FlushedExit) == Sum(core.exits, FlushedExit)
            && forall e :: e in exits && !e.dispatched ==> e in core.exits
  {
    SumUpdate(core.exits, j, core.exits[j].(stage := Finished(ok)), FlushedExit);
  }

  lemma {:induction false} RanBatchesCount(goroutines: seq<Goroutine>)
    ensures |RanBatches(goroutines)| == RanCount(goroutines)
  {
    if goroutines != [] {
      RanBatchesCount(goroutines[..|goroutines| - 1]);
    }
  }

  lemma {:induction false} RanBatchIn(goroutines: seq<Goroutine>, k: nat)
    requires k < |goroutines| && goroutines[k].status.Ran?
    ensures goroutines[k].packets in RanBatches(goroutines)
  {
    if k < |goroutines| - 1 {
      RanBatchIn(goroutines[..|goroutines| - 1], k);
    }
  }

  lemma AddedRecorded(queueSize: int, selfRelay: bool, m: Model, packet: Packet)
    requires Recorded(selfRelay, m)
    ensures Recorded(selfRelay, Added(queueSize, m, packet))
  {
    var g, e := Goroutine(m.core.queue + [packet], NotRun), Exit(m.core.queue + [packet], true, Spawned);
    assert (m.goroutines + [g])[..|m.goroutines|] == m.goroutines;
    SumAppend(m.core.exits, e, FlushedExit);
  }

  lemma RanRecorded(selfRelay: bool, m: Model, k: nat, ok: bool)
    requires Recorded(selfRelay, m) && CanRun(m, k) && m.goroutines[k].status.NotRun?
    requires m.core.exits[m.tickets[k]].dispatched
    ensures Recorded(selfRelay, GoroutineRan(selfRelay, m, k, ok))
  {
    OneMoreRan(m.goroutines, k, Goroutine(m.goroutines[k].packets, Ran(ok)));
    SameFlushes(m.core, m.tickets[k], ok);
  }

  lemma QueueRelayedRecorded(selfRelay: bool, m: Model, ok: bool)
    requires Recorded(selfRelay, m) && m.core.queue != []
    ensures Recorded(selfRelay, QueueRelayed(selfRelay, m, ok))
  {
    SumAppend(m.flushes, m.core.queue, Length);
    SumAppend(m.core.exits, Exit(m.core.queue, false, Finished(true)), FlushedExit);
  }

  /** When relaying ourselves there are exactly as many calls as goroutines that have run and flushes that relayed, and
      every batch whose relaying is over, successfully or not, was the subject of a call. */
  lemma EveryRelayIsCalled(queueSize: int, selfRelay: bool, m: Model)
    requires Consistent(queueSize, m) && Recorded(selfRelay, m) && selfRelay
    ensures |m.calls| == |m.relayed| == RanCount(m.goroutines) + |m.flushes|
    ensures forall e :: e in m.core.exits && e.stage.Finished? ==> e.packets in m.relayed
  {
    RanBatchesCount(m.goroutines);
    assert |multiset(m.relayed)| == |m.relayed| && |multiset(m.flushes)| == |m.flushes|;
    forall e | e in m.core.exits && e.stage.Finished?
      ensures e.packets in multiset(m.relayed)
    {
      var j: nat :| j < |m.core.exits| && m.core.exits[j] == e;
      if e.dispatched {
        var k :| 0 <= k < |m.tickets| && m.tickets[k] == j;
        RanBatchIn(m.goroutines, k);
      } else {
        assert e.packets in multiset(m.flushes);
      }
    }
  }

  /** Between critical sections no batch is half relayed. */
  lemma NotRelaying(queueSize: int, m: Model, e: Exit)
    requires Consistent(queueSize, m) && e in m.core.exits
    ensures e.stage != Running
  {
    var j: nat :| j < |m.core.exits| && m.core.exits[j] == e;
    assert WellFormedExit(queueSize, e);
    assert e.dispatched ==> exists k :: 0 <= k < |m.tickets| && m.tickets[k] == j;
  }

  lemma NothingRuns(queueSize: int, m: Model)
    requires Consistent(queueSize, m)
    ensures Sum(m.core.exits, RunningSize) == 0
  {
    forall e | e in m.core.exits
      ensures RunningSize(e) == 0
    {
      NotRelaying(queueSize, m, e);
    }
    SumZero(m.core.exits, RunningSize);
  }

  lemma AllRan(queueSize: int, m: Model)
    requires Consistent(queueSize, m) && forall k :: 0 <= k < |m.goroutines| ==> m.goroutines[k].status.Ran?
    ensures AllReturned(m.core.exits) && (AllSucceeded(m.core.exits) <==> !m.groupFailed)
    ensures m.core.queue == [] && !m.groupFailed ==> m.core.relaysCompleted == |m.core.added|
  {
    GroupOutcome(queueSize, m.goroutines, m.tickets, m.core, m.groupFailed);
    if m.core.queue == [] && !m.groupFailed {
      AllRelayed(queueSize, m.core);
    }
  }

  /** Between two calls the object is a queue of the protocol, so what holds of every such queue holds of it: no packet
      is lost or duplicated, and batches leave in the order of Add. */
  lemma ObjectIsQueue(queueSize: int, m: Model)
    requires Consistent(queueSize, m)
    ensures Theorems.Reachable(queueSize, Calls.Single(m.core, Protocol.Idle))
    ensures multiset(m.core.added) ==
            multiset(m.core.queue) + Theorems.Bag(m.core.exits, Theorems.Waiting)
            + Theorems.Bag(m.core.exits, Failed) + Theorems.Bag(m.core.exits, Succeeded)
    ensures Flatten(PacketsOf(m.core.exits)) + m.core.queue == m.core.added
  {
    Theorems.Conservation(queueSize, Calls.Single(m.core, Protocol.Idle));
    forall e | e in m.core.exits
      ensures !Theorems.InFlight(e)
    {
      NotRelaying(queueSize, m, e);
    }
    Theorems.EmptyBag(m.core.exits, Theorems.InFlight);
  }

  class RelayerQueue {
    const queueSize: int
    const selfRelay: bool

    var queue: seq<Packet>
    var currentlyRelaying: int
    var relaysCompleted: int
    var goroutines: seq<Goroutine>
    var groupFailed: bool
    var relayCalls: seq<RelayCall>

    ghost var model: Model

    ghost predicate FieldsMatch()
      reads this
    {
      && model.core.queue == queue
      && model.core.currentlyRelaying == currentlyRelaying
      && model.core.relaysCompleted == relaysCompleted
      && model.goroutines == goroutines
      && model.groupFailed == groupFailed
      && model.calls == relayCalls
    }

    ghost predicate Valid()
      reads this
    {
      FieldsMatch() && Consistent(queueSize, model) && Recorded(selfRelay, model)
    }

    constructor (queueSize: int, selfRelay: bool)
      ensures Valid() && model == Model(EmptyCore, [], [], false, [], [], [])
      ensures this.queueSize == queueSize && this.selfRelay == selfRelay
    {
      this.queueSize, this.selfRelay := queueSize, selfRelay;
      Calls.NewArises(queueSize);
      queue, currentlyRelaying, relaysCompleted := [], 0, 0;
      goroutines, groupFailed, relayCalls := [], false, [];
      model := Model(EmptyCore, [], [], false, [], [], []);
      assert PacketsOf(EmptyCore.exits) == [];
    }

    /** Appends the packet, and starts a goroutine with a copy of the queue when it is long enough. */
    method Add(packet: Packet)
      requires Valid()
      modifies this
      ensures Valid() && model == Added(queueSize, old(model), packet)
    {
      AddedConsistent(queueSize, model, packet);
      AddedRecorded(queueSize, selfRelay, model, packet);
      Append(packet);
    }

    method Append(packet: Packet)
      requires FieldsMatch()
      modifies this
      ensures FieldsMatch() && model == Added(queueSize, old(model), packet)
    {
      queue := queue + [packet];
      if |queue| >= queueSize {
        var queueCopy := queue;
        goroutines := goroutines + [Goroutine(queueCopy, NotRun)];
        queue := [];
      }
      model := Added(queueSize, model, packet);
    }

    /** The three counters; the second one is exactly the packets of failed attempts. */
    method GetStatus() returns (inQueue: nat, relaying: int, completed: int)
      requires Valid()
      ensures inQueue == |queue| && relaying == currentlyRelaying && completed == relaysCompleted
      ensures completed == Sum(model.core.exits, SucceededSize)
      ensures relaying == Sum(model.core.exits, FailedSize) + model.core.failedFlushes
      ensures inQueue + completed <= |model.core.added|
    {
      StagesPartition(model.core.exits);
      NothingRuns(queueSize, model);
      inQueue, relaying, completed := |queue|, currentlyRelaying, relaysCompleted;
    }

    /** Relays a batch: by Relayer.Relay when relaying ourselves, otherwise by waiting for the receipts. A failed
        relay leaves its packets in currentlyRelaying. */
    method Relay(packets: seq<Packet>, env: Environment) returns (ok: bool)
      requires packets != [] && FieldsMatch() && env.world.Passes()
      modifies this`currentlyRelaying, this`relaysCompleted, this`relayCalls, this`model
      ensures FieldsMatch()
      ensures model == Called(selfRelay, old(model), packets)
                       .(core := EndRelay(BeginRelay(old(model).core, packets), packets, ok))
      ensures !selfRelay ==> relayCalls == old(relayCalls)
      ensures selfRelay ==>
                && |relayCalls| == |old(relayCalls)| + 1 && old(relayCalls) <= relayCalls
                && var call := relayCalls[|old(relayCalls)|];
                   && call.srcClient == packets[0].sourceClient && call.dstClient == packets[0].destinationClient
                   && |call.txIds| == |packets|
                   && forall i :: 0 <= i < |packets| ==> call.txIds[i] == packets[i].txHash
      ensures ok <==> if selfRelay then env.relayOk else ConfirmedInTime(env.world, packets)
    {
      currentlyRelaying := currentlyRelaying + |packets|;
      if selfRelay {
        var txIds := HashesOf(packets);
        relayCalls := relayCalls + [RelayCall(packets[0].sourceClient, packets[0].destinationClient, txIds)];
        ok := env.relayOk;
      } else {
        var waiting, rounds := WaitForReceipts(packets, env.world);
        ok := |waiting| == 0;
      }
      model := Called(selfRelay, model, packets)
               .(core := EndRelay(BeginRelay(model.core, packets), packets, ok));
      if !ok {
        return;
      }
      relaysCompleted := relaysCompleted + |packets|;
      currentlyRelaying := currentlyRelaying - |packets|;
    }

    method RunBody(k: nat, env: Environment) returns (ok: bool)
      requires FieldsMatch() && CanRun(model, k) && env.world.Passes()
      modifies this
      ensures FieldsMatch() && model == GoroutineRan(selfRelay, old(model), k, ok)
      ensures ok <==> if selfRelay then env.relayOk else ConfirmedInTime(env.world, old(goroutines[k].packets))
    {
      ghost var before := model;
      ok := Relay(goroutines[k].packets, env);
      goroutines := goroutines[k := Goroutine(goroutines[k].packets, Ran(ok))];
      groupFailed := groupFailed || !ok;
      model := GoroutineRan(selfRelay, before, k, ok);
    }

    /** Runs one goroutine of the errgroup to its end. */
    method RunGoroutine(k: nat, env: Environment) returns (ok: bool)
      requires Valid() && k < |goroutines| && goroutines[k].status.NotRun? && env.world.Passes()
      modifies this
      ensures Valid()
      ensures CanRun(old(model), k) && model == GoroutineRan(selfRelay, old(model), k, ok)
      ensures Calls.CanRelay(old(model).core, old(model).tickets[k])
      ensures ok <==> if selfRelay then env.relayOk else ConfirmedInTime(env.world, old(goroutines[k].packets))
      ensures Calls.SamePackets(old(model).core, model.core)
    {
      ghost var before := model;
      RanConsistent(queueSize, selfRelay, before, k, true);
      RanConsistent(queueSize, selfRelay, before, k, false);
      RanRecorded(selfRelay, before, k, true);
      RanRecorded(selfRelay, before, k, false);
      ok := RunBody(k, env);
    }

    /** Runs a goroutine that has not run yet, and adds it to a history of such runs. */
    method FinishGoroutine(k: nat, env: Environment, ghost core: Core, ghost before: seq<(nat, bool)>)
      returns (ghost runs: seq<(nat, bool)>)
      requires Valid() && k < |goroutines| && env.world.Passes()
      requires Calls.RelayBatches(core, before) == Some(model.core)
      modifies this
      ensures Valid() && |goroutines| == old(|goroutines|) && goroutines[k].status.Ran?
      ensures forall l :: 0 <= l < |goroutines| && l != k ==> goroutines[l] == old(goroutines[l])
      ensures Calls.RelayBatches(core, runs) == Some(model.core)
    {
      runs := before;
      if goroutines[k].status.NotRun? {
        ghost var start := model;
        var ok := RunGoroutine(k, env);
        Calls.OneMoreBatch(core, before, start.core, start.tickets[k], ok);
        runs := before + [(start.tickets[k], ok)];
      }
    }

    /** errgroup.Wait: the goroutines that have not finished do so; the group's error, if any, is returned. `runs` are
        the batches they relay, with their outcomes. */
    method Wait(env: nat -> Environment) returns (ok: bool, ghost runs: seq<(nat, bool)>)
      requires Valid() && forall k: nat :: env(k).world.Passes()
      modifies this
      ensures Valid()
      ensures AllReturned(model.core.exits) && (ok <==> AllSucceeded(model.core.exits))
      ensures Calls.SamePackets(old(model).core, model.core)
      ensures ok && queue == [] ==> model.core.relaysCompleted == |model.core.added|
      ensures Calls.RelayBatches(old(model).core, runs) == Some(model.core)
    {
      runs := [];
      var k := 0;
      while k < |goroutines|
        invariant Valid() && 0 <= k <= |goroutines|
        invariant forall l :: 0 <= l < k ==> goroutines[l].status.Ran?
        invariant Calls.RelayBatches(old(model).core, runs) == Some(model.core)
        decreases |goroutines| - k
      {
        runs := FinishGoroutine(k, env(k), old(model).core, runs);
        k := k + 1;
      }
      Calls.BatchesMoveNothing(old(model).core, runs);
      AllRan(queueSize, model);
      ok := !groupFailed;
    }

    /** Flush's own relay, of a queue that is not empty. */
    method FlushQueue(env: Environment) returns (ok: bool)
      requires FieldsMatch() && queue != [] && env.world.Passes()
      modifies this
      ensures FieldsMatch() && model == QueueRelayed(selfRelay, old(model), ok)
      ensures queue == if ok then [] else old(queue)
    {
      ghost var before := model;
      var queueCopy := queue;
      ok := Relay(queueCopy, env);
      model := QueueRelayed(selfRelay, before, ok);
      if !ok {
        return;
      }
      queue := [];
    }

    /** Relays what is queued, or waits for the batches started earlier. A failed relay keeps the queue; a flush that
        waits and returns nil has seen every packet ever added relayed. */
    method Flush(env: Environment, rest: nat -> Environment) returns (ok: bool, ghost runs: seq<(nat, bool)>)
      requires Valid() && env.world.Passes() && forall k: nat :: rest(k).world.Passes()
      modifies this
      ensures Valid()
      ensures old(queue) != [] ==>
                model == QueueRelayed(selfRelay, old(model), ok) && (!ok ==> queue == old(queue))
      ensures old(queue) == [] ==>
                && AllReturned(model.core.exits) && (ok <==> AllSucceeded(model.core.exits))
                && Calls.SamePackets(old(model).core, model.core)
                && (ok ==> model.core.relaysCompleted == |model.core.added|)
                && Calls.RelayBatches(old(model).core, runs) == Some(model.core)
      ensures ok ==> queue == []
    {
      if |queue| > 0 {
        QueueRelayedConsistent(queueSize, selfRelay, model, true);
        QueueRelayedConsistent(queueSize, selfRelay, model, false);
        QueueRelayedRecorded(selfRelay, model, true);
        QueueRelayedRecorded(selfRelay, model, false);
        runs := [];
        ok := FlushQueue(env);
      } else {
        ok, runs := Wait(rest);
      }
    }
  }

  /** If all packets ever added share one pair of clients, every call of Relayer.Relay names that pair, whichever
      packet of its batch came first. */
  lemma SharedClients(calls: seq<RelayCall>, relayed: seq<seq<Packet>>, added: seq<Packet>, src: string, dst: string)
    requires CallsMatch(calls, relayed, added)
    requires forall p :: p in added ==> p.sourceClient == src && p.destinationClient == dst
    ensures forall k :: 0 <= k < |calls| ==>
              && calls[k].srcClient == src && calls[k].dstClient == dst
              && |calls[k].txIds| == |relayed[k]| > 0
              && forall i :: 0 <= i < |relayed[k]| ==>
                   && relayed[k][i].sourceClient == calls[k].srcClient
                   && relayed[k][i].destinationClient == calls[k].dstClient
                   && relayed[k][i].txHash == calls[k].txIds[i]
  {
    forall k | 0 <= k < |calls|
      ensures relayed[k][0].sourceClient == src && relayed[k][0].destinationClient == dst
    {
      assert relayed[k][0] in relayed[k];
    }
  }

  /** The `txIDs` loop of relay. */
  method HashesOf(packets: seq<Packet>) returns (txIds: seq<string>)
    ensures txIds == TxIds(packets)
  {
    var hashes := new string[|packets|];
    for i := 0 to |packets|
      invariant forall k :: 0 <= k < i ==> hashes[k] == packets[k].txHash
    {
      hashes[i] := packets[i].txHash;
    }
    txIds := hashes[..];
  }
}
