/** What holds of a relay queue in every state that any callers can bring it to. */
module RelayQueueTheorems {
  import opened Wrappers
  import opened Sequences
  import opened Ibc
  import opened RelayQueueCore
  import opened RelayQueueProtocol

  /** The state after a schedule, if every step of the schedule was possible when it was taken. */
  function Run(queueSize: int, q: Queue, schedule: seq<Action>): Option<Queue> {
    Fold(Next(queueSize), q, schedule)
  }

  function Next(queueSize: int): (Queue, Action) -> Option<Queue> {
    (q: Queue, a: Action) => if Enabled(q, a) then Some(Apply(queueSize, q, a)) else None
  }

  lemma {:induction false} RunInv(queueSize: int, q: Queue, schedule: seq<Action>)
    requires QueueInv(queueSize, q) && Run(queueSize, q, schedule).Some?
    ensures QueueInv(queueSize, Run(queueSize, q, schedule).value)
  {
    if schedule != [] {
      var before := schedule[..|schedule| - 1];
      RunInv(queueSize, q, before);
      StepInv(queueSize, Run(queueSize, q, before).value, schedule[|schedule| - 1]);
    }
  }

  ghost predicate Reachable(queueSize: int, q: Queue) {
    exists callers: nat, schedule :: Run(queueSize, Init(callers), schedule) == Some(q)
  }

  lemma ReachableInv(queueSize: int, q: Queue)
    requires Reachable(queueSize, q)
    ensures QueueInv(queueSize, q)
  {
    var callers: nat, schedule :| Run(queueSize, Init(callers), schedule) == Some(q);
    InitInv(queueSize, callers);
    RunInv(queueSize, Init(callers), schedule);
  }

  // Conservation and order.

  ghost function Bag(exits: seq<Exit>, keep: Exit -> bool): multiset<Packet> {
    if exits == [] then multiset{}
    else
      var last := exits[|exits| - 1];
      Bag(exits[..|exits| - 1], keep) + if keep(last) then multiset(last.packets) else multiset{}
  }

  predicate Waiting(e: Exit) { e.stage == Spawned || e.stage == Pending }

  predicate InFlight(e: Exit) { e.stage == Running }

  lemma {:induction false} BagPartition(exits: seq<Exit>)
    ensures multiset(Flatten(PacketsOf(exits))) ==
            Bag(exits, Waiting) + Bag(exits, InFlight) + Bag(exits, Failed) + Bag(exits, Succeeded)
  {
    if exits != [] {
      var n := |exits| - 1;
      BagPartition(exits[..n]);
      assert PacketsOf(exits)[..n] == PacketsOf(exits[..n]);
    }
  }

  /** No packet is lost or duplicated: what was added is, packet for packet, queued, waiting in a batch, being
      relayed, in a failed batch, or relayed. A packet in a failed Flush is still queued. */
  lemma Conservation(queueSize: int, q: Queue)
    requires Reachable(queueSize, q)
    ensures multiset(q.core.added) ==
            multiset(q.core.queue) + Bag(q.core.exits, Waiting) + Bag(q.core.exits, InFlight)
            + Bag(q.core.exits, Failed) + Bag(q.core.exits, Succeeded)
  {
    ReachableInv(queueSize, q);
    BagPartition(q.core.exits);
  }

  lemma {:induction false} EmptyBag(exits: seq<Exit>, keep: Exit -> bool)
    requires forall e :: e in exits ==> !keep(e)
    ensures Bag(exits, keep) == multiset{}
  {
    if exits != [] {
      EmptyBag(exits[..|exits| - 1], keep);
    }
  }

  lemma {:induction false} UniformSizes(exits: seq<Exit>, k: nat)
    requires forall j :: 0 <= j < |exits| ==> |exits[j].packets| == k
    ensures |Flatten(PacketsOf(exits))| == |exits| * k
  {
    if exits != [] {
      var n := |exits| - 1;
      UniformSizes(exits[..n], k);
      assert PacketsOf(exits)[..n] == PacketsOf(exits[..n]);
      assert |exits| * k == n * k + k;
    }
  }

  /** What left the queue, in the order it left, followed by the queue, is what was added, in the order of Add.
      The queue stays below the threshold, every batch has exactly the threshold, and as long as no Flush has
      emptied the queue, n packets make n / threshold batches and leave n % threshold in the queue. */
  lemma FifoBatching(queueSize: int, q: Queue)
    requires Reachable(queueSize, q)
    ensures Flatten(PacketsOf(q.core.exits)) + q.core.queue == q.core.added
    ensures Threshold(queueSize) == if queueSize >= 1 then queueSize else 1
    ensures |q.core.queue| < Threshold(queueSize)
    ensures forall e :: e in q.core.exits && e.dispatched ==> |e.packets| == Threshold(queueSize)
    ensures (forall e :: e in q.core.exits ==> e.dispatched) ==>
              && |q.core.exits| == |q.core.added| / Threshold(queueSize)
              && |q.core.queue| == |q.core.added| % Threshold(queueSize)
  {
    ReachableInv(queueSize, q);
    if forall e :: e in q.core.exits ==> e.dispatched {
      UniformSizes(q.core.exits, Threshold(queueSize));
      DivMod(|q.core.added|, Threshold(queueSize), |q.core.exits|, |q.core.queue|);
    }
  }

  lemma DivMod(n: nat, d: nat, quotient: nat, rest: nat)
    requires n == quotient * d + rest && rest < d
    ensures quotient == n / d && rest == n % d
  {
    var k := n / d - quotient;
    assert n / d * d + n % d == n;
    assert k * d == rest - n % d;
    assert k >= 1 ==> k * d >= d;
    assert k <= -1 ==> k * d + d <= 0;
  }

  // Mutual exclusion and the counters.

  /** At most one relay is under way, and none while a caller of Status reads the counters. */
  lemma RelayExclusion(queueSize: int, q: Queue, o: RelayOwner, o': RelayOwner)
    requires Reachable(queueSize, q)
    requires OwnerAt(q, o, Running) && (OwnerAt(q, o', Running) || OwnerAt(q, o', Returned(true)))
    ensures o == o'
    ensures forall c: nat :: c < |q.calls| ==> !q.calls[c].StatusBoth?
  {
    ReachableInv(queueSize, q);
    assert q.relayMutex.writer == Held(o) && q.relayMutex.writer == Held(o');
    assert q.relayMutex.granted;
  }

  /** While relayMutex is not granted to a writer, no relay is between its first and its last counter update. */
  lemma NothingRelaying(queueSize: int, q: Queue)
    requires QueueInv(queueSize, q) && !q.relayMutex.granted
    ensures Sum(q.calls, FlushedSize) == 0 && Sum(q.calls, FlushingSize) == 0
    ensures Sum(q.core.exits, RunningSize) == 0
  {
    forall call | call in q.calls
      ensures FlushedSize(call) == 0 && FlushingSize(call) == 0
    {
      var c: nat :| c < |q.calls| && q.calls[c] == call;
      assert WritesRelay(call) ==> q.relayMutex.writer == Held(Flusher(c));
    }
    SumZero(q.calls, FlushedSize);
    SumZero(q.calls, FlushingSize);
    forall e | e in q.core.exits
      ensures RunningSize(e) == 0
    {
      var j: nat :| j < |q.core.exits| && q.core.exits[j] == e;
      assert Relays(e) ==> q.relayMutex.writer == Held(Goroutine(j));
    }
    SumZero(q.core.exits, RunningSize);
  }

  lemma ReadingIsExact(queueSize: int, q: Queue, c: nat)
    requires QueueInv(queueSize, q) && c < |q.calls| && q.calls[c].StatusBoth?
    ensures q.core.currentlyRelaying == Sum(q.core.exits, FailedSize) + q.core.failedFlushes
    ensures q.core.relaysCompleted == Sum(q.core.exits, SucceededSize)
    ensures |q.core.queue| + q.core.relaysCompleted + Sum(q.core.exits, FailedSize) + Sum(q.core.exits, PendingSize)
            == |q.core.added|
  {
    assert c in q.relayMutex.readers;
    NothingRelaying(queueSize, q);
    StagesPartition(q.core.exits);
  }

  /** What Status returns when it reads: the queue's length, the packets of failed attempts and nothing else,
      and the packets of the successful ones. Queue, failed batches, relayed packets and batches that have not
      started add up to everything that was added. */
  lemma StatusMeaning(queueSize: int, q: Queue, c: nat)
    requires Reachable(queueSize, q) && Enabled(q, ReadStatus(c))
    ensures var r := Apply(queueSize, q, ReadStatus(c)).calls[c].report;
            && r.inQueue == |q.core.queue|
            && r.relaying == Sum(q.core.exits, FailedSize) + q.core.failedFlushes
            && r.completed == Sum(q.core.exits, SucceededSize)
            && r.inQueue + r.completed + Sum(q.core.exits, FailedSize) + Sum(q.core.exits, PendingSize)
               == |q.core.added|
  {
    ReachableInv(queueSize, q);
    ReadingIsExact(queueSize, q, c);
  }

  // Flush.

  /** A waiting Flush returns nil exactly if no batch has failed; then everything ever added has been relayed. */
  lemma WaitingFlush(queueSize: int, q: Queue, c: nat)
    requires Reachable(queueSize, q) && Enabled(q, JoinGroup(c))
    ensures var q' := Apply(queueSize, q, JoinGroup(c));
            && q'.calls[c] == FlushLeaving(forall e :: e in q.core.exits ==> !Failed(e))
            && (q'.calls[c].ok ==> q.core.queue == [] && q.core.relaysCompleted == |q.core.added|)
  {
    ReachableInv(queueSize, q);
    assert FlushMatches(q.calls[c], q.core.queue);
    assert q.queueMutex.writer == Held(c);
    if AllSucceeded(q.core.exits) {
      AllDone(queueSize, q);
      assert forall e :: e in q.core.exits ==> !Failed(e);
    } else {
      var j :| 0 <= j < |q.core.exits| && q.core.exits[j].stage != Finished(true);
      assert q.core.exits[j] in q.core.exits && Failed(q.core.exits[j]);
    }
  }

  lemma AllDone(queueSize: int, q: Queue)
    requires QueueInv(queueSize, q) && AllSucceeded(q.core.exits) && q.core.queue == []
    ensures q.core.relaysCompleted == |q.core.added|
  {
    forall call | call in q.calls
      ensures FlushedSize(call) == 0
    {
      var c: nat :| c < |q.calls| && q.calls[c] == call;
      assert FlushMatches(call, q.core.queue);
    }
    SumZero(q.calls, FlushedSize);
    AllSucceededSums(q.core.exits);
    StagesPartition(q.core.exits);
  }

  lemma NoCopies(q: Queue)
    requires FlushInv(q.calls, q.core.queue) && q.core.queue == []
    ensures forall d: nat :: d < |q.calls| ==> !HasCopy(q.calls[d])
  {
    assert forall d: nat :: d < |q.calls| ==> FlushMatches(q.calls[d], q.core.queue);
  }

  /** Nothing has been added or dispatched, and c still waits. */
  ghost predicate StillWaiting(q: Queue, c: nat, q': Queue) {
    && c < |q'.calls| && q'.calls[c].FlushWaiting?
    && PacketsOf(q'.core.exits) == PacketsOf(q.core.exits)
    && q'.core.added == q.core.added && q'.core.queue == []
  }

  lemma WaitingGoroutine(queueSize: int, q: Queue, c: nat, a: Action)
    requires Enabled(q, a) && RelayStep(a) && a.owner.Goroutine?
    requires c < |q.calls| && q.calls[c].FlushWaiting? && q.core.queue == []
    ensures StillWaiting(q, c, Apply(queueSize, q, a))
  {
    var j := a.owner.batch;
    ChangeStage(q.core.exits, j, Apply(queueSize, q, a).core.exits[j].stage);
  }

  /** A caller who is not inside queueMutex touches the data only to read it. */
  lemma WaitingCaller(queueSize: int, q: Queue, c: nat, a: Action)
    requires Enabled(q, a) && !RelayStep(a) && a != JoinGroup(c)
    requires forall d: nat :: d < |q.calls| && WritesQueue(q.calls[d]) ==> d == c
    requires c < |q.calls| && q.calls[c].FlushWaiting? && q.core.queue == []
    ensures StillWaiting(q, c, Apply(queueSize, q, a))
  {
    assert Apply(queueSize, q, a).core == q.core;
  }

  lemma WaitingStep(queueSize: int, q: Queue, c: nat, a: Action)
    requires QueueMutexInv(q.calls, q.queueMutex) && FlushInv(q.calls, q.core.queue)
    requires Enabled(q, a) && a != JoinGroup(c)
    requires c < |q.calls| && q.calls[c].FlushWaiting?
    ensures StillWaiting(q, c, Apply(queueSize, q, a))
  {
    assert q.queueMutex.writer == Held(c);
    assert FlushMatches(q.calls[c], q.core.queue);
    NoCopies(q);
    if !RelayStep(a) {
      WaitingCaller(queueSize, q, c, a);
    } else if a.owner.Goroutine? {
      WaitingGoroutine(queueSize, q, c, a);
    }
  }

  /** From the moment a Flush waits for the errgroup until it stops waiting, whatever the other callers do,
      nothing is added and no batch is dispatched. */
  lemma {:induction false} NoDispatchWhileWaiting(queueSize: int, q: Queue, c: nat, schedule: seq<Action>)
    requires QueueInv(queueSize, q) && c < |q.calls| && q.calls[c].FlushWaiting?
    requires Run(queueSize, q, schedule).Some? && JoinGroup(c) !in schedule
    ensures var q' := Run(queueSize, q, schedule).value;
            && c < |q'.calls| && q'.calls[c].FlushWaiting?
            && PacketsOf(q'.core.exits) == PacketsOf(q.core.exits)
            && q'.core.added == q.core.added
  {
    if schedule != [] {
      var before := schedule[..|schedule| - 1];
      NoDispatchWhileWaiting(queueSize, q, c, before);
      RunInv(queueSize, q, before);
      WaitingStep(queueSize, Run(queueSize, q, before).value, c, schedule[|schedule| - 1]);
    }
  }

  /** Steps never add or remove callers, never revive a failed batch, and fill the queue only in Add. */
  lemma StepFrame(queueSize: int, q: Queue, a: Action)
    requires Enabled(q, a)
    ensures var q' := Apply(queueSize, q, a);
            && |q'.calls| == |q.calls|
            && |q'.core.exits| >= |q.core.exits|
            && (!a.AddBody? && q.core.queue == [] ==> q'.core.queue == [])
  {
  }

  lemma FailedStep(queueSize: int, q: Queue, a: Action, j: nat)
    requires Enabled(q, a) && j < |q.core.exits| && Failed(q.core.exits[j])
    ensures var q' := Apply(queueSize, q, a);
            && j < |q'.core.exits| && Failed(q'.core.exits[j])
            && q'.core.exits[j].packets == q.core.exits[j].packets
  {
  }

  lemma {:induction false} FailureStays(queueSize: int, q: Queue, j: nat, schedule: seq<Action>)
    requires j < |q.core.exits| && Failed(q.core.exits[j]) && Run(queueSize, q, schedule).Some?
    ensures var q' := Run(queueSize, q, schedule).value;
            && j < |q'.core.exits| && Failed(q'.core.exits[j])
            && q'.core.exits[j].packets == q.core.exits[j].packets
  {
    if schedule != [] {
      var before := schedule[..|schedule| - 1];
      FailureStays(queueSize, q, j, before);
      FailedStep(queueSize, Run(queueSize, q, before).value, schedule[|schedule| - 1], j);
    }
  }

  /** One failed batch is remembered for good: every Flush that waits later returns an error. */
  lemma FailureSticks(queueSize: int, q: Queue, j: nat, schedule: seq<Action>, c: nat)
    requires j < |q.core.exits| && Failed(q.core.exits[j]) && Run(queueSize, q, schedule).Some?
    ensures var q' := Run(queueSize, q, schedule).value;
            && j < |q'.core.exits| && Failed(q'.core.exits[j])
            && q'.core.exits[j].packets == q.core.exits[j].packets
            && (Enabled(q', JoinGroup(c)) ==> Apply(queueSize, q', JoinGroup(c)).calls[c] == FlushLeaving(false))
  {
    FailureStays(queueSize, q, j, schedule);
  }

  /** No Add changes the queue in between: an empty queue then stays empty, and a Flush can only return nil
      after it has seen every batch succeed. */
  ghost predicate NilMeansDone(q: Queue, c: nat) {
    && q.core.queue == []
    && c < |q.calls|
    && (q.calls[c] == FlushLeaving(true) ==> AllSucceeded(q.core.exits))
  }

  lemma NilMeansDoneRelay(queueSize: int, q: Queue, c: nat, a: Action)
    requires forall d: nat :: d < |q.calls| ==> !HasCopy(q.calls[d])
    requires Enabled(q, a) && RelayStep(a)
    requires NilMeansDone(q, c)
    ensures NilMeansDone(Apply(queueSize, q, a), c)
  {
  }

  lemma NilMeansDoneStep(queueSize: int, q: Queue, c: nat, a: Action)
    requires QueueInv(queueSize, q) && Enabled(q, a) && !a.AddBody? && NilMeansDone(q, c)
    ensures NilMeansDone(Apply(queueSize, q, a), c)
  {
    NoCopies(q);
    if RelayStep(a) {
      NilMeansDoneRelay(queueSize, q, c, a);
    } else {
      assert Apply(queueSize, q, a).core == q.core;
    }
  }

  lemma {:induction false} NilMeansDoneRun(queueSize: int, q: Queue, c: nat, schedule: seq<Action>)
    requires QueueInv(queueSize, q) && NilMeansDone(q, c)
    requires Run(queueSize, q, schedule).Some? && forall a :: a in schedule ==> !a.AddBody?
    ensures NilMeansDone(Run(queueSize, q, schedule).value, c)
  {
    if schedule != [] {
      var before := schedule[..|schedule| - 1];
      NilMeansDoneRun(queueSize, q, c, before);
      RunInv(queueSize, q, before);
      NilMeansDoneStep(queueSize, Run(queueSize, q, before).value, c, schedule[|schedule| - 1]);
    }
  }

  /** Two nil flushes in a row complete everything: if a Flush (of any caller) is about to return nil, no Add
      takes effect afterwards, and a Flush that looks at the queue later is about to return nil too, then every
      packet ever added has been relayed. */
  lemma TwoNilFlushes(queueSize: int, q: Queue, first: nat, second: nat, gap: seq<Action>, rest: seq<Action>)
    requires Reachable(queueSize, q) && first < |q.calls| && q.calls[first] == FlushLeaving(true)
    requires Run(queueSize, q, gap + [FlushBody(second)] + rest).Some?
    requires forall a :: a in gap + rest ==> !a.AddBody?
    ensures var q' := Run(queueSize, q, gap + [FlushBody(second)] + rest).value;
            second < |q'.calls| && (q'.calls[second] == FlushLeaving(true) ==>
              AllSucceeded(q'.core.exits) && q'.core.queue == [] && q'.core.relaysCompleted == |q'.core.added|)
  {
    ReachableInv(queueSize, q);
    assert FlushMatches(q.calls[first], q.core.queue);
    PrefixesRun(queueSize, q, gap, FlushBody(second), rest);
    var looked := Run(queueSize, q, gap + [FlushBody(second)]).value;
    var q' := Run(queueSize, looked, rest).value;
    EmptyQueueRun(queueSize, q, gap);
    RunInv(queueSize, q, gap);
    RunInv(queueSize, q, gap + [FlushBody(second)]);
    assert (gap + [FlushBody(second)])[..|gap|] == gap;
    NilMeansDoneRun(queueSize, looked, second, rest);
    RunInv(queueSize, looked, rest);
    if q'.calls[second] == FlushLeaving(true) {
      AllDone(queueSize, q');
    }
  }

  lemma PrefixesRun(queueSize: int, q: Queue, gap: seq<Action>, a: Action, rest: seq<Action>)
    requires Run(queueSize, q, gap + [a] + rest).Some?
    ensures Run(queueSize, q, gap).Some? && Enabled(Run(queueSize, q, gap).value, a)
    ensures Run(queueSize, q, gap + [a]) == Some(Apply(queueSize, Run(queueSize, q, gap).value, a))
    ensures Run(queueSize, q, gap + [a] + rest) == Run(queueSize, Run(queueSize, q, gap + [a]).value, rest)
  {
    FoldAppend(Next(queueSize), q, gap + [a], rest);
    assert (gap + [a])[..|gap|] == gap;
  }

  lemma {:induction false} EmptyQueueRun(queueSize: int, q: Queue, schedule: seq<Action>)
    requires QueueInv(queueSize, q) && q.core.queue == []
    requires Run(queueSize, q, schedule).Some? && forall a :: a in schedule ==> !a.AddBody?
    ensures Run(queueSize, q, schedule).value.core.queue == []
  {
    if schedule != [] {
      var before := schedule[..|schedule| - 1];
      EmptyQueueRun(queueSize, q, before);
      StepFrame(queueSize, Run(queueSize, q, before).value, schedule[|schedule| - 1]);
    }
  }

  /** With a queue size of one or less, as in the transfer command, every Flush that is about to return nil has
      seen every packet relayed. */
  lemma SmallQueueFlush(queueSize: int, q: Queue, c: nat)
    requires queueSize <= 1 && Reachable(queueSize, q) && c < |q.calls| && q.calls[c] == FlushLeaving(true)
    ensures AllSucceeded(q.core.exits) && q.core.queue == [] && q.core.relaysCompleted == |q.core.added|
  {
    ReachableInv(queueSize, q);
    var callers: nat, schedule :| Run(queueSize, Init(callers), schedule) == Some(q);
    CallersFixed(queueSize, Init(callers), schedule);
    InitInv(queueSize, callers);
    SmallQueueRun(queueSize, Init(callers), c, schedule);
    AllDone(queueSize, q);
  }

  lemma {:induction false} CallersFixed(queueSize: int, q: Queue, schedule: seq<Action>)
    requires Run(queueSize, q, schedule).Some?
    ensures |Run(queueSize, q, schedule).value.calls| == |q.calls|
  {
    if schedule != [] {
      var before := schedule[..|schedule| - 1];
      CallersFixed(queueSize, q, before);
      StepFrame(queueSize, Run(queueSize, q, before).value, schedule[|schedule| - 1]);
    }
  }

  lemma {:induction false} SmallQueueRun(queueSize: int, q: Queue, c: nat, schedule: seq<Action>)
    requires queueSize <= 1 && QueueInv(queueSize, q) && NilMeansDone(q, c)
    requires Run(queueSize, q, schedule).Some?
    ensures NilMeansDone(Run(queueSize, q, schedule).value, c)
  {
    if schedule != [] {
      var before := schedule[..|schedule| - 1];
      SmallQueueRun(queueSize, q, c, before);
      RunInv(queueSize, q, before);
      var r := Run(queueSize, q, before).value;
      var a := schedule[|schedule| - 1];
      if a.AddBody? {
        assert r.queueMutex.writer == Held(a.c);
        PacketsPreserved(queueSize, r, a);
      } else {
        NilMeansDoneStep(queueSize, r, c, a);
      }
    }
  }

  // What the object's methods do in one go is what the protocol does step by step.

  lemma RunFrom(queueSize: int, q: Queue, a: Action, q': Queue, rest: seq<Action>)
    requires Enabled(q, a) && Apply(queueSize, q, a) == q'
    ensures Run(queueSize, q, [a] + rest) == Run(queueSize, q', rest)
  {
    FoldCons(Next(queueSize), q, a, rest);
  }

  /** One whole relay of an owner that finds relayMutex free. */
  function RelaySchedule(owner: RelayOwner, ok: bool): seq<Action> {
    [LockRelay(owner), EnterRelay(owner), RelayResult(owner, ok), UnlockRelay(owner)]
  }

  lemma FourSteps(queueSize: int, q: Queue, owner: RelayOwner, ok: bool, q1: Queue, q2: Queue, q3: Queue, q4: Queue)
    requires Enabled(q, LockRelay(owner)) && Apply(queueSize, q, LockRelay(owner)) == q1
    requires Enabled(q1, EnterRelay(owner)) && Apply(queueSize, q1, EnterRelay(owner)) == q2
    requires Enabled(q2, RelayResult(owner, ok)) && Apply(queueSize, q2, RelayResult(owner, ok)) == q3
    requires Enabled(q3, UnlockRelay(owner)) && Apply(queueSize, q3, UnlockRelay(owner)) == q4
    ensures Run(queueSize, q, RelaySchedule(owner, ok)) == Some(q4)
  {
    var s4 := [UnlockRelay(owner)] + [];
    var s3 := [RelayResult(owner, ok)] + s4;
    var s2 := [EnterRelay(owner)] + s3;
    assert RelaySchedule(owner, ok) == [LockRelay(owner)] + s2;
    RunFrom(queueSize, q, LockRelay(owner), q1, s2);
    RunFrom(queueSize, q1, EnterRelay(owner), q2, s3);
    RunFrom(queueSize, q2, RelayResult(owner, ok), q3, s4);
    RunFrom(queueSize, q3, UnlockRelay(owner), q4, []);
  }

  /** relayMutex in the hands of an owner. */
  function Taken(owner: RelayOwner, granted: bool): RwMutex<RelayOwner> {
    RwMutex(Held(owner), granted, {})
  }

  lemma GoroutineAnnounces(queueSize: int, q: Queue, j: nat)
    requires q.relayMutex == Free()
    requires j < |q.core.exits| && q.core.exits[j].dispatched && q.core.exits[j].stage.Spawned?
    ensures Enabled(q, LockRelay(Goroutine(j)))
    ensures Apply(queueSize, q, LockRelay(Goroutine(j))) ==
            q.(core := SetStage(q.core, j, Pending), relayMutex := Taken(Goroutine(j), false))
  {
  }

  lemma GoroutineEnters(queueSize: int, q: Queue, j: nat)
    requires q.relayMutex == Taken(Goroutine(j), false)
    requires j < |q.core.exits| && q.core.exits[j].dispatched && q.core.exits[j].stage.Pending?
    ensures Enabled(q, EnterRelay(Goroutine(j)))
    ensures Apply(queueSize, q, EnterRelay(Goroutine(j))) ==
            q.(core := BeginRelay(SetStage(q.core, j, Running), q.core.exits[j].packets),
               relayMutex := Taken(Goroutine(j), true))
  {
    assert OwnerAt(q, Goroutine(j), Pending);
  }

  lemma GoroutineResult(queueSize: int, q: Queue, j: nat, ok: bool)
    requires j < |q.core.exits| && q.core.exits[j].dispatched && q.core.exits[j].stage.Running?
    ensures Enabled(q, RelayResult(Goroutine(j), ok))
    ensures Apply(queueSize, q, RelayResult(Goroutine(j), ok)) ==
            q.(core := EndRelay(SetStage(q.core, j, Returned(ok)), q.core.exits[j].packets, ok))
  {
    assert OwnerAt(q, Goroutine(j), Running);
  }

  lemma GoroutineLeaves(queueSize: int, q: Queue, j: nat, ok: bool)
    requires q.relayMutex == Taken(Goroutine(j), true)
    requires j < |q.core.exits| && q.core.exits[j].dispatched && q.core.exits[j].stage == Returned(ok)
    ensures Enabled(q, UnlockRelay(Goroutine(j)))
    ensures Apply(queueSize, q, UnlockRelay(Goroutine(j))) ==
            q.(core := SetStage(q.core, j, Finished(ok)), relayMutex := Free())
  {
    assert OwnerAt(q, Goroutine(j), Returned(ok));
  }

  /** A goroutine that finds relayMutex free relays its batch just as RelayBatch says. */
  lemma GoroutineRelays(queueSize: int, q: Queue, j: nat, ok: bool)
    requires q.relayMutex == Free()
    requires j < |q.core.exits| && q.core.exits[j].dispatched && q.core.exits[j].stage.Spawned?
    ensures Run(queueSize, q, RelaySchedule(Goroutine(j), ok)) == Some(q.(core := RelayBatch(q.core, j, ok)))
  {
    var g, packets := Goroutine(j), q.core.exits[j].packets;
    var pending := SetStage(q.core, j, Pending);
    var begun := BeginRelay(SetStage(pending, j, Running), packets);
    var ended := EndRelay(SetStage(begun, j, Returned(ok)), packets, ok);
    var q1 := q.(core := pending, relayMutex := Taken(g, false));
    var q2 := q.(core := begun, relayMutex := Taken(g, true));
    var q3 := q2.(core := ended);
    GoroutineAnnounces(queueSize, q, j);
    GoroutineEnters(queueSize, q1, j);
    GoroutineResult(queueSize, q2, j, ok);
    GoroutineLeaves(queueSize, q3, j, ok);
    BatchStages(q.core, j, ok);
    FourSteps(queueSize, q, g, ok, q1, q2, q3, q.(core := RelayBatch(q.core, j, ok)));
  }

  lemma FlusherAnnounces(queueSize: int, q: Queue, c: nat, copy: seq<Packet>)
    requires q.relayMutex == Free() && c < |q.calls| && q.calls[c] == FlushRelayWant(copy)
    ensures Enabled(q, LockRelay(Flusher(c)))
    ensures Apply(queueSize, q, LockRelay(Flusher(c))) ==
            At(q, c, FlushRelayPending(copy)).(relayMutex := Taken(Flusher(c), false))
  {
  }

  lemma FlusherEnters(queueSize: int, q: Queue, c: nat, copy: seq<Packet>)
    requires q.relayMutex == Taken(Flusher(c), false) && c < |q.calls| && q.calls[c] == FlushRelayPending(copy)
    ensures Enabled(q, EnterRelay(Flusher(c)))
    ensures Apply(queueSize, q, EnterRelay(Flusher(c))) ==
            At(q, c, FlushRelaying(copy)).(core := BeginRelay(q.core, copy), relayMutex := Taken(Flusher(c), true))
  {
    assert OwnerAt(q, Flusher(c), Pending);
  }

  lemma FlusherResult(queueSize: int, q: Queue, c: nat, copy: seq<Packet>, ok: bool)
    requires c < |q.calls| && q.calls[c] == FlushRelaying(copy)
    ensures Enabled(q, RelayResult(Flusher(c), ok))
    ensures var ended := EndRelay(q.core, copy, ok);
            Apply(queueSize, q, RelayResult(Flusher(c), ok)) ==
            At(q, c, FlushRelayReturned(copy, ok))
            .(core := if ok then ended else ended.(failedFlushes := ended.failedFlushes + |copy|))
  {
    assert OwnerAt(q, Flusher(c), Running);
  }

  lemma FlusherLeaves(queueSize: int, q: Queue, c: nat, copy: seq<Packet>, ok: bool)
    requires q.relayMutex == Taken(Flusher(c), true) && c < |q.calls| && q.calls[c] == FlushRelayReturned(copy, ok)
    ensures Enabled(q, UnlockRelay(Flusher(c)))
    ensures Apply(queueSize, q, UnlockRelay(Flusher(c))) ==
            At(q, c, FlushLeaving(ok)).(core := FinishFlush(q.core, copy, ok), relayMutex := Free())
  {
    assert OwnerAt(q, Flusher(c), Returned(ok));
  }

  /** A Flush that has decided to relay, and finds relayMutex free, does to the queue what RelayQueue says. */
  lemma FlushRelays(queueSize: int, q: Queue, c: nat, ok: bool)
    requires q.relayMutex == Free()
    requires c < |q.calls| && q.calls[c] == FlushRelayWant(q.core.queue)
    ensures Run(queueSize, q, RelaySchedule(Flusher(c), ok)) ==
            Some(At(q, c, FlushLeaving(ok)).(core := RelayQueue(q.core, ok)))
  {
    var f, copy := Flusher(c), q.core.queue;
    var begun := BeginRelay(q.core, copy);
    var ended := EndRelay(begun, copy, ok);
    var after := if ok then ended else ended.(failedFlushes := ended.failedFlushes + |copy|);
    var q1 := At(q, c, FlushRelayPending(copy)).(relayMutex := Taken(f, false));
    var q2 := At(q, c, FlushRelaying(copy)).(core := begun, relayMutex := Taken(f, true));
    var q3 := At(q, c, FlushRelayReturned(copy, ok)).(core := after, relayMutex := Taken(f, true));
    FlusherAnnounces(queueSize, q, c, copy);
    FlusherEnters(queueSize, q1, c, copy);
    FlusherResult(queueSize, q2, c, copy, ok);
    FlusherLeaves(queueSize, q3, c, copy, ok);
    AtTwice(q, c, FlushRelayPending(copy), FlushRelaying(copy));
    AtTwice(q, c, FlushRelaying(copy), FlushRelayReturned(copy, ok));
    AtTwice(q, c, FlushRelayReturned(copy, ok), FlushLeaving(ok));
    FourSteps(queueSize, q, f, ok, q1, q2, q3, At(q, c, FlushLeaving(ok)).(core := RelayQueue(q.core, ok)));
  }

  lemma AtTwice(q: Queue, c: nat, first: Call, second: Call)
    requires c < |q.calls|
    ensures q.calls[c := first][c := second] == q.calls[c := second]
  {
  }
}
