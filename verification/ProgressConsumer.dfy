/** The loop of `run` over the progress channel, and the percentages it shows. */
module ProgressConsumer {
  import opened Wrappers
  import opened LoadScript
  import opened LoadScriptMessages

  /** Go's integer division, which truncates toward zero. */
  function GoDiv(a: int, b: int): int
    requires b != 0
  {
    if a >= 0 then (if b > 0 then a / b else -(a / -b)) else (if b > 0 then -(-a / b) else -a / -b)
  }

  /** What a progress bar shows after it was given a value: it ignores what is not a percentage. */
  function Shown(before: int, percent: int): int {
    if 0 <= percent <= 100 then percent else before
  }

  class StatusModel {
    var percent: int

    ghost predicate Valid()
      reads this
    {
      0 <= percent <= 100
    }

    constructor ()
      ensures Valid() && percent == 0
    {
      percent := 0;
    }

    /** Whatever it is given, the bar goes on showing a percentage: the new one, or else the old one. */
    method UpdateProgress(percent: int)
      requires Valid()
      modifies this
      ensures Valid()
      ensures 0 <= percent <= 100 ==> this.percent == percent
      ensures percent < 0 || percent > 100 ==> this.percent == old(this.percent)
    {
      if percent >= 0 && percent <= 100 {
        this.percent := percent;
      }
    }
  }

  function TransferPercent(before: int, u: Update): int
    requires !DividesByZero(u)
  {
    match u.updateType
    case TransferUpdate => Shown(before, GoDiv(u.currentTransfers * 100, u.totalTransfers))
    case RelayingUpdate => before
    case ErrorUpdate => 0
    case DoneUpdate => 100
  }

  function RelayPercent(before: int, u: Update): int {
    match u.updateType
    case ErrorUpdate => 0
    case DoneUpdate => 100
    case _ =>
      if u.totalTransfers > 0 then Shown(before, GoDiv(u.completedRelaying * 100, u.totalTransfers)) else before
  }

  /** What the two bars show after a list of updates. */
  function Bars(updates: seq<Update>): (int, int)
    requires forall u :: u in updates ==> !DividesByZero(u)
  {
    if updates == [] then (0, 0)
    else
      var n := |updates| - 1;
      var before := Bars(updates[..n]);
      (TransferPercent(before.0, updates[n]), RelayPercent(before.1, updates[n]))
  }

  lemma NextBars(updates: seq<Update>, n: nat)
    requires n < |updates| && (forall u :: u in updates[..n] ==> !DividesByZero(u)) && !DividesByZero(updates[n])
    ensures forall u :: u in updates[..n + 1] ==> !DividesByZero(u)
    ensures Bars(updates[..n + 1]) ==
            (TransferPercent(Bars(updates[..n]).0, updates[n]), RelayPercent(Bars(updates[..n]).1, updates[n]))
  {
    assert updates[..n + 1] == updates[..n] + [updates[n]];
    assert updates[..n + 1][..n] == updates[..n];
  }

  // What the bars show, in terms of the messages alone.

  predicate LastTransfer(updates: seq<Update>, k: nat) {
    && k < |updates| && updates[k].updateType.TransferUpdate?
    && forall j :: k < j < |updates| ==> !updates[j].updateType.TransferUpdate?
  }

  predicate HasReport(u: Update) {
    u.updateType.TransferUpdate? || u.updateType.RelayingUpdate?
  }

  predicate LastReport(updates: seq<Update>, k: nat) {
    && k < |updates| && HasReport(updates[k])
    && forall j :: k < j < |updates| ==> !HasReport(updates[j])
  }

  /** The transfer bar shows the transfers of the last transfer update, and the relaying bar the relayed packets of the
      last update of either kind, in percent of the total. */
  ghost predicate ShowsLatest(updates: seq<Update>, total: int, transfer: int, relaying: int)
    requires total > 0
  {
    && (forall k: nat :: LastTransfer(updates, k) ==> transfer == updates[k].currentTransfers * 100 / total)
    && (forall k: nat :: LastReport(updates, k) ==> relaying == updates[k].completedRelaying * 100 / total)
  }

  /** A message that is not the end or an error, with numbers between zero and the total. */
  predicate Within(u: Update, total: int) {
    && HasReport(u) && u.totalTransfers == total > 0
    && 0 <= u.currentTransfers <= total && 0 <= u.completedRelaying <= total
  }

  lemma ShownWithin(before: int, part: int, total: int)
    requires 0 <= part <= total && total > 0
    ensures Shown(before, GoDiv(part * 100, total)) == part * 100 / total
  {
    PercentInRange(part, total);
  }

  lemma {:induction false} BarsShowLatest(updates: seq<Update>, total: int)
    requires total > 0 && forall u :: u in updates ==> Within(u, total) && !DividesByZero(u)
    ensures ShowsLatest(updates, total, Bars(updates).0, Bars(updates).1)
  {
    if updates != [] {
      var n := |updates| - 1;
      var last, before := updates[n], updates[..n];
      assert Within(last, total);
      BarsShowLatest(before, total);
      ShownWithin(Bars(before).0, last.currentTransfers, total);
      ShownWithin(Bars(before).1, last.completedRelaying, total);
      forall k: nat | LastTransfer(updates, k)
        ensures Bars(updates).0 == updates[k].currentTransfers * 100 / total
      {
        assert k < n ==> LastTransfer(before, k);
      }
      forall k: nat | LastReport(updates, k)
        ensures k == n
      {
      }
    }
  }

  /** Whatever the messages say, both bars always show a percentage. */
  lemma {:induction false} BarsInRange(updates: seq<Update>)
    requires forall u :: u in updates ==> !DividesByZero(u)
    ensures 0 <= Bars(updates).0 <= 100 && 0 <= Bars(updates).1 <= 100
  {
    if updates != [] {
      BarsInRange(updates[..|updates| - 1]);
    }
  }

  /** The messages after which nothing more is read. */
  predicate Stops(u: Update) {
    Terminal(u) || DividesByZero(u)
  }

  /** How many updates of a list are read: up to the first that stops the consumer, or all of them. */
  function Taken(updates: seq<Update>): (taken: nat)
    ensures taken <= |updates|
    ensures forall k :: 0 <= k < taken - 1 ==> !Stops(updates[k])
    ensures taken < |updates| ==> taken > 0 && Stops(updates[taken - 1])
  {
    if updates == [] then 0
    else if Stops(updates[0]) then 1
    else 1 + Taken(updates[1..])
  }

  lemma {:induction false} TakenIs(updates: seq<Update>, n: nat)
    requires n <= |updates| && forall k :: 0 <= k < n - 1 ==> !Stops(updates[k])
    ensures n <= Taken(updates)
    ensures n == |updates| || (n > 0 && Stops(updates[n - 1])) ==> n == Taken(updates)
  {
    if n > 1 {
      TakenIs(updates[1..], n - 1);
    }
  }

  /** One turn of the loop: shows the update, or panics before it shows anything. */
  method Show(update: Update, transfer: StatusModel, relaying: StatusModel) returns (stop: bool, panicked: bool)
    requires transfer != relaying && transfer.Valid() && relaying.Valid()
    modifies transfer, relaying
    ensures transfer.Valid() && relaying.Valid()
    ensures stop <==> Stops(update)
    ensures panicked <==> DividesByZero(update)
    ensures (transfer.percent, relaying.percent) ==
            if panicked then old((transfer.percent, relaying.percent))
            else (TransferPercent(old(transfer.percent), update), RelayPercent(old(relaying.percent), update))
  {
    match update.updateType {
      case TransferUpdate =>
        if update.totalTransfers == 0 {
          return true, true;
        }
        transfer.UpdateProgress(GoDiv(update.currentTransfers * 100, update.totalTransfers));
        if update.totalTransfers > 0 {
          relaying.UpdateProgress(GoDiv(update.completedRelaying * 100, update.totalTransfers));
        }
        return false, false;
      case RelayingUpdate =>
        if update.totalTransfers > 0 {
          relaying.UpdateProgress(GoDiv(update.completedRelaying * 100, update.totalTransfers));
        }
        return false, false;
      case ErrorUpdate =>
        transfer.UpdateProgress(0);
        relaying.UpdateProgress(0);
        return true, false;
      case DoneUpdate =>
        transfer.UpdateProgress(100);
        relaying.UpdateProgress(100);
        return true, false;
    }
  }

  /** Reads until the first error, the end message, the end of the channel, or a division by zero. The bars are full
      after the end message, and empty after an error. */
  method Consume(updates: seq<Update>, transfer: StatusModel, relaying: StatusModel)
    returns (taken: nat, panicked: bool)
    requires transfer != relaying && transfer.percent == 0 && relaying.percent == 0
    modifies transfer, relaying
    ensures taken == Taken(updates)
    ensures forall k :: 0 <= k < taken - 1 ==> HasReport(updates[k])
    ensures taken < |updates| ==> taken > 0 && (!HasReport(updates[taken - 1]) || panicked)
    ensures panicked <==>
              taken > 0 && updates[taken - 1].updateType.TransferUpdate? && updates[taken - 1].totalTransfers == 0
    ensures var shown := if panicked then taken - 1 else taken;
            && (forall u :: u in updates[..shown] ==> !DividesByZero(u))
            && (transfer.percent, relaying.percent) == Bars(updates[..shown])
    ensures transfer.Valid() && relaying.Valid()
    ensures taken > 0 && updates[taken - 1].updateType.DoneUpdate? ==> transfer.percent == relaying.percent == 100
    ensures taken > 0 && updates[taken - 1].updateType.ErrorUpdate? ==> transfer.percent == relaying.percent == 0
    ensures taken > 0 && updates[0].totalTransfers > 0
            && (forall u :: u in updates[..taken] ==> Within(u, updates[0].totalTransfers)) ==>
              ShowsLatest(updates[..taken], updates[0].totalTransfers, transfer.percent, relaying.percent)
  {
    taken, panicked := 0, false;
    while taken < |updates|
      invariant 0 <= taken <= |updates| && !panicked
      invariant forall k :: 0 <= k < taken ==> !Stops(updates[k])
      invariant forall u :: u in updates[..taken] ==> !DividesByZero(u)
      invariant transfer.Valid() && relaying.Valid()
      invariant (transfer.percent, relaying.percent) == Bars(updates[..taken])
    {
      var stop;
      stop, panicked := Show(updates[taken], transfer, relaying);
      if !panicked {
        NextBars(updates, taken);
      }
      taken := taken + 1;
      TakenIs(updates, taken);
      if stop {
        assert updates[taken - 1] in updates[..taken];
        return;
      }
    }
    TakenIs(updates, taken);
    if taken > 0 && forall u :: u in updates[..taken] ==> Within(u, updates[0].totalTransfers) {
      assert updates[0] in updates[..taken];
      BarsShowLatest(updates[..taken], updates[0].totalTransfers);
    }
  }

  // The script's consumer reads its channel in the same way.

  function Updates(log: seq<Entry>): (updates: seq<Update>)
    ensures |updates| == |log| && forall k :: 0 <= k < |log| ==> updates[k] == log[k].update
  {
    seq(|log|, k requires 0 <= k < |log| => log[k].update)
  }

  /** Nothing stopped the consumer before the last message it took, and that did exactly if it has left. */
  ghost predicate Follows(s: State) {
    && s.taken <= |s.log|
    && (forall k :: 0 <= k < s.taken - 1 ==> !Stops(s.log[k].update))
    && (s.consumer.Stopped? <==> s.taken > 0 && Stops(s.log[s.taken - 1].update))
  }

  lemma StepFollows(c: Config, s: State, step: Step)
    requires !c.consumerDrains && Follows(s) && Possible(s, step)
    ensures Follows(After(c, s, step))
  {
    if !step.Receive? {
      LogGrows(c, s, step);
      var s' := After(c, s, step);
      assert forall k :: 0 <= k < s.taken ==> s'.log[k] == s.log[k];
    }
  }

  lemma LogGrows(c: Config, s: State, step: Step)
    requires Possible(s, step) && !step.Receive?
    ensures var s' := After(c, s, step); s.log <= s'.log && s'.taken == s.taken && s'.consumer == s.consumer
  {
  }

  lemma {:induction false} PlayFollows(c: Config, schedule: seq<Step>)
    requires !c.consumerDrains && Play(c, Start(c), schedule).Some?
    ensures Follows(Play(c, Start(c), schedule).value)
  {
    if schedule != [] {
      var before := schedule[..|schedule| - 1];
      PlayFollows(c, before);
      StepFollows(c, Play(c, Start(c), before).value, schedule[|schedule| - 1]);
    }
  }

  /** The script's consumer never takes more of the channel than Consume reads of the messages sent so far, and
      where it has stopped it took exactly what Consume reads. */
  lemma ConsumerFollows(c: Config, s: State)
    requires Reachable(c, s) && !c.consumerDrains
    ensures s.taken <= Taken(Updates(s.log))
    ensures s.consumer.Stopped? ==> s.taken == Taken(Updates(s.log))
  {
    var schedule :| Play(c, Start(c), schedule) == Some(s);
    PlayFollows(c, schedule);
    TakenIs(Updates(s.log), s.taken);
  }

  // The percentages.

  lemma TooManyTimes(quotient: int, total: int)
    requires total > 0
    ensures quotient >= 101 ==> quotient * total >= 101 * total
  {
    assert quotient >= 101 ==> (quotient - 101) * total >= 0;
  }

  lemma QuotientInRange(part: int, total: int)
    requires 0 <= part <= 100 * total && total > 0
    ensures 0 <= part / total <= 100
  {
    TooManyTimes(part / total, total);
  }

  lemma PercentInRange(part: int, total: int)
    requires 0 <= part <= total && total > 0
    ensures 0 <= GoDiv(part * 100, total) <= 100
  {
    QuotientInRange(part * 100, total);
  }

  /** With packets to send, every percentage that the consumer computes from a message of the script is one. */
  lemma PercentagesInRange(c: Config, s: State, e: Entry)
    requires Reachable(c, s) && c.packetsPerWallet >= 0 && c.Total() > 0 && e in s.log
    ensures e.update.totalTransfers == c.Total()
    ensures 0 <= GoDiv(e.update.currentTransfers * 100, e.update.totalTransfers) <= 100
    ensures 0 <= GoDiv(e.update.completedRelaying * 100, e.update.totalTransfers) <= 100
  {
    ReachableInvariant(c, s);
    var n: nat :| n < |s.log| && s.log[n] == e;
    assert EntryFits(c, s.workers, s.coordinator, n, |s.log|, e);
    PercentInRange(e.update.currentTransfers, c.Total());
    PercentInRange(e.update.completedRelaying, c.Total());
  }

  /** The consumer divides by zero at its first message if there is nothing to send, and never otherwise. */
  lemma CrashIff(c: Config, s: State)
    requires Reachable(c, s)
    ensures (exists e :: e in s.log && DividesByZero(e.update)) <==> c.Total() == 0
    ensures |s.log| > 0 && (c.Total() == 0 ==> DividesByZero(s.log[0].update))
  {
    ReachableInvariant(c, s);
    assert EntryFits(c, s.workers, s.coordinator, 0, |s.log|, s.log[0]);
    forall e | e in s.log
      ensures e.update.totalTransfers == c.Total()
    {
      var n: nat :| n < |s.log| && s.log[n] == e;
      assert EntryFits(c, s.workers, s.coordinator, n, |s.log|, e);
    }
  }

  /** With packets to send, the messages of the script are as Consume needs them to show their percentages. */
  lemma ScriptWithin(c: Config, s: State, e: Entry)
    requires Reachable(c, s) && c.packetsPerWallet >= 0 && c.Total() > 0 && e in s.log
    ensures HasReport(e.update) ==> Within(e.update, c.Total())
  {
    ReachableInvariant(c, s);
    var n: nat :| n < |s.log| && s.log[n] == e;
    assert EntryFits(c, s.workers, s.coordinator, n, |s.log|, e);
  }

  /** Go's division of whole numbers truncates toward zero, whatever the signs. */
  lemma GoDivTruncates(a: int, b: int)
    requires a >= 0 && b > 0
    ensures GoDiv(a, b) == GoDiv(-a, -b) == a / b
    ensures GoDiv(-a, b) == GoDiv(a, -b) == -(a / b)
  {
    if a == 0 {
      assert 0 / b == 0 && 0 / -b == 0;
    }
  }
}
