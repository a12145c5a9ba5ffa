/** The loop in relay that waits until the destination chain has a receipt for every packet of a batch. */
module ReceiptPolling {
  import opened Ibc

  /** What one query of IsPacketReceived returns. */
  datatype Answer = Receipt(received: bool) | QueryFailed

  const Second: int := 1_000_000_000
  const Pause: int := 5 * Second
  const MaxWait: int := 120 * 60 * Second
  const MaxRounds: nat := 1440

  /** The world a batch meets: the answer about its i-th packet in each round, and the time passed since the
      start whenever the loop looks at the clock. */
  datatype World = World(answers: (nat, nat) -> Answer, clock: nat -> int) {
    /** Time passes, by at least the pause between two rounds. */
    ghost predicate Passes() {
      0 <= clock(0) && forall n: nat :: clock(n) + Pause <= clock(n + 1)
    }

    /** A query that fails counts as no receipt. */
    predicate Confirmed(round: nat, i: nat) {
      answers(round, i) == Receipt(true)
    }
  }

  /** The positions below n whose packets are not confirmed in a round, in order. */
  function Unconfirmed(w: World, round: nat, n: nat): seq<nat> {
    if n == 0 then []
    else Unconfirmed(w, round, n - 1) + if w.Confirmed(round, n - 1) then [] else [n - 1]
  }

  function Pick(packets: seq<Packet>, positions: seq<nat>): seq<Packet>
    requires forall k :: 0 <= k < |positions| ==> positions[k] < |packets|
  {
    seq(|positions|, k requires 0 <= k < |positions| => packets[positions[k]])
  }

  lemma {:induction false} UnconfirmedPositions(w: World, round: nat, n: nat)
    ensures forall i :: i in Unconfirmed(w, round, n) <==> 0 <= i < n && w.answers(round, i) != Receipt(true)
    ensures forall j, k :: 0 <= j < k < |Unconfirmed(w, round, n)| ==>
              Unconfirmed(w, round, n)[j] < Unconfirmed(w, round, n)[k]
  {
    if n > 0 {
      UnconfirmedPositions(w, round, n - 1);
      var before := Unconfirmed(w, round, n - 1);
      assert forall k :: 0 <= k < |before| ==> before[k] in before;
    }
  }

  /** The packets not confirmed in a round: an order-preserving selection from the batch. */
  function Waiting(w: World, round: nat, packets: seq<Packet>): seq<Packet> {
    UnconfirmedPositions(w, round, |packets|);
    assert forall k :: 0 <= k < |Unconfirmed(w, round, |packets|)| ==>
      Unconfirmed(w, round, |packets|)[k] in Unconfirmed(w, round, |packets|);
    Pick(packets, Unconfirmed(w, round, |packets|))
  }

  lemma {:induction false} ClockBound(w: World, n: nat)
    requires w.Passes()
    ensures w.clock(n) >= n * Pause
  {
    if n > 0 {
      ClockBound(w, n - 1);
      assert w.clock(n - 1) + Pause <= w.clock(n - 1 + 1);
    }
  }

  /** Asks about every packet of the batch once. */
  method PollOnce(packets: seq<Packet>, w: World, round: nat) returns (remaining: seq<Packet>)
    ensures remaining == Waiting(w, round, packets)
    ensures var left := Unconfirmed(w, round, |packets|);
            && |remaining| == |left|
            && forall k :: 0 <= k < |left| ==> left[k] < |packets| && remaining[k] == packets[left[k]]
  {
    remaining := [];
    for i := 0 to |packets|
      invariant forall k :: 0 <= k < |Unconfirmed(w, round, i)| ==> Unconfirmed(w, round, i)[k] < |packets|
      invariant remaining == Pick(packets, Unconfirmed(w, round, i))
    {
      var received := match w.answers(round, i)
        case Receipt(received) => received
        case QueryFailed => false;
      if !received {
        remaining := remaining + [packets[i]];
      }
    }
  }

  lemma {:induction false} ClockAdvances(w: World, m: nat, n: nat)
    requires w.Passes() && m <= n
    ensures w.clock(m) <= w.clock(n)
  {
    if m < n {
      ClockAdvances(w, m, n - 1);
      assert w.clock(n - 1) + Pause <= w.clock(n - 1 + 1);
    }
  }

  /** Some round that starts in time confirms every packet. */
  ghost predicate ConfirmedInTime(w: World, packets: seq<Packet>) {
    exists round: nat :: w.clock(round) < MaxWait && Waiting(w, round, packets) == []
  }

  /** Polls until a round confirms every packet or the time is up. It succeeds exactly if some round that starts in
      time confirms every packet at once; otherwise exactly the packets that the last round did not confirm are
      left, in order. Every round starts within the 120 minutes, and it gives up only after them; so it takes at most
      1440 rounds, and at least one if it has packets and time. */
  method WaitForReceipts(packets: seq<Packet>, w: World) returns (waiting: seq<Packet>, rounds: nat)
    requires w.Passes()
    ensures waiting == if rounds == 0 then packets else Waiting(w, rounds - 1, packets)
    ensures packets != [] ==> (waiting == [] <==> ConfirmedInTime(w, packets))
    ensures forall r: nat :: r + 1 < rounds ==> Waiting(w, r, packets) != []
    ensures forall r: nat :: r < rounds ==> w.clock(r) < 7_200_000_000_000
    ensures waiting != [] ==> w.clock(rounds) >= 7_200_000_000_000
    ensures rounds <= 1440
    ensures packets != [] && w.clock(0) < 7_200_000_000_000 ==> rounds >= 1
  {
    waiting, rounds := packets, 0;
    while |waiting| > 0 && w.clock(rounds) < MaxWait
      invariant waiting == if rounds == 0 then packets else Waiting(w, rounds - 1, packets)
      invariant forall r: nat :: r < rounds ==> w.clock(r) < MaxWait
      invariant forall r: nat :: r + 1 < rounds ==> Waiting(w, r, packets) != []
      invariant rounds <= MaxRounds
      decreases MaxRounds - rounds
    {
      ClockBound(w, rounds);
      waiting := PollOnce(packets, w, rounds);
      rounds := rounds + 1;
    }
    if waiting != [] {
      forall round: nat | w.clock(round) < MaxWait
        ensures Waiting(w, round, packets) != []
      {
        if round >= rounds {
          ClockAdvances(w, rounds, round);
        }
      }
    }
  }

  /** With rounds of five seconds and receipts that never come, the loop takes all 1440 rounds: nothing else has the
      clock within the 120 minutes before each round, and beyond them at the end. */
  lemma LongestWait(w: World, rounds: nat)
    requires forall n: nat :: w.clock(n) == n * 5_000_000_000
    requires forall r: nat :: r < rounds ==> w.clock(r) < 7_200_000_000_000
    requires w.clock(rounds) >= 7_200_000_000_000
    ensures w.Passes() && rounds == 1440
  {
    assert rounds > 0 ==> w.clock(rounds - 1) == (rounds - 1) * 5_000_000_000;
  }

  // Asking only about the packets that still wait.

  /** A receipt once seen is seen in every later round. */
  ghost predicate Monotone(w: World) {
    forall round: nat, i: nat :: w.Confirmed(round, i) ==> w.Confirmed(round + 1, i)
  }

  function Keep(w: World, round: nat, positions: seq<nat>): seq<nat> {
    if positions == [] then []
    else
      var n := |positions| - 1;
      Keep(w, round, positions[..n]) + if w.Confirmed(round, positions[n]) then [] else [positions[n]]
  }

  /** What the cheaper loop, which asks only about the packets left by the round before, has left after a round. */
  function CheapUnconfirmed(w: World, round: nat, n: nat): seq<nat> {
    if round == 0 then Unconfirmed(w, 0, n) else Keep(w, round, CheapUnconfirmed(w, round - 1, n))
  }

  lemma {:induction false} KeepUnconfirmed(w: World, round: nat, n: nat)
    requires Monotone(w)
    ensures Keep(w, round + 1, Unconfirmed(w, round, n)) == Unconfirmed(w, round + 1, n)
  {
    if n > 0 {
      KeepUnconfirmed(w, round, n - 1);
      var before := Unconfirmed(w, round, n - 1);
      assert (before + [n - 1])[..|before|] == before;
      assert before + [] == before;
      assert w.Confirmed(round, n - 1) ==> w.Confirmed(round + 1, n - 1);
    }
  }

  /** With monotone receipts, asking about every packet again leaves the same packets as asking only about those
      still waiting, in every round. */
  lemma {:induction false} CheapPolling(w: World, round: nat, n: nat)
    requires Monotone(w)
    ensures CheapUnconfirmed(w, round, n) == Unconfirmed(w, round, n)
  {
    if round > 0 {
      CheapPolling(w, round - 1, n);
      KeepUnconfirmed(w, round - 1, n);
    }
  }

  /** With monotone receipts the list of waiting packets never grows. */
  lemma {:induction false} WaitingShrinks(w: World, round: nat, n: nat)
    requires Monotone(w)
    ensures |Unconfirmed(w, round + 1, n)| <= |Unconfirmed(w, round, n)|
    ensures forall i :: i in Unconfirmed(w, round + 1, n) ==> i in Unconfirmed(w, round, n)
  {
    if n > 0 {
      WaitingShrinks(w, round, n - 1);
      assert w.Confirmed(round, n - 1) ==> w.Confirmed(round + 1, n - 1);
    }
  }
}
