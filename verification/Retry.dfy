/** withRetry, and how the load script's worker steps follow it. */
module Retry {
  import opened Wrappers
  import opened Ibc
  import opened RelayQueueProtocol
  import opened LoadScript

  /** Calls until the first success, three times at most, and returns that success or the last error.
      `outcomes` tells what each call would return. */
  method WithRetry<T, E>(outcomes: nat -> Result<T, E>) returns (r: Result<T, E>, calls: nat)
    ensures 1 <= calls <= 3 && r == outcomes(calls - 1)
    ensures forall k: nat :: k + 1 < calls ==> outcomes(k).Err?
    ensures r.Err? ==> calls == 3
  {
    calls := 0;
    var error: Option<E> := None;
    for attempt := 0 to MaxRetries
      invariant calls == attempt
      invariant attempt > 0 ==> error.Some? && outcomes(attempt - 1) == Err(error.value)
      invariant forall k: nat :: k < attempt ==> outcomes(k).Err?
    {
      var result := outcomes(attempt);
      calls := calls + 1;
      if result.Ok? {
        return result, calls;
      }
      error := Some(result.error);
    }
    return Err(error.value), calls;
  }

  /** A worker's own steps when its n-th SendTransfer call of the round returns what `outcomes` says. */
  function Attempts<E>(w: Worker, outcomes: nat -> Result<Packet, E>, n: nat): Worker {
    if n == 0 then w
    else
      var v := Attempts(w, outcomes, n - 1);
      var act := if outcomes(n - 1).Ok? then SendOk(outcomes(n - 1).value) else SendFail;
      if WorkerReady(v, Idle, act) then WorkerNext(v, Idle, act) else v
  }

  /** The worker's steps refine withRetry: they stop where it returns, with the packet it returns or in the state
      that reports the error, after the same number of calls. */
  lemma {:induction false} WorkerFollowsRetry<E>(w: Worker, outcomes: nat -> Result<Packet, E>, r: Result<Packet, E>,
                                                 calls: nat)
    requires w.pc == Sending(0)
    requires 1 <= calls <= 3 && r == outcomes(calls - 1)
    requires forall k: nat :: k + 1 < calls ==> outcomes(k).Err?
    requires r.Err? ==> calls == 3
    ensures Attempts(w, outcomes, calls) ==
            match r
            case Ok(packet) => w.(pc := InAdd, calls := w.calls + calls, got := w.got + [packet])
            case Err(_) => w.(pc := ReportingFailure, calls := w.calls + calls)
  {
    FailedAttempts(w, outcomes, calls - 1);
  }

  lemma {:induction false} FailedAttempts<E>(w: Worker, outcomes: nat -> Result<Packet, E>, n: nat)
    requires w.pc == Sending(0) && n < MaxRetries && forall k: nat :: k < n ==> outcomes(k).Err?
    ensures Attempts(w, outcomes, n) == w.(pc := Sending(n), calls := w.calls + n)
  {
    if n > 0 {
      FailedAttempts(w, outcomes, n - 1);
    }
  }
}
