/** The circuit breaker of one database: trips after repeated failures, cools down, resets on success. */
module ConnectionBreaker {
  import opened Options

  const CB_THRESHOLD := 3
  const CB_COOLDOWN := 30_000   // milliseconds
  const U32_MAX := 0xFFFF_FFFF

  datatype Breaker = Breaker(consecutiveFailures: nat, tripped: bool, lastTrip: Option<int>)

  const CLOSED := Breaker(0, false, None)

  function Counted(failures: nat): nat {
    if failures < U32_MAX then failures + 1 else U32_MAX
  }

  function AfterFailure(b: Breaker, now: int): Breaker {
    var failures := Counted(b.consecutiveFailures);
    if failures >= CB_THRESHOLD then Breaker(failures, true, Some(now)) else b.(consecutiveFailures := failures)
  }

  predicate IsOpen(b: Breaker, now: int) {
    b.tripped && b.lastTrip.Some? && now - b.lastTrip.value < CB_COOLDOWN
  }

  /** The state a breaker reaches from closed by failures at the given times. */
  function AfterFailures(times: seq<int>): Breaker {
    if times == [] then CLOSED else AfterFailure(AfterFailures(times[..|times| - 1]), times[|times| - 1])
  }

  /** After any number of consecutive failures the breaker is tripped exactly from the third on, and then since the latest. */
  lemma {:induction false} TripsAtThreshold(times: seq<int>)
    ensures var b := AfterFailures(times);
            && b.tripped == (|times| >= CB_THRESHOLD)
            && (b.tripped ==> b.lastTrip == Some(times[|times| - 1]))
            && b.consecutiveFailures == (if |times| < U32_MAX then |times| else U32_MAX)
  {
    if times != [] {
      TripsAtThreshold(times[..|times| - 1]);
    }
  }

  /** So it rejects exactly within the cooldown of the latest of at least three failures. */
  lemma OpenWithinCooldown(times: seq<int>, now: int)
    ensures IsOpen(AfterFailures(times), now) <==> |times| >= CB_THRESHOLD && now - times[|times| - 1] < CB_COOLDOWN
  {
    TripsAtThreshold(times);
  }

  class CircuitBreaker {
    var consecutiveFailures: nat
    var tripped: bool
    var lastTrip: Option<int>

    ghost function State(): Breaker
      reads this
    {
      Breaker(consecutiveFailures, tripped, lastTrip)
    }

    constructor ()
      ensures State() == CLOSED
    {
      consecutiveFailures, tripped, lastTrip := 0, false, None;
    }

    /** True when this recovered a tripped breaker. */
    method RecordSuccess() returns (recovered: bool)
      modifies this
      ensures State() == CLOSED && recovered == old(tripped)
    {
      recovered := tripped;
      consecutiveFailures, tripped, lastTrip := 0, false, None;
    }

    /** True only for the failure that trips a closed breaker. */
    method RecordFailure(now: int) returns (justTripped: bool)
      modifies this
      ensures State() == AfterFailure(old(State()), now)
      ensures justTripped <==> !old(tripped) && tripped
    {
      consecutiveFailures := if consecutiveFailures < U32_MAX then consecutiveFailures + 1 else U32_MAX;
      justTripped := consecutiveFailures >= CB_THRESHOLD && !tripped;
      if consecutiveFailures >= CB_THRESHOLD {
        tripped := true;
        lastTrip := Some(now);
      }
    }

    method Open(now: int) returns (open: bool)
      ensures open == IsOpen(State(), now)
    {
      if !tripped {
        return false;
      }
      open := lastTrip.Some? && now - lastTrip.value < CB_COOLDOWN;
    }
  }
}
