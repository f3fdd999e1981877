/** HealthCheckCircuitBreaker and the check rounds it admits (cmd/api/health.go). */
module CircuitBreaker {

  datatype Status = Closed | Open | HalfOpen

  datatype Breaker = Breaker(status: Status, failures: nat, lastFailure: int)

  datatype Config = Config(threshold: int, resetTimeout: int)

  const FRESH: Breaker := Breaker(Closed, 0, 0)

  /** Does Allow admit a round at `now`? */
  predicate Admits(c: Config, b: Breaker, now: int) {
    b.status == Open ==> now - b.lastFailure > c.resetTimeout
  }

  function AfterAllow(c: Config, b: Breaker, now: int): Breaker {
    if b.status == Open && now - b.lastFailure > c.resetTimeout then b.(status := HalfOpen) else b
  }

  function AfterSuccess(b: Breaker): Breaker {
    if b.status == HalfOpen then b.(status := Closed, failures := 0) else b
  }

  function AfterFailure(c: Config, b: Breaker, now: int): Breaker {
    Breaker(if b.failures + 1 >= c.threshold then Open else b.status, b.failures + 1, now)
  }

  class HealthCheckCircuitBreaker {
    const config: Config
    var failures: nat
    var lastFailure: int
    var status: Status

    function Current(): Breaker
      reads this
    {
      Breaker(status, failures, lastFailure)
    }

    constructor (threshold: int, resetTimeout: int)
      ensures config == Config(threshold, resetTimeout) && Current() == FRESH
    {
      config := Config(threshold, resetTimeout);
      failures, lastFailure, status := 0, 0, Closed;
    }

    method Allow(now: int) returns (admitted: bool)
      modifies this`status
      ensures admitted <==> Admits(config, old(Current()), now)
      ensures Current() == AfterAllow(config, old(Current()), now)
      ensures admitted <==> old(status) != Open || now - lastFailure > config.resetTimeout
      ensures status == if old(status) == Open && now - lastFailure > config.resetTimeout then HalfOpen else old(status)
    {
      match status
      case Closed => return true;
      case Open =>
        if now - lastFailure > config.resetTimeout {
          status := HalfOpen;
          return true;
        }
        return false;
      case HalfOpen => return true;
    }

    method RecordSuccess()
      modifies this`status, this`failures
      ensures Current() == AfterSuccess(old(Current()))
      ensures status == (if old(status) == HalfOpen then Closed else old(status))
      ensures failures == (if old(status) == HalfOpen then 0 else old(failures))
    {
      if status == HalfOpen {
        status := Closed;
        failures := 0;
      }
    }

    method RecordFailure(now: int)
      modifies this
      ensures Current() == AfterFailure(config, old(Current()), now)
      ensures failures == old(failures) + 1 && lastFailure == now
      ensures status == if old(failures) + 1 >= config.threshold then Open else old(status)
    {
      failures := failures + 1;
      lastFailure := now;
      if failures >= config.threshold {
        status := Open;
      }
    }

    /**
      checkOnce: `cutShort` when listing the targets fails or finds none; otherwise `failedAt` are
      the moments at which checks of the round failed.
      */
    method CheckOnce(now: int, cutShort: bool, failedAt: seq<int>) returns (admitted: bool)
      modifies this
      ensures admitted <==> Admits(config, old(Current()), now)
      ensures Current() ==
              if !admitted then old(Current())
              else if cutShort then AfterAllow(config, old(Current()), now)
              else Round(config, AfterAllow(config, old(Current()), now), failedAt)
    {
      admitted := Allow(now);
      if !admitted || cutShort {
        return;
      }
      ghost var start := Current();
      for i := 0 to |failedAt|
        invariant Current() == AfterFailures(config, start, failedAt[..i])
      {
        assert failedAt[..i + 1][..i] == failedAt[..i];
        RecordFailure(failedAt[i]);
      }
      assert failedAt[..|failedAt|] == failedAt;
      RecordSuccess();
    }
  }

  function AfterFailures(c: Config, b: Breaker, failedAt: seq<int>): Breaker {
    if failedAt == [] then b
    else AfterFailure(c, AfterFailures(c, b, failedAt[..|failedAt| - 1]), failedAt[|failedAt| - 1])
  }

  /** An admitted round that runs to its end. */
  function Round(c: Config, b: Breaker, failedAt: seq<int>): Breaker {
    AfterSuccess(AfterFailures(c, b, failedAt))
  }

  // ----- every interleaving of calls -----

  datatype Call = Allow(now: int) | Success | Failure(now: int)

  function After(c: Config, calls: seq<Call>): Breaker {
    if calls == [] then FRESH
    else
      var b := After(c, calls[..|calls| - 1]);
      match calls[|calls| - 1]
      case Allow(now) => AfterAllow(c, b, now)
      case Success => AfterSuccess(b)
      case Failure(now) => AfterFailure(c, b, now)
  }

  /** In every reachable state the breaker is closed exactly when it has seen fewer failures than the threshold. */
  lemma {:induction false} ClosedIffBelowThreshold(c: Config, calls: seq<Call>)
    requires c.threshold >= 1
    ensures var b := After(c, calls); b.status == Closed <==> b.failures < c.threshold
  {
    if calls != [] {
      ClosedIffBelowThreshold(c, calls[..|calls| - 1]);
    }
  }

  /** The position of the latest failure among the calls. */
  lemma {:induction false} LatestFailure(c: Config, calls: seq<Call>) returns (i: nat)
    requires c.threshold >= 1 && After(c, calls).failures > 0
    ensures i < |calls| && calls[i].Failure? && calls[i].now == After(c, calls).lastFailure
    ensures forall j :: i < j < |calls| ==> !calls[j].Failure?
  {
    var before := calls[..|calls| - 1];
    if calls[|calls| - 1].Failure? {
      i := |calls| - 1;
    } else {
      i := LatestFailure(c, before);
      assert forall j :: 0 <= j < |before| ==> before[j] == calls[j];
    }
  }

  /** An open breaker admits a round only when the latest failure is more than resetTimeout ago. */
  lemma {:induction false} OpenWaitsOutTheTimeout(c: Config, calls: seq<Call>, now: int)
    requires c.threshold >= 1 && After(c, calls).status == Open
    ensures exists i :: 0 <= i < |calls| && calls[i].Failure? && (forall j :: i < j < |calls| ==> !calls[j].Failure?)
                        && (Admits(c, After(c, calls), now) <==> now - calls[i].now > c.resetTimeout)
  {
    ClosedIffBelowThreshold(c, calls);
    var i := LatestFailure(c, calls);
  }

  lemma {:induction false} FailuresAddUp(c: Config, b: Breaker, failedAt: seq<int>)
    ensures AfterFailures(c, b, failedAt).failures == b.failures + |failedAt|
    ensures failedAt != [] && b.failures + |failedAt| >= c.threshold ==> AfterFailures(c, b, failedAt).status == Open
    ensures failedAt == [] || b.failures + |failedAt| < c.threshold ==> AfterFailures(c, b, failedAt).status == b.status
  {
    if failedAt != [] {
      FailuresAddUp(c, b, failedAt[..|failedAt| - 1]);
    }
  }

  /** A half-open round that runs to the end closes the breaker exactly when nothing failed in it. */
  lemma HalfOpenRoundDecides(c: Config, calls: seq<Call>, failedAt: seq<int>)
    requires c.threshold >= 1 && After(c, calls).status == HalfOpen
    ensures Round(c, After(c, calls), failedAt).status == (if failedAt == [] then Closed else Open)
  {
    ClosedIffBelowThreshold(c, calls);
    FailuresAddUp(c, After(c, calls), failedAt);
  }

  /** A closed breaker counts failures over all its rounds: a round without failures takes none away. */
  lemma ClosedRoundAccumulates(c: Config, calls: seq<Call>, failedAt: seq<int>)
    requires c.threshold >= 1 && After(c, calls).status == Closed
    ensures var b := After(c, calls);
            && Round(c, b, failedAt).failures == b.failures + |failedAt|
            && (Round(c, b, failedAt).status == Closed <==> b.failures + |failedAt| < c.threshold)
  {
    ClosedIffBelowThreshold(c, calls);
    FailuresAddUp(c, After(c, calls), failedAt);
  }

  /** An open breaker that has waited long enough becomes half open at its next round, and no other way. */
  lemma HalfOpenIff(c: Config, calls: seq<Call>, call: Call)
    ensures After(c, calls + [call]).status == HalfOpen <==>
            || (After(c, calls).status == HalfOpen && !call.Success? && (call.Failure? ==> After(c, calls).failures + 1 < c.threshold))
            || (After(c, calls).status == Open && call.Allow? && call.now - After(c, calls).lastFailure > c.resetTimeout)
            || (After(c, calls).status == HalfOpen && call.Allow?)
  {
    assert (calls + [call])[..|calls|] == calls;
  }

  lemma {:induction false} FailuresOpen(c: Config, n: nat) returns (calls: seq<Call>)
    requires c.threshold >= 1
    ensures After(c, calls).failures == n && After(c, calls).lastFailure == 0
    ensures n >= c.threshold ==> After(c, calls).status == Open
  {
    calls := [];
    if n > 0 {
      var before := FailuresOpen(c, n - 1);
      calls := before + [Failure(0)];
      assert calls[..|before|] == before;
    }
  }

  /** Every breaker can get there: enough failures, and then a round after the timeout. */
  lemma HalfOpenIsReached(c: Config)
    requires c.threshold >= 1
    ensures exists calls :: After(c, calls).status == HalfOpen
  {
    var calls := FailuresOpen(c, c.threshold);
    HalfOpenIff(c, calls, Allow(c.resetTimeout + 1));
  }
}
