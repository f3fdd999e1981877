/**
  The restart limiter of cmd/api/health.go: before restarting an unhealthy container it counts the
  audit rows of the last five minutes (CountRecentDeploymentRestarts in cmd/api/db.go).
  */
module RestartLimiter {

  /** healthCheckerWindow, in microseconds */
  const WINDOW: int := 300_000_000

  datatype Outcome = Attempted | Succeeded | Failed | Alerted

  /**
    A write to deployment_restart_audits for one deployment, with action 'restart'.  The code ignores
    failed writes; they store no row.
    */
  datatype Audit = Audit(outcome: Outcome, at: int, stored: bool)

  /** SELECT COUNT(*) ... WHERE created_at >= from */
  function CountSince(rows: seq<Audit>, from: int): nat {
    if rows == [] then 0
    else CountSince(rows[..|rows| - 1], from) + if rows[|rows| - 1].stored && rows[|rows| - 1].at >= from then 1 else 0
  }

  /** Restart attempts in the closed interval from `lo` to `hi`. */
  function AttemptsIn(rows: seq<Audit>, lo: int, hi: int): nat {
    if rows == [] then 0
    else
      var r := rows[|rows| - 1];
      AttemptsIn(rows[..|rows| - 1], lo, hi) + if r.outcome == Attempted && lo <= r.at <= hi then 1 else 0
  }

  /** Those of them that left no row. */
  function LostIn(rows: seq<Audit>, lo: int, hi: int): nat {
    if rows == [] then 0
    else
      var r := rows[|rows| - 1];
      LostIn(rows[..|rows| - 1], lo, hi) + if r.outcome == Attempted && lo <= r.at <= hi && !r.stored then 1 else 0
  }

  function LostFrom(rows: seq<Audit>, start: int): nat {
    LostIn(rows, start, start + WINDOW)
  }

  /** Attempts in the five minutes that begin at `start`, both ends included. */
  function AttemptsFrom(rows: seq<Audit>, start: int): nat {
    AttemptsIn(rows, start, start + WINDOW)
  }

  /** MaxRestartsBeforeFailing, with the fallback for values below one. */
  function Limit(setting: int): int {
    if setting < 1 then 3 else setting
  }

  predicate Sorted(rows: seq<Audit>) {
    forall i, j :: 0 <= i < j < |rows| ==> rows[i].at <= rows[j].at
  }

  /** Every attempt was made with fewer than `limit` rows in its window. */
  predicate Guarded(rows: seq<Audit>, limit: int) {
    forall i :: 0 <= i < |rows| && rows[i].outcome == Attempted ==> CountSince(rows[..i], rows[i].at - WINDOW) < limit
  }

  predicate LastIsNoAttempt(rows: seq<Audit>) {
    rows != [] ==> rows[|rows| - 1].outcome != Attempted
  }

  predicate IsOutcome(r: Audit) {
    r.stored && (r.outcome == Succeeded || r.outcome == Failed)
  }

  /** Every attempt but the last write is stored and followed by its stored outcome. */
  predicate Paired(rows: seq<Audit>) {
    forall i :: 0 <= i < |rows| - 1 && rows[i].outcome == Attempted ==> rows[i].stored && IsOutcome(rows[i + 1])
  }

  // ----- the code -----

  /** What happens during one check, and when the database stamps its rows. */
  datatype Check = Check(countedAt: int, firstRowAt: int, outcomeRowAt: int, countWorks: bool, firstRowStored: bool,
                         envLoads: bool, restarts: bool, outcomeStored: bool)

  /** What one check writes after `before`. */
  function Written(before: seq<Audit>, limit: int, c: Check): seq<Audit> {
    if !c.countWorks then []
    else if CountSince(before, c.countedAt - WINDOW) >= limit then [Audit(Alerted, c.firstRowAt, c.firstRowStored)]
    else
      [Audit(Attempted, c.firstRowAt, c.firstRowStored)] +
      (if c.envLoads then [Audit(if c.restarts then Succeeded else Failed, c.outcomeRowAt, c.outcomeStored)] else [])
  }

  /** A check none of whose writes fail and whose restart runs to its outcome. */
  predicate Complete(c: Check) {
    c.firstRowStored && c.envLoads && c.outcomeStored
  }

  class RestartAudit {
    const setting: int
    var rows: seq<Audit>
    var lastSeen: int

    ghost predicate Valid()
      reads this
    {
      Sorted(rows) && Guarded(rows, Limit(setting)) && forall i :: 0 <= i < |rows| ==> rows[i].at <= lastSeen
    }

    constructor (setting: int, now: int)
      ensures Valid() && rows == [] && this.setting == setting && lastSeen == now
    {
      this.setting, rows, lastSeen := setting, [], now;
    }

    method Record(outcome: Outcome, at: int, stored: bool)
      requires Valid() && at >= lastSeen
      requires outcome == Attempted ==> CountSince(rows, at - WINDOW) < Limit(setting)
      modifies this
      ensures Valid() && rows == old(rows) + [Audit(outcome, at, stored)] && lastSeen == at
    {
      GuardedAppend(rows, Audit(outcome, at, stored), Limit(setting));
      rows := rows + [Audit(outcome, at, stored)];
      lastSeen := at;
    }

    /** handleUnhealthyDeployment: restart, or give up when the window is full; nothing if it cannot count. */
    method HandleUnhealthy(c: Check) returns (attempted: bool)
      requires Valid() && lastSeen <= c.countedAt <= c.firstRowAt <= c.outcomeRowAt
      modifies this
      ensures Valid() && lastSeen <= c.outcomeRowAt
      ensures attempted <==> c.countWorks && CountSince(old(rows), c.countedAt - WINDOW) < Limit(setting)
      ensures rows == old(rows) + Written(old(rows), Limit(setting), c)
      ensures rows == old(rows) +
                (if !c.countWorks then []
                 else if CountSince(old(rows), c.countedAt - 300_000_000) >= (if setting < 1 then 3 else setting) then
                   [Audit(Alerted, c.firstRowAt, c.firstRowStored)]
                 else if !c.envLoads then [Audit(Attempted, c.firstRowAt, c.firstRowStored)]
                 else if c.restarts then
                   [Audit(Attempted, c.firstRowAt, c.firstRowStored), Audit(Succeeded, c.outcomeRowAt, c.outcomeStored)]
                 else [Audit(Attempted, c.firstRowAt, c.firstRowStored), Audit(Failed, c.outcomeRowAt, c.outcomeStored)])
    {
      var maxRestarts := setting;
      if maxRestarts < 1 {
        maxRestarts := 3;
      }
      if !c.countWorks {
        return false;
      }
      var recent := CountSince(rows, c.countedAt - WINDOW);
      if recent >= maxRestarts {
        Record(Alerted, c.firstRowAt, c.firstRowStored);
        return false;
      }
      CountIsAntitone(rows, c.countedAt - WINDOW, c.firstRowAt - WINDOW);
      Record(Attempted, c.firstRowAt, c.firstRowStored);
      attempted := true;
      if !c.envLoads {
        return;
      }
      Record(if c.restarts then Succeeded else Failed, c.outcomeRowAt, c.outcomeStored);
    }

    /** Any number of checks of one deployment, one after the other. */
    method Run(checks: seq<Check>)
      requires Valid()
      requires forall i :: 0 <= i < |checks| ==>
                 lastSeen <= checks[i].countedAt <= checks[i].firstRowAt <= checks[i].outcomeRowAt
      requires forall i, j :: 0 <= i < j < |checks| ==> checks[i].outcomeRowAt <= checks[j].countedAt
      modifies this
      ensures Valid()
      ensures forall start :: AttemptsFrom(rows, start) <= Limit(setting) + LostFrom(rows, start)
      ensures old(Paired(rows) && LastIsNoAttempt(rows)) && (forall c :: c in checks ==> Complete(c)) ==>
                forall start :: AttemptsFrom(rows, start) <= (Limit(setting) + 1) / 2
    {
      ghost var complete := Paired(rows) && LastIsNoAttempt(rows) && forall c :: c in checks ==> Complete(c);
      for i := 0 to |checks|
        invariant Valid()
        invariant forall j :: i <= j < |checks| ==> lastSeen <= checks[j].countedAt
        invariant complete ==> Paired(rows) && LastIsNoAttempt(rows)
      {
        assert checks[i] in checks;
        ghost var before := rows;
        var _ := HandleUnhealthy(checks[i]);
        if complete {
          PairedAppend(before, Written(before, Limit(setting), checks[i]));
        }
      }
      forall start
        ensures AttemptsFrom(rows, start) <= Limit(setting) + LostFrom(rows, start)
        ensures complete ==> AttemptsFrom(rows, start) <= (Limit(setting) + 1) / 2
      {
        AtMostLimitAttempts(rows, Limit(setting), start);
        if complete {
          AtMostHalfWhenPaired(rows, Limit(setting), start);
        }
      }
    }
  }

  lemma PairedAppend(rows: seq<Audit>, more: seq<Audit>)
    requires Paired(rows) && LastIsNoAttempt(rows) && Paired(more) && LastIsNoAttempt(more)
    ensures Paired(rows + more) && LastIsNoAttempt(rows + more)
  {
    var all := rows + more;
    forall i | 0 <= i < |all| - 1 && all[i].outcome == Attempted
      ensures all[i].stored && IsOutcome(all[i + 1])
    {
      if i < |rows| {
        assert i < |rows| - 1 && all[i + 1] == rows[i + 1];
      } else {
        assert all[i] == more[i - |rows|] && all[i + 1] == more[i - |rows| + 1];
      }
    }
  }

  // ----- counting -----

  lemma {:induction false} CountIsAntitone(rows: seq<Audit>, from: int, later: int)
    requires from <= later
    ensures CountSince(rows, later) <= CountSince(rows, from)
  {
    if rows != [] {
      CountIsAntitone(rows[..|rows| - 1], from, later);
    }
  }

  lemma GuardedAppend(rows: seq<Audit>, r: Audit, limit: int)
    requires Guarded(rows, limit) && (r.outcome == Attempted ==> CountSince(rows, r.at - WINDOW) < limit)
    ensures Guarded(rows + [r], limit)
  {
    var all := rows + [r];
    forall i | 0 <= i < |all| && all[i].outcome == Attempted
      ensures CountSince(all[..i], all[i].at - WINDOW) < limit
    {
      if i < |rows| {
        assert all[..i] == rows[..i];
      } else {
        assert all[..i] == rows;
      }
    }
  }

  lemma {:induction false} AttemptsAreCounted(rows: seq<Audit>, lo: int, hi: int)
    ensures AttemptsIn(rows, lo, hi) <= CountSince(rows, lo) + LostIn(rows, lo, hi)
  {
    if rows != [] {
      AttemptsAreCounted(rows[..|rows| - 1], lo, hi);
    }
  }

  /** With outcomes written, every finished attempt is counted twice. */
  lemma {:induction false} AttemptsAreCountedTwice(rows: seq<Audit>, lo: int, hi: int)
    requires Sorted(rows) && Paired(rows) && LastIsNoAttempt(rows)
    ensures 2 * AttemptsIn(rows, lo, hi) <= CountSince(rows, lo)
    decreases |rows|
  {
    if rows != [] {
      var n := |rows| - 1;
      var before := rows[..n];
      assert forall i :: 0 <= i < |before| ==> before[i] == rows[i];
      if n > 0 && rows[n - 1].outcome == Attempted {
        var earlier := before[..n - 1];
        assert earlier == rows[..n - 1];
        assert LastIsNoAttempt(earlier);
        AttemptsAreCountedTwice(earlier, lo, hi);
      } else {
        AttemptsAreCountedTwice(before, lo, hi);
      }
    }
  }

  /** The last attempt of a window, if there is one. */
  lemma {:induction false} LastAttempt(rows: seq<Audit>, lo: int, hi: int) returns (i: nat)
    requires AttemptsIn(rows, lo, hi) > 0
    ensures i < |rows| && rows[i].outcome == Attempted && lo <= rows[i].at <= hi
    ensures AttemptsIn(rows, lo, hi) == AttemptsIn(rows[..i], lo, hi) + 1 && LostIn(rows[..i], lo, hi) <= LostIn(rows, lo, hi)
  {
    var n := |rows| - 1;
    var r := rows[n];
    if r.outcome == Attempted && lo <= r.at <= hi {
      i := n;
    } else {
      i := LastAttempt(rows[..n], lo, hi);
      assert rows[..n][..i] == rows[..i];
    }
  }

  // ----- the bounds -----

  /** Any five-minute window holds at most `limit` restart attempts, not counting those whose row was lost. */
  lemma AtMostLimitAttempts(rows: seq<Audit>, limit: int, start: int)
    requires Guarded(rows, limit) && limit >= 1
    ensures AttemptsFrom(rows, start) <= limit + LostFrom(rows, start)
  {
    if AttemptsFrom(rows, start) > 0 {
      var i := LastAttempt(rows, start, start + WINDOW);
      AttemptsAreCounted(rows[..i], start, start + WINDOW);
      CountIsAntitone(rows[..i], rows[i].at - WINDOW, start);
    }
  }

  /** And only half as many, rounded up, when every outcome row is written: both rows are counted. */
  lemma AtMostHalfWhenPaired(rows: seq<Audit>, limit: int, start: int)
    requires Sorted(rows) && Guarded(rows, limit) && Paired(rows) && limit >= 1
    ensures AttemptsFrom(rows, start) <= (limit + 1) / 2
  {
    if AttemptsFrom(rows, start) > 0 {
      var i := LastAttempt(rows, start, start + WINDOW);
      var before := rows[..i];
      assert forall j :: 0 <= j < |before| ==> before[j] == rows[j];
      assert LastIsNoAttempt(before);
      AttemptsAreCountedTwice(before, start, start + WINDOW);
      CountIsAntitone(before, rows[i].at - WINDOW, start);
    }
  }

  // ----- both bounds are reached -----

  predicate AllAtZero(rows: seq<Audit>) {
    forall i :: 0 <= i < |rows| ==> rows[i].at == 0
  }

  lemma CountAppend(rows: seq<Audit>, r: Audit)
    ensures CountSince(rows + [r], -WINDOW) == CountSince(rows, -WINDOW) + (if r.stored && r.at >= -WINDOW then 1 else 0)
    ensures AttemptsFrom(rows + [r], 0) == AttemptsFrom(rows, 0) + (if r.outcome == Attempted && 0 <= r.at <= WINDOW then 1 else 0)
    ensures LostFrom(rows + [r], 0) ==
            LostFrom(rows, 0) + (if r.outcome == Attempted && 0 <= r.at <= WINDOW && !r.stored then 1 else 0)
  {
    assert (rows + [r])[..|rows|] == rows;
  }

  /** One more attempt at moment 0, whose row is stored or lost. */
  lemma AttemptAppend(rows: seq<Audit>, limit: int, stored: bool)
    requires AllAtZero(rows) && Guarded(rows, limit) && CountSince(rows, -WINDOW) < limit
    ensures var more := rows + [Audit(Attempted, 0, stored)];
            && AllAtZero(more) && Guarded(more, limit)
            && CountSince(more, -WINDOW) == CountSince(rows, -WINDOW) + (if stored then 1 else 0)
            && AttemptsFrom(more, 0) == AttemptsFrom(rows, 0) + 1
            && LostFrom(more, 0) == LostFrom(rows, 0) + (if stored then 0 else 1)
  {
    GuardedAppend(rows, Audit(Attempted, 0, stored), limit);
    CountAppend(rows, Audit(Attempted, 0, stored));
  }

  /** `lost` attempts that leave no row, and then `n` that do, without outcomes. */
  lemma {:induction false} AttemptsWithoutOutcomes(limit: int, lost: nat, n: nat) returns (rows: seq<Audit>)
    requires n <= limit && limit >= 1
    ensures AllAtZero(rows) && Guarded(rows, limit)
    ensures CountSince(rows, -WINDOW) == n && AttemptsFrom(rows, 0) == n + lost && LostFrom(rows, 0) == lost
    decreases lost + n
  {
    rows := [];
    if n > 0 {
      var before := AttemptsWithoutOutcomes(limit, lost, n - 1);
      AttemptAppend(before, limit, true);
      rows := before + [Audit(Attempted, 0, true)];
    } else if lost > 0 {
      var before := AttemptsWithoutOutcomes(limit, lost - 1, 0);
      AttemptAppend(before, limit, false);
      rows := before + [Audit(Attempted, 0, false)];
    }
  }

  function FailedRestart(before: seq<Audit>): seq<Audit> {
    before + [Audit(Attempted, 0, true)] + [Audit(Failed, 0, true)]
  }

  /** A further failed restart at moment 0 is one more attempt and two more rows. */
  lemma FailedRestartCounts(before: seq<Audit>)
    ensures CountSince(FailedRestart(before), -WINDOW) == CountSince(before, -WINDOW) + 2
    ensures AttemptsFrom(FailedRestart(before), 0) == AttemptsFrom(before, 0) + 1
  {
    CountAppend(before, Audit(Attempted, 0, true));
    CountAppend(before + [Audit(Attempted, 0, true)], Audit(Failed, 0, true));
  }

  lemma FailedRestartIsGuarded(before: seq<Audit>, limit: int)
    requires Guarded(before, limit) && CountSince(before, -WINDOW) < limit
    ensures Guarded(FailedRestart(before), limit)
  {
    GuardedAppend(before, Audit(Attempted, 0, true), limit);
    GuardedAppend(before + [Audit(Attempted, 0, true)], Audit(Failed, 0, true), limit);
  }

  lemma FailedRestartIsPaired(before: seq<Audit>)
    requires Paired(before) && LastIsNoAttempt(before) && AllAtZero(before)
    ensures var rows := FailedRestart(before); Paired(rows) && LastIsNoAttempt(rows) && AllAtZero(rows) && Sorted(rows)
  {
    var more := [Audit(Attempted, 0, true), Audit(Failed, 0, true)];
    PairedAppend(before, more);
    assert FailedRestart(before) == before + more;
  }

  lemma {:induction false} AttemptsWithOutcomes(limit: int, n: nat) returns (rows: seq<Audit>)
    requires 2 * n <= limit + 1
    ensures AllAtZero(rows) && Guarded(rows, limit) && Paired(rows) && LastIsNoAttempt(rows)
    ensures CountSince(rows, -WINDOW) == 2 * n && AttemptsFrom(rows, 0) == n
  {
    rows := [];
    if n > 0 {
      var before := AttemptsWithOutcomes(limit, n - 1);
      FailedRestartCounts(before);
      FailedRestartIsGuarded(before, limit);
      FailedRestartIsPaired(before);
      rows := FailedRestart(before);
    }
  }

  /** For every limit, and every number of lost rows, there are histories that reach the two bounds. */
  lemma BoundsAreReached(limit: int, lost: nat)
    requires limit >= 1
    ensures exists rows :: Sorted(rows) && Guarded(rows, limit) && LostFrom(rows, 0) == lost
                           && AttemptsFrom(rows, 0) == limit + lost
    ensures exists rows :: Sorted(rows) && Guarded(rows, limit) && Paired(rows) && AttemptsFrom(rows, 0) == (limit + 1) / 2
  {
    var a := AttemptsWithoutOutcomes(limit, lost, limit);
    var b := AttemptsWithOutcomes(limit, (limit + 1) / 2);
  }
}
