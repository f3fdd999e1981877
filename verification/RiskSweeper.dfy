/** The abuse heuristic of cmd/api/admin_billing.go: sustained CPU load opens one alert per deployment. */
module RiskSweeper {

  /** The length of the run of consecutive rounds, up to the last one, in which `id` was hot. */
  function TrailingRun(rounds: seq<seq<string>>, id: string): nat {
    if rounds == [] || id !in rounds[|rounds| - 1] then 0 else TrailingRun(rounds[..|rounds| - 1], id) + 1
  }

  ghost predicate HotInLast(rounds: seq<seq<string>>, id: string, n: nat) {
    n <= |rounds| && forall i :: |rounds| - n <= i < |rounds| ==> id in rounds[i]
  }

  /** What a round reports: the hot ids, in order, whose run is long enough. */
  function Sustained(rounds: seq<seq<string>>, ids: seq<string>, required: int): seq<string> {
    if ids == [] then []
    else
      var id := ids[|ids| - 1];
      Sustained(rounds, ids[..|ids| - 1], required) + (if TrailingRun(rounds, id) >= required then [id] else [])
  }

  datatype Alert = Alert(deploymentID: string, open: bool)

  function OpenAlerts(alerts: seq<Alert>, d: string): nat {
    if alerts == [] then 0
    else OpenAlerts(alerts[..|alerts| - 1], d) +
         if alerts[|alerts| - 1].deploymentID == d && alerts[|alerts| - 1].open then 1 else 0
  }

  lemma {:induction false} OpenAlertsAt(alerts: seq<Alert>, d: string)
    ensures OpenAlerts(alerts, d) == 0 <==> forall i :: 0 <= i < |alerts| ==> !(alerts[i].deploymentID == d && alerts[i].open)
  {
    if alerts != [] {
      OpenAlertsAt(alerts[..|alerts| - 1], d);
      assert forall i :: 0 <= i < |alerts| - 1 ==> alerts[..|alerts| - 1][i] == alerts[i];
    }
  }

  lemma {:induction false} ResolveOne(alerts: seq<Alert>, n: nat, d: string)
    requires n < |alerts| && alerts[n].open
    ensures OpenAlerts(alerts[n := alerts[n].(open := false)], d) ==
            OpenAlerts(alerts, d) - (if alerts[n].deploymentID == d then 1 else 0)
  {
    var after := alerts[n := alerts[n].(open := false)];
    var m := |alerts| - 1;
    if n < m {
      ResolveOne(alerts[..m], n, d);
      assert after[..m] == alerts[..m][n := alerts[n].(open := false)];
    } else {
      assert after[..m] == alerts[..m];
    }
  }

  /** The rows a round adds for the deployments it newly reports. */
  function NewAlerts(ids: seq<string>): seq<Alert> {
    seq(|ids|, i requires 0 <= i < |ids| => Alert(ids[i], true))
  }

  lemma NewAlertsSnoc(ids: seq<string>, id: string)
    ensures NewAlerts(ids + [id]) == NewAlerts(ids) + [Alert(id, true)]
  {
  }

  lemma OneMoreAlert(alerts: seq<Alert>, a: Alert, d: string)
    ensures OpenAlerts(alerts + [a], d) == OpenAlerts(alerts, d) + (if a.deploymentID == d && a.open then 1 else 0)
  {
    assert (alerts + [a])[..|alerts|] == alerts;
  }

  lemma {:induction false} MoreAlerts(alerts: seq<Alert>, more: seq<Alert>, d: string)
    ensures OpenAlerts(alerts + more, d) == OpenAlerts(alerts, d) + OpenAlerts(more, d)
  {
    if more == [] {
      assert alerts + more == alerts;
    } else {
      assert (alerts + more)[..|alerts + more| - 1] == alerts + more[..|more| - 1];
      MoreAlerts(alerts, more[..|more| - 1], d);
    }
  }

  /** After some of the ids: each has its open alert, and the new rows are those of `created`. */
  ghost predicate Opened(before: seq<Alert>, now: seq<Alert>, ids: seq<string>, created: seq<string>) {
    && now == before + NewAlerts(created)
    && (forall j :: 0 <= j < |ids| ==> OpenAlerts(now, ids[j]) == 1)
    && (forall k :: 0 <= k < |created| ==> created[k] in ids && OpenAlerts(before, created[k]) == 0)
  }

  lemma OpenedFound(before: seq<Alert>, now: seq<Alert>, ids: seq<string>, created: seq<string>, id: string)
    requires Opened(before, now, ids, created) && OpenAlerts(now, id) == 1
    ensures Opened(before, now, ids + [id], created)
  {
  }

  /** One more alert opens one deployment's and touches no other. */
  lemma OneMoreOpen(now: seq<Alert>, ids: seq<string>, id: string)
    requires OpenAlerts(now, id) == 0 && forall j :: 0 <= j < |ids| ==> OpenAlerts(now, ids[j]) == 1
    ensures forall j :: 0 <= j < |ids + [id]| ==> OpenAlerts(now + [Alert(id, true)], (ids + [id])[j]) == 1
  {
    forall j | 0 <= j < |ids + [id]|
      ensures OpenAlerts(now + [Alert(id, true)], (ids + [id])[j]) == 1
    {
      OneMoreAlert(now, Alert(id, true), (ids + [id])[j]);
    }
  }

  lemma OpenedNew(before: seq<Alert>, now: seq<Alert>, ids: seq<string>, created: seq<string>, id: string)
    requires Opened(before, now, ids, created) && OpenAlerts(now, id) == 0
    ensures Opened(before, now + [Alert(id, true)], ids + [id], created + [id])
  {
    OneMoreOpen(now, ids, id);
    MoreAlerts(before, NewAlerts(created), id);
    NewAlertsSnoc(created, id);
    assert before + NewAlerts(created) + [Alert(id, true)] == before + (NewAlerts(created) + [Alert(id, true)]);
  }

  /** How many of the ids come before the first whose insert fails. */
  function Reached(ids: seq<string>, fails: set<string>): (n: nat)
    ensures n <= |ids| && (n < |ids| ==> ids[n] in fails)
    ensures forall i :: 0 <= i < n ==> ids[i] !in fails
  {
    if ids == [] || ids[0] in fails then 0 else Reached(ids[1..], fails) + 1
  }

  lemma {:induction false} ReachedIs(ids: seq<string>, fails: set<string>, n: nat)
    requires n <= |ids| && (forall i :: 0 <= i < n ==> ids[i] !in fails) && (n < |ids| ==> ids[n] in fails)
    ensures Reached(ids, fails) == n
  {
  }

  /** The risk_alerts table. */
  class AlertTable {
    var alerts: seq<Alert>

    /** No deployment has two open alerts. */
    ghost predicate Valid()
      reads this
    {
      forall d :: OpenAlerts(alerts, d) <= 1
    }

    constructor ()
      ensures Valid() && alerts == []
    {
      alerts := [];
    }

    /** INSERT ... WHERE NOT EXISTS (an open alert of the deployment) */
    method OpenRiskAlert(d: string) returns (inserted: bool)
      requires Valid()
      modifies this
      ensures Valid() && OpenAlerts(alerts, d) == 1
      ensures inserted <==> OpenAlerts(old(alerts), d) == 0
      ensures alerts == if inserted then old(alerts) + [Alert(d, true)] else old(alerts)
    {
      inserted := true;
      for i := 0 to |alerts|
        invariant inserted <==> forall j :: 0 <= j < i ==> !(alerts[j].deploymentID == d && alerts[j].open)
      {
        if alerts[i].deploymentID == d && alerts[i].open {
          inserted := false;
        }
      }
      OpenAlertsAt(alerts, d);
      if inserted {
        forall e
          ensures OpenAlerts(alerts + [Alert(d, true)], e) == OpenAlerts(alerts, e) + (if e == d then 1 else 0)
        {
          OneMoreAlert(alerts, Alert(d, true), e);
        }
        alerts := alerts + [Alert(d, true)];
      }
    }

    /** One reported deployment, after `ids`. */
    method OpenNext(id: string, created: seq<string>, ghost before: seq<Alert>, ghost ids: seq<string>)
      returns (created': seq<string>)
      requires Valid() && Opened(before, alerts, ids, created)
      modifies this
      ensures Valid() && Opened(before, alerts, ids + [id], created')
    {
      ghost var now := alerts;
      var inserted := OpenRiskAlert(id);
      if inserted {
        OpenedNew(before, now, ids, created, id);
        created' := created + [id];
      } else {
        OpenedFound(before, now, ids, created, id);
        created' := created;
      }
    }

    /**
      sweep's loop over the reported deployments; returns those newly alerted.  It stops at the first
      insert that fails.
      */
    method OpenAll(ids: seq<string>, fails: set<string>) returns (created: seq<string>, ok: bool)
      requires Valid()
      modifies this
      ensures Valid() && (ok <==> Reached(ids, fails) == |ids|)
      ensures Opened(old(alerts), alerts, ids[..Reached(ids, fails)], created)
    {
      created, ok := [], true;
      for i := 0 to |ids|
        invariant Valid() && Opened(old(alerts), alerts, ids[..i], created)
        invariant forall j :: 0 <= j < i ==> ids[j] !in fails
      {
        if ids[i] in fails {
          ReachedIs(ids, fails, i);
          return created, false;
        }
        assert ids[..i + 1] == ids[..i] + [ids[i]];
        created := OpenNext(ids[i], created, old(alerts), ids[..i]);
      }
      ReachedIs(ids, fails, |ids|);
    }

    /** False when the alert does not exist or is already resolved. */
    method ResolveRiskAlert(n: int) returns (found: bool)
      requires Valid()
      modifies this
      ensures Valid()
      ensures found <==> 0 <= n < |old(alerts)| && old(alerts)[n].open
      ensures alerts == if found then old(alerts)[n := old(alerts)[n].(open := false)] else old(alerts)
    {
      found := 0 <= n < |alerts| && alerts[n].open;
      if found {
        ghost var before := alerts;
        alerts := alerts[n := alerts[n].(open := false)];
        forall d
          ensures OpenAlerts(alerts, d) <= 1
        {
          ResolveOne(before, n, d);
          assert OpenAlerts(before, d) <= 1;
        }
      }
    }
  }

  class Sweeper {
    const required: int
    var hot: map<string, int>
    /** every sample round so far */
    ghost var rounds: seq<seq<string>>

    /** The counters are the lengths of the trailing hot runs; an absent counter stands for 0. */
    ghost predicate Valid()
      reads this
    {
      && (forall id :: id in hot <==> TrailingRun(rounds, id) > 0)
      && (forall id :: id in hot ==> hot[id] == TrailingRun(rounds, id))
    }

    constructor (required: int)
      ensures Valid() && this.required == required && rounds == [] && hot == map[]
    {
      this.required, hot, rounds := required, map[], [];
    }

    method Observe(highIDs: seq<string>) returns (sustained: seq<string>)
      requires Valid()
      modifies this
      ensures Valid() && rounds == old(rounds) + [highIDs]
      ensures sustained == Sustained(rounds, highIDs, required)
    {
      ghost var now := rounds + [highIDs];
      assert now[..|rounds|] == rounds;
      var next: map<string, int> := map[];
      sustained := [];
      for i := 0 to |highIDs|
        invariant forall id :: id in next <==> id in highIDs[..i]
        invariant forall id :: id in next ==> next[id] == TrailingRun(now, id)
        invariant sustained == Sustained(now, highIDs[..i], required)
      {
        var id := highIDs[i];
        assert highIDs[..i + 1][..i] == highIDs[..i] && highIDs[..i + 1] == highIDs[..i] + [id];
        next := next[id := (if id in hot then hot[id] else 0) + 1];
        if next[id] >= required {
          sustained := sustained + [id];
        }
      }
      assert highIDs[..|highIDs|] == highIDs;
      hot := next;
      rounds := now;
    }

    /**
      One sample round, and an alert for every deployment it reports; no round at all if the
      containers cannot be listed.
      */
    method Sweep(table: AlertTable, listFails: bool, highIDs: seq<string>, fails: set<string>)
      returns (created: seq<string>, ok: bool)
      requires Valid() && table.Valid()
      modifies this, table
      ensures Valid() && table.Valid()
      ensures listFails ==> !ok && created == [] && hot == old(hot) && rounds == old(rounds) && table.alerts == old(table.alerts)
      ensures !listFails ==>
                var reported := Sustained(rounds, highIDs, required);
                && rounds == old(rounds) + [highIDs]
                && (ok <==> Reached(reported, fails) == |reported|)
                && Opened(old(table.alerts), table.alerts, reported[..Reached(reported, fails)], created)
    {
      if listFails {
        return [], false;
      }
      var reported := Observe(highIDs);
      created, ok := table.OpenAll(reported, fails);
    }
  }

  /** Long trailing runs and being hot in each of the last rounds are the same thing. */
  lemma {:induction false} RunIsHotInLast(rounds: seq<seq<string>>, id: string, n: nat)
    ensures TrailingRun(rounds, id) >= n <==> HotInLast(rounds, id, n)
    decreases |rounds|
  {
    if n > 0 && rounds != [] {
      var before := rounds[..|rounds| - 1];
      RunIsHotInLast(before, id, n - 1);
      assert forall i :: 0 <= i < |before| ==> before[i] == rounds[i];
      if HotInLast(rounds, id, n) {
        assert rounds[|rounds| - 1] == rounds[|rounds| - 1] && id in rounds[|rounds| - 1];
      }
    }
  }

  lemma {:induction false} SustainedIs(rounds: seq<seq<string>>, ids: seq<string>, required: int, id: string)
    ensures id in Sustained(rounds, ids, required) <==> id in ids && TrailingRun(rounds, id) >= required
  {
    if ids != [] {
      SustainedIs(rounds, ids[..|ids| - 1], required, id);
      assert ids == ids[..|ids| - 1] + [ids[|ids| - 1]];
    }
  }

  /** An id is reported exactly when it was hot in each of the last `required` rounds. */
  lemma ReportedIffSustained(rounds: seq<seq<string>>, required: nat, id: string)
    requires rounds != [] && required >= 1
    ensures id in Sustained(rounds, rounds[|rounds| - 1], required) <==> HotInLast(rounds, id, required)
  {
    SustainedIs(rounds, rounds[|rounds| - 1], required, id);
    RunIsHotInLast(rounds, id, required);
    if HotInLast(rounds, id, required) {
      assert id in rounds[|rounds| - 1];
    }
  }
}
