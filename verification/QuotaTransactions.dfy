/**
  Concurrent use of one user's quota rows (cmd/api/resources.go).

  ReserveDeploymentResources is a transaction that locks the quotas row and then the resource_usage
  row, reads both, checks, updates and commits; ResetQuota updates usage and commits later; a release
  and a quota change are single statements.  Any number of them run at once, one database step at a
  time, and any transaction may be rolled back at any step.
  */
module QuotaTransactions {
  import opened Shared
  import opened Quotas

  /** Where a transaction stands.  `pending` is the row version it has written but not committed. */
  datatype Txn =
    | Begun(a: Amount)
    | QuotaLocked(a: Amount)
    | BothLocked(a: Amount)
    | RowsRead(a: Amount, quota: Amount, usage: Amount)
    | Passed(a: Amount)
    | Reserved(a: Amount, pending: Amount)
    | ResetBegun
    | Reset(pending: Amount)

  /** What has been committed, in order. */
  datatype Commit = DidReserve(a: Amount) | DidRelease(a: Amount) | DidReset | DidSetQuota(quota: Amount)

  datatype State = State(
    quota: Amount,
    usage: Amount,
    txns: map<int, Txn>,
    quotaLock: Option<int>,
    usageLock: Option<int>,
    log: seq<Commit>)

  datatype Step =
    | BeginReserve(id: int, a: Amount)
    | LockQuota(id: int)
    | LockUsage(id: int)
    | ReadRows(id: int)
    | Check(id: int)
    | Write(id: int)
    | BeginReset(id: int)
    | WriteReset(id: int)
    | CommitTxn(id: int)
    | Rollback(id: int)
    | ReleaseNow(a: Amount)
    | SetQuota(quota: Amount)

  predicate Enabled(s: State, step: Step) {
    match step
    case BeginReserve(id, a) => id !in s.txns && a.NonNegative()   // validateResources comes first
    case LockQuota(id) => id in s.txns && s.txns[id].Begun? && s.quotaLock == None
    case LockUsage(id) => id in s.txns && s.txns[id].QuotaLocked? && s.usageLock == None
    case ReadRows(id) => id in s.txns && s.txns[id].BothLocked?
    case Check(id) => id in s.txns && s.txns[id].RowsRead?
    case Write(id) => id in s.txns && s.txns[id].Passed?
    case BeginReset(id) => id !in s.txns
    case WriteReset(id) => id in s.txns && s.txns[id].ResetBegun? && s.usageLock == None
    case CommitTxn(id) => id in s.txns && (s.txns[id].Reserved? || s.txns[id].Reset?)
    case Rollback(id) => id in s.txns
    case ReleaseNow(a) => a.NonNegative() && s.usageLock == None
    case SetQuota(q) => s.quotaLock == None
  }

  /** The end of a transaction drops its locks. */
  function End(s: State, id: int): State {
    s.(txns := s.txns - {id},
       quotaLock := if s.quotaLock == Some(id) then None else s.quotaLock,
       usageLock := if s.usageLock == Some(id) then None else s.usageLock)
  }

  function Apply(s: State, step: Step): State
    requires Enabled(s, step)
  {
    match step
    case BeginReserve(id, a) => s.(txns := s.txns[id := Begun(a)])
    case LockQuota(id) => s.(txns := s.txns[id := QuotaLocked(s.txns[id].a)], quotaLock := Some(id))
    case LockUsage(id) => s.(txns := s.txns[id := BothLocked(s.txns[id].a)], usageLock := Some(id))
    case ReadRows(id) => s.(txns := s.txns[id := RowsRead(s.txns[id].a, s.quota, s.usage)])
    case Check(id) =>
      var t := s.txns[id];
      if t.usage.Plus(t.a).Within(t.quota) then s.(txns := s.txns[id := Passed(t.a)]) else End(s, id)
    case Write(id) => s.(txns := s.txns[id := Reserved(s.txns[id].a, s.usage.Plus(s.txns[id].a))])
    case BeginReset(id) => s.(txns := s.txns[id := ResetBegun])
    case WriteReset(id) => s.(txns := s.txns[id := Reset(ZERO)], usageLock := Some(id))
    case CommitTxn(id) =>
      var t := s.txns[id];
      End(s, id).(usage := t.pending, log := s.log + [if t.Reserved? then DidReserve(t.a) else DidReset])
    case Rollback(id) => End(s, id)
    case ReleaseNow(a) => s.(usage := s.usage.Less(a), log := s.log + [DidRelease(a)])
    case SetQuota(q) => s.(quota := q, log := s.log + [DidSetQuota(q)])
  }

  predicate Init(s: State) {
    s.usage == ZERO && s.quota.NonNegative() && s.txns == map[] && s.quotaLock == None && s.usageLock == None && s.log == []
  }

  ghost predicate IsRun(run: seq<State>, steps: seq<Step>) {
    && |run| == |steps| + 1 && Init(run[0])
    && forall i {:trigger steps[i]} :: 0 <= i < |steps| ==> Enabled(run[i], steps[i]) && run[i + 1] == Apply(run[i], steps[i])
  }

  // ----- the sequential meaning -----

  datatype Rows = Rows(quota: Amount, usage: Amount)

  /** One committed operation as a call of its own; None if it is refused. */
  function Perform(r: Rows, c: Commit): Option<Rows> {
    match c
    case DidReserve(a) => (match Reserve(r.quota, r.usage, a) case None => None case Some(u) => Some(r.(usage := u)))
    case DidRelease(a) => (match Release(r.usage, a) case None => None case Some(u) => Some(r.(usage := u)))
    case DidReset => Some(r.(usage := ZERO))
    case DidSetQuota(q) => Some(r.(quota := q))
  }

  /** The committed operations one after the other; None if one is refused. */
  function Sequentially(start: Rows, log: seq<Commit>): Option<Rows> {
    if log == [] then Some(start)
    else
      match Sequentially(start, log[..|log| - 1])
      case None => None
      case Some(r) => Perform(r, log[|log| - 1])
  }

  lemma SequentiallySnoc(start: Rows, log: seq<Commit>, c: Commit, r: Rows)
    requires Sequentially(start, log) == Some(r)
    ensures Sequentially(start, log + [c]) == Perform(r, c)
  {
    assert (log + [c])[..|log|] == log;
  }

  // ----- the invariant -----

  /** A transaction past a lock holds it, and what it has seen is still so. */
  predicate TxnInv(s: State, id: int, t: Txn) {
    match t
    case Begun(a) => a.NonNegative()
    case QuotaLocked(a) => a.NonNegative() && s.quotaLock == Some(id)
    case BothLocked(a) => a.NonNegative() && s.quotaLock == Some(id) && s.usageLock == Some(id)
    case RowsRead(a, q, u) =>
      a.NonNegative() && s.quotaLock == Some(id) && s.usageLock == Some(id) && q == s.quota && u == s.usage
    case Passed(a) =>
      a.NonNegative() && s.quotaLock == Some(id) && s.usageLock == Some(id) && s.usage.Plus(a).Within(s.quota)
    case Reserved(a, pending) =>
      && a.NonNegative() && s.quotaLock == Some(id) && s.usageLock == Some(id)
      && pending == s.usage.Plus(a) && pending.Within(s.quota)
    case ResetBegun => true
    case Reset(pending) => s.usageLock == Some(id) && pending == ZERO
  }

  predicate Inv(s: State) {
    && (forall id :: id in s.txns ==> TxnInv(s, id, s.txns[id]))
    && s.usage.NonNegative()
  }

  lemma StepKeepsInv(s: State, step: Step)
    requires Inv(s) && Enabled(s, step)
    ensures Inv(Apply(s, step))
  {
    var s' := Apply(s, step);
    forall id | id in s'.txns
      ensures TxnInv(s', id, s'.txns[id])
    {
      if id in s.txns {
        assert TxnInv(s, id, s.txns[id]);
      }
    }
    if step.CommitTxn? {
      assert TxnInv(s, step.id, s.txns[step.id]);
    }
  }

  /** What a step adds to the log, if anything. */
  function Committed(s: State, step: Step): seq<Commit>
    requires Enabled(s, step)
  {
    match step
    case CommitTxn(id) => [if s.txns[id].Reserved? then DidReserve(s.txns[id].a) else DidReset]
    case ReleaseNow(a) => [DidRelease(a)]
    case SetQuota(q) => [DidSetQuota(q)]
    case _ => []
  }

  /** A step that commits does to the rows what its operation does; any other leaves them. */
  lemma StepPerforms(s: State, step: Step)
    requires Inv(s) && Enabled(s, step)
    ensures var s' := Apply(s, step); var c := Committed(s, step);
            && s'.log == s.log + c
            && (c == [] ==> s'.quota == s.quota && s'.usage == s.usage)
            && (c != [] ==> Perform(Rows(s.quota, s.usage), c[0]) == Some(Rows(s'.quota, s'.usage)))
  {
    match step
    case CommitTxn(id) => assert TxnInv(s, id, s.txns[id]);
    case _ =>
  }

  /** Rows change only at a commit, and exactly as the sequential operation changes them. */
  lemma StepRefines(s: State, step: Step, start: Rows)
    requires Inv(s) && Enabled(s, step)
    requires Sequentially(start, s.log) == Some(Rows(s.quota, s.usage))
    ensures var s' := Apply(s, step); Sequentially(start, s'.log) == Some(Rows(s'.quota, s'.usage))
  {
    StepPerforms(s, step);
    var c := Committed(s, step);
    if c == [] {
      assert s.log + [] == s.log;
    } else {
      assert c == [c[0]];
      SequentiallySnoc(start, s.log, c[0], Rows(s.quota, s.usage));
    }
  }

  lemma {:induction false} RunKeepsInv(run: seq<State>, steps: seq<Step>, i: nat)
    requires IsRun(run, steps) && i < |run|
    ensures Inv(run[i])
    ensures Sequentially(Rows(run[0].quota, ZERO), run[i].log) == Some(Rows(run[i].quota, run[i].usage))
  {
    if i > 0 {
      RunKeepsInv(run, steps, i - 1);
      var step := steps[i - 1];
      StepKeepsInv(run[i - 1], step);
      StepRefines(run[i - 1], step, Rows(run[0].quota, ZERO));
    }
  }

  // ----- what callers may rely on -----

  /**
    Every interleaving has the effect of its committed operations performed one at a time, in the
    order of their commits, and every committed reservation would have been accepted then.
    */
  lemma RunsAreSerializable(run: seq<State>, steps: seq<Step>, i: nat)
    requires IsRun(run, steps) && i < |run|
    ensures Sequentially(Rows(run[0].quota, ZERO), run[i].log) == Some(Rows(run[i].quota, run[i].usage))
  {
    RunKeepsInv(run, steps, i);
  }

  /** Usage can leave the quota only by the quota being lowered below it. */
  lemma OnlyAQuotaChangeExceeds(run: seq<State>, steps: seq<Step>, i: nat)
    requires IsRun(run, steps) && i < |steps| && run[i].usage.Within(run[i].quota)
    ensures run[i + 1].usage.Within(run[i + 1].quota) <==>
            !(steps[i].SetQuota? && !run[i].usage.Within(steps[i].quota))
  {
    RunKeepsInv(run, steps, i);
    var s, step := run[i], steps[i];
    assert run[i + 1] == Apply(s, step);
    if step.CommitTxn? {
      assert TxnInv(s, step.id, s.txns[step.id]);
      StartsNonNegative(run, steps, i);
    }
  }

  lemma {:induction false} StartsNonNegative(run: seq<State>, steps: seq<Step>, i: nat)
    requires IsRun(run, steps) && i < |run| && run[i].usage.Within(run[i].quota)
    ensures run[i].quota.NonNegative()
  {
    RunKeepsInv(run, steps, i);
  }

  /** With a fixed quota, usage stays between zero and the quota in all four dimensions, always. */
  lemma {:induction false} UsageStaysWithinQuota(run: seq<State>, steps: seq<Step>, i: nat)
    requires IsRun(run, steps) && i < |run|
    requires forall j :: 0 <= j < i ==> !steps[j].SetQuota?
    ensures run[i].usage.NonNegative() && run[i].usage.Within(run[i].quota) && run[i].quota == run[0].quota
    ensures 0.0 <= run[i].usage.cpu <= run[0].quota.cpu && 0 <= run[i].usage.memoryMB <= run[0].quota.memoryMB
    ensures 0 <= run[i].usage.apps <= run[0].quota.apps && 0 <= run[i].usage.storageMB <= run[0].quota.storageMB
  {
    RunKeepsInv(run, steps, i);
    if i > 0 {
      UsageStaysWithinQuota(run, steps, i - 1);
      OnlyAQuotaChangeExceeds(run, steps, i - 1);
      assert run[i - 1 + 1] == Apply(run[i - 1], steps[i - 1]);
    }
  }

  /** A refused or rolled-back reservation leaves no trace but its released locks. */
  lemma RefusalChangesNothing(run: seq<State>, steps: seq<Step>, i: nat)
    requires IsRun(run, steps) && i < |steps|
    requires steps[i].Rollback? || (steps[i].Check? && steps[i].id !in run[i + 1].txns)
    ensures var s, s' := run[i], run[i + 1];
            && s'.usage == s.usage && s'.quota == s.quota && s'.log == s.log && s'.txns == s.txns - {steps[i].id}
            && s'.quotaLock != Some(steps[i].id) && s'.usageLock != Some(steps[i].id)
    ensures steps[i].Check? ==>
              !run[i].usage.Plus(run[i].txns[steps[i].id].a).Within(run[i].quota)
  {
    RunKeepsInv(run, steps, i);
    assert run[i + 1] == Apply(run[i], steps[i]);
    if steps[i].Check? {
      assert TxnInv(run[i], steps[i].id, run[i].txns[steps[i].id]);
    }
  }
}
