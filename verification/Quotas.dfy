/**
  Quota accounting of cmd/api/resources.go: reserving and releasing resources, one by one and in
  bulk.  A user's two rows (quotas and resource_usage) are the fields of an Account.
  */
module Quotas {
  import opened Shared

  /** CPU cores, memory, number of apps and storage. */
  datatype Amount = Amount(cpu: real, memoryMB: int, apps: int, storageMB: int) {
    predicate NonNegative() {
      cpu >= 0.0 && memoryMB >= 0 && apps >= 0 && storageMB >= 0
    }

    function Plus(a: Amount): Amount {
      Amount(cpu + a.cpu, memoryMB + a.memoryMB, apps + a.apps, storageMB + a.storageMB)
    }

    /** GREATEST(current - released, 0), column by column */
    function Less(a: Amount): Amount {
      Amount(if cpu - a.cpu > 0.0 then cpu - a.cpu else 0.0, Max0(memoryMB - a.memoryMB), Max0(apps - a.apps),
             Max0(storageMB - a.storageMB))
    }

    predicate Within(limit: Amount) {
      cpu <= limit.cpu && memoryMB <= limit.memoryMB && apps <= limit.apps && storageMB <= limit.storageMB
    }
  }

  const ZERO: Amount := Amount(0.0, 0, 0, 0)

  function Max0(x: int): int {
    if x > 0 then x else 0
  }

  datatype Error = Negative | CPUExceeded | MemoryExceeded | AppsExceeded | StorageExceeded | UserNotFound

  // ----- the operations, as functions on the two rows -----

  /** The usage after a reservation; None when it is refused. */
  function Reserve(quota: Amount, usage: Amount, a: Amount): Option<Amount> {
    if a.NonNegative() && usage.Plus(a).Within(quota) then Some(usage.Plus(a)) else None
  }

  /** The usage after a release; None when the amounts are invalid. */
  function Release(usage: Amount, a: Amount): Option<Amount> {
    if a.NonNegative() then Some(usage.Less(a)) else None
  }

  function Total(updates: seq<Amount>): Amount {
    if updates == [] then ZERO else Total(updates[..|updates| - 1]).Plus(updates[|updates| - 1])
  }

  /** One reservation after the other, all of which must be accepted. */
  function ReserveEach(quota: Amount, usage: Amount, updates: seq<Amount>): Option<Amount> {
    if updates == [] then Some(usage)
    else
      match ReserveEach(quota, usage, updates[..|updates| - 1])
      case None => None
      case Some(u) => Reserve(quota, u, updates[|updates| - 1])
  }

  function ReleaseEach(usage: Amount, updates: seq<Amount>): Option<Amount> {
    if updates == [] then Some(usage)
    else
      match ReleaseEach(usage, updates[..|updates| - 1])
      case None => None
      case Some(u) => Release(u, updates[|updates| - 1])
  }

  predicate AllNonNegative(updates: seq<Amount>) {
    forall i :: 0 <= i < |updates| ==> updates[i].NonNegative()
  }

  // ----- the code -----

  /** One user's row in quotas and row in resource_usage, either of which may not be there yet. */
  class Account {
    var hasQuota: bool
    var hasUsage: bool
    var quota: Amount
    var usage: Amount

    constructor ()
      ensures !hasQuota && !hasUsage
    {
      hasQuota, hasUsage, quota, usage := false, false, ZERO, ZERO;
    }

    /** The rows as a reservation finds them: with the column defaults if they are not there yet. */
    function Found(defaultQuota: Amount): (Amount, Amount)
      reads this
    {
      (if hasQuota then quota else defaultQuota, if hasUsage then usage else ZERO)
    }

    /** EnsureResourceAccounting */
    method Ensure(defaultQuota: Amount)
      modifies this
      ensures hasQuota && hasUsage && (quota, usage) == old(Found(defaultQuota))
    {
      if !hasQuota {
        hasQuota, quota := true, defaultQuota;
      }
      if !hasUsage {
        hasUsage, usage := true, ZERO;
      }
    }

    method ReserveDeploymentResources(a: Amount, defaultQuota: Amount) returns (error: Option<Error>)
      modifies this
      ensures error != Some(Negative) ==> hasQuota && hasUsage
      ensures Found(defaultQuota).0 == old(Found(defaultQuota)).0
      ensures var (q, u) := old(Found(defaultQuota));
              match Reserve(q, u, a)
              case Some(u') => error == None && Found(defaultQuota).1 == u'
              case None => error.Some? && Found(defaultQuota).1 == u
      ensures error == Some(Negative) <==> a.cpu < 0.0 || a.memoryMB < 0 || a.apps < 0 || a.storageMB < 0
      ensures error == Some(Negative) ==> unchanged(this)
      ensures error != Some(Negative) ==>
                var (q, u) := old(Found(defaultQuota));
                && (error == Some(CPUExceeded) <==> u.cpu + a.cpu > q.cpu)
                && (error == Some(MemoryExceeded) <==> u.memoryMB + a.memoryMB > q.memoryMB && u.cpu + a.cpu <= q.cpu)
                && (error == Some(AppsExceeded) <==>
                      u.apps + a.apps > q.apps && u.memoryMB + a.memoryMB <= q.memoryMB && u.cpu + a.cpu <= q.cpu)
                && (error == Some(StorageExceeded) <==>
                      u.storageMB + a.storageMB > q.storageMB && u.apps + a.apps <= q.apps
                      && u.memoryMB + a.memoryMB <= q.memoryMB && u.cpu + a.cpu <= q.cpu)
                && (error == None <==>
                      u.storageMB + a.storageMB <= q.storageMB && u.apps + a.apps <= q.apps
                      && u.memoryMB + a.memoryMB <= q.memoryMB && u.cpu + a.cpu <= q.cpu)
      ensures error == None ==>
                var (q, u) := old(Found(defaultQuota));
                && usage.cpu == u.cpu + a.cpu && usage.memoryMB == u.memoryMB + a.memoryMB
                && usage.apps == u.apps + a.apps && usage.storageMB == u.storageMB + a.storageMB
    {
      if !a.NonNegative() {
        return Some(Negative);
      }
      Ensure(defaultQuota);
      if usage.cpu + a.cpu > quota.cpu {
        return Some(CPUExceeded);
      }
      if usage.memoryMB + a.memoryMB > quota.memoryMB {
        return Some(MemoryExceeded);
      }
      if usage.apps + a.apps > quota.apps {
        return Some(AppsExceeded);
      }
      if usage.storageMB + a.storageMB > quota.storageMB {
        return Some(StorageExceeded);
      }
      usage := Amount(usage.cpu + a.cpu, usage.memoryMB + a.memoryMB, usage.apps + a.apps, usage.storageMB + a.storageMB);
      error := None;
    }

    method ReleaseDeploymentResources(a: Amount) returns (error: Option<Error>)
      modifies this`usage
      ensures error == if !a.NonNegative() then Some(Negative) else if hasUsage then None else Some(UserNotFound)
      ensures usage == if error == None then Release(old(usage), a).value else old(usage)
      ensures error == None ==>
                && usage.cpu == (if old(usage).cpu > a.cpu then old(usage).cpu - a.cpu else 0.0)
                && usage.memoryMB == (if old(usage).memoryMB > a.memoryMB then old(usage).memoryMB - a.memoryMB else 0)
                && usage.apps == (if old(usage).apps > a.apps then old(usage).apps - a.apps else 0)
                && usage.storageMB == (if old(usage).storageMB > a.storageMB then old(usage).storageMB - a.storageMB else 0)
      ensures error == Some(Negative) <==> a.cpu < 0.0 || a.memoryMB < 0 || a.apps < 0 || a.storageMB < 0
    {
      if !a.NonNegative() {
        return Some(Negative);
      }
      if !hasUsage {
        return Some(UserNotFound);
      }
      usage := usage.Less(a);
      error := None;
    }

    method BulkReserveResources(updates: seq<Amount>, defaultQuota: Amount) returns (error: Option<Error>)
      modifies this
      ensures hasQuota && hasUsage && quota == old(Found(defaultQuota)).0
      ensures var (q, u) := old(Found(defaultQuota)); var each := ReserveEach(q, u, updates);
              && (error == None ==> usage == u.Plus(Total(updates)))
              && (error != None ==> usage == u)
              && (AllNonNegative(updates) && (updates != [] || u.Within(q)) ==>
                    (error == None <==> each.Some?) && (error == None ==> each.value == usage))
    {
      Ensure(defaultQuota);
      var total := SumUp(updates);
      ghost var q, u := quota, usage;
      BulkReserveIff(q, u, updates);
      error := ReserveDeploymentResources(total, defaultQuota);
      assert Reserve(q, u, total) == if error == None then Some(usage) else None;
    }

    method BulkReleaseResources(updates: seq<Amount>) returns (error: Option<Error>)
      modifies this`usage
      ensures error == if !Total(updates).NonNegative() then Some(Negative) else if hasUsage then None else Some(UserNotFound)
      ensures usage == if error == None then old(usage).Less(Total(updates)) else old(usage)
      ensures hasUsage && old(usage).NonNegative() && AllNonNegative(updates) ==>
                error == None && ReleaseEach(old(usage), updates) == Some(usage)
    {
      var total := SumUp(updates);
      ghost var u := usage;
      if u.NonNegative() && AllNonNegative(updates) {
        BulkReleaseIff(u, updates);
        TotalNonNegative(updates);
      }
      error := ReleaseDeploymentResources(total);
      assert error == None ==> Release(u, total) == Some(usage);
    }
  }

  /** The loop both bulk forms start with. */
  method SumUp(updates: seq<Amount>) returns (total: Amount)
    ensures total == Total(updates)
  {
    total := ZERO;
    for i := 0 to |updates|
      invariant total == Total(updates[..i])
    {
      assert updates[..i + 1][..i] == updates[..i];
      total := Amount(total.cpu + updates[i].cpu, total.memoryMB + updates[i].memoryMB,
                      total.apps + updates[i].apps, total.storageMB + updates[i].storageMB);
    }
    assert updates[..|updates|] == updates;
  }

  // ----- bulk against one by one -----

  lemma {:induction false} TotalNonNegative(updates: seq<Amount>)
    requires AllNonNegative(updates)
    ensures Total(updates).NonNegative()
  {
    if updates != [] {
      TotalNonNegative(updates[..|updates| - 1]);
    }
  }

  /** Non-negative reservations are all accepted exactly when the last sum fits. */
  lemma {:induction false} ReserveEachIsSum(quota: Amount, usage: Amount, updates: seq<Amount>)
    requires AllNonNegative(updates)
    ensures var sum := usage.Plus(Total(updates));
            ReserveEach(quota, usage, updates) ==
            if updates == [] || sum.Within(quota) then Some(sum) else None
  {
    if updates != [] {
      var before := updates[..|updates| - 1];
      ReserveEachIsSum(quota, usage, before);
    }
  }

  lemma {:induction false} ReserveEachRefusesNegative(quota: Amount, usage: Amount, updates: seq<Amount>)
    requires !AllNonNegative(updates)
    ensures ReserveEach(quota, usage, updates) == None
  {
    var before := updates[..|updates| - 1];
    if updates[|updates| - 1].NonNegative() {
      assert !AllNonNegative(before);
      ReserveEachRefusesNegative(quota, usage, before);
    }
  }

  /**
    BulkReserve does exactly what reserving one by one would, unless the list is empty and the user
    is already over quota (bulk refuses nothing), or a negative entry hides in an acceptable sum.
    */
  lemma BulkReserveIff(quota: Amount, usage: Amount, updates: seq<Amount>)
    ensures var bulk := Reserve(quota, usage, Total(updates));
            bulk == ReserveEach(quota, usage, updates) <==>
            if updates == [] then usage.Within(quota)
            else
              || AllNonNegative(updates)
              || !Total(updates).NonNegative() || !usage.Plus(Total(updates)).Within(quota)
  {
    assert usage.Plus(ZERO) == usage;
    if AllNonNegative(updates) {
      TotalNonNegative(updates);
      ReserveEachIsSum(quota, usage, updates);
    } else {
      ReserveEachRefusesNegative(quota, usage, updates);
    }
  }

  lemma {:induction false} ReleaseEachIsSum(usage: Amount, updates: seq<Amount>)
    requires AllNonNegative(updates) && usage.NonNegative()
    ensures ReleaseEach(usage, updates) == Some(usage.Less(Total(updates)))
  {
    if updates == [] {
      assert usage.Less(ZERO) == usage;
    } else {
      var before, last := updates[..|updates| - 1], updates[|updates| - 1];
      ReleaseEachIsSum(usage, before);
      TotalNonNegative(before);
      ClampTwice(usage, Total(before), last);
    }
  }

  /** Clamping after every release ends where clamping once does. */
  lemma ClampTwice(usage: Amount, a: Amount, b: Amount)
    requires usage.NonNegative() && a.NonNegative() && b.NonNegative()
    ensures usage.Less(a).Less(b) == usage.Less(a.Plus(b))
  {
  }

  lemma {:induction false} ReleaseEachRefusesNegative(usage: Amount, updates: seq<Amount>)
    requires !AllNonNegative(updates)
    ensures ReleaseEach(usage, updates) == None
  {
    var before := updates[..|updates| - 1];
    if updates[|updates| - 1].NonNegative() {
      assert !AllNonNegative(before);
      ReleaseEachRefusesNegative(usage, before);
    }
  }

  lemma BulkReleaseIff(usage: Amount, updates: seq<Amount>)
    requires usage.NonNegative()
    ensures var bulk := Release(usage, Total(updates));
            bulk == ReleaseEach(usage, updates) <==> AllNonNegative(updates) || !Total(updates).NonNegative()
  {
    if AllNonNegative(updates) {
      TotalNonNegative(updates);
      ReleaseEachIsSum(usage, updates);
    } else {
      ReleaseEachRefusesNegative(usage, updates);
    }
  }

  /** A user over quota may reserve nothing one by one, but not in bulk. */
  lemma NothingIsRefused()
    ensures var quota, usage := ZERO, Amount(0.0, 1, 0, 0);
            ReserveEach(quota, usage, []) == Some(usage) && Reserve(quota, usage, Total([])) == None
  {
  }

  /** A negative entry hides in an acceptable sum, both when reserving and when releasing. */
  lemma NegativeEntryHides()
    ensures var plus, minus, quota := Amount(0.0, 2, 0, 0), Amount(0.0, -1, 0, 0), Amount(0.0, 5, 0, 0);
            && Reserve(quota, ZERO, Total([plus, minus])).Some? && ReserveEach(quota, ZERO, [plus, minus]) == None
            && Release(quota, Total([plus, minus])).Some? && ReleaseEach(quota, [plus, minus]) == None
  {
    var plus, minus := Amount(0.0, 2, 0, 0), Amount(0.0, -1, 0, 0);
    var both := [plus, minus];
    assert both[..1] == [plus] && [plus][..0] == [];
    assert Total([plus]) == plus && Total(both) == Amount(0.0, 1, 0, 0);
    assert both[1] == minus && !minus.NonNegative();
    ReserveEachRefusesNegative(Amount(0.0, 5, 0, 0), ZERO, both);
    ReleaseEachRefusesNegative(Amount(0.0, 5, 0, 0), both);
  }
}
