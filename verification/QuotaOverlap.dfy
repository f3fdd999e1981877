/**
  Overlapping quota updates (cmd/api/resources.go).

  UpdateQuota reads the limits, begins a transaction, and updates and commits later.  Rows of
  quota_history are dated by now(), which is when their transaction began, and are listed by date
  alone; rows of equal date may come in any order.  Nothing is assumed about the clock.
  */
module QuotaOverlap {
  import opened Shared
  import opened QuotaHistory

  /** A quota_history row with its created_at. */
  datatype Dated = Dated(row: HistoryRow, at: int)

  function Date(rows: seq<HistoryRow>, at: int): (r: seq<Dated>)
    ensures |r| == |rows| && forall i :: 0 <= i < |rows| ==> r[i] == Dated(rows[i], at)
  {
    seq(|rows|, i requires 0 <= i < |rows| => Dated(rows[i], at))
  }

  function RowsIn(list: seq<Dated>): (r: seq<HistoryRow>)
    ensures |r| == |list| && forall i :: 0 <= i < |list| ==> r[i] == list[i].row
  {
    seq(|list|, i requires 0 <= i < |list| => list[i].row)
  }

  predicate ByDate(list: seq<Dated>) {
    forall i, j :: 0 <= i < j < |list| ==> list[i].at <= list[j].at
  }

  /** A listing ORDER BY created_at may give for the table, read from its oldest row on. */
  predicate IsListing(list: seq<Dated>, table: seq<Dated>) {
    multiset(list) == multiset(table) && ByDate(list)
  }

  /** Whatever the order among rows of one date, replaying the table gives `limits`. */
  ghost predicate ReplaysTo(start: Limits, table: seq<Dated>, limits: Limits) {
    forall list :: IsListing(list, table) ==> Replay(start, RowsIn(list)) == limits
  }

  // ----- one limit at a time -----

  predicate About(x: Dated, field: Field) {
    x.row.field == field
  }

  /** What replaying a listing gives for one limit: the value of the last row about it. */
  function LastValue(start: Limits, list: seq<Dated>, field: Field): int
    requires IsLimit(field)
  {
    if list == [] then Get(start, field)
    else if About(list[|list| - 1], field) then ParseInt(list[|list| - 1].row.newValue)
    else LastValue(start, list[..|list| - 1], field)
  }

  lemma {:induction false} ReplayGivesLastValue(start: Limits, list: seq<Dated>, field: Field)
    requires IsLimit(field)
    ensures Get(Replay(start, RowsIn(list)), field) == LastValue(start, list, field)
  {
    if list != [] {
      var n := |list| - 1;
      ReplayGivesLastValue(start, list[..n], field);
      assert RowsIn(list)[..n] == RowsIn(list[..n]);
    }
  }

  predicate Mentions(table: seq<Dated>, field: Field) {
    exists x :: x in table && About(x, field)
  }

  /** No row about the limit has a later date. */
  predicate IsLatest(table: seq<Dated>, x: Dated, field: Field) {
    x in table && About(x, field) && forall y :: y in table && About(y, field) ==> y.at <= x.at
  }

  /** Every latest row about the limit says `n`, or there is no row and it started at `n`. */
  ghost predicate Settled(start: Limits, table: seq<Dated>, field: Field, n: int)
    requires IsLimit(field)
  {
    && (!Mentions(table, field) ==> Get(start, field) == n)
    && (forall x :: IsLatest(table, x, field) ==> ParseInt(x.row.newValue) == n)
  }

  lemma {:induction false} SomeLatest(table: seq<Dated>, field: Field) returns (x: Dated)
    requires Mentions(table, field)
    ensures IsLatest(table, x, field)
  {
    var n := |table| - 1;
    var before, last := table[..n], table[n];
    assert table == before + [last];
    if Mentions(before, field) {
      x := SomeLatest(before, field);
      if About(last, field) && last.at > x.at {
        x := last;
      }
    } else {
      x := last;
    }
  }

  /** In a listing the last row about a limit is a latest one. */
  lemma {:induction false} LastIsLatest(start: Limits, list: seq<Dated>, field: Field)
    requires ByDate(list) && IsLimit(field)
    ensures Mentions(list, field) ==>
              exists x :: IsLatest(list, x, field) && LastValue(start, list, field) == ParseInt(x.row.newValue)
    ensures !Mentions(list, field) ==> LastValue(start, list, field) == Get(start, field)
  {
    if list != [] {
      var n := |list| - 1;
      var before, last := list[..n], list[n];
      assert list == before + [last];
      if About(last, field) {
        assert last in list;
        assert IsLatest(list, last, field) by {
          forall y | y in list
            ensures y.at <= last.at
          {
            var j :| 0 <= j < |list| && list[j] == y;
          }
        }
      } else {
        LastIsLatest(start, before, field);
        if Mentions(before, field) {
          var x :| IsLatest(before, x, field) && LastValue(start, before, field) == ParseInt(x.row.newValue);
          assert IsLatest(list, x, field);
        }
      }
    }
  }

  // ----- listings of a table -----

  /** After all rows of the same or an earlier date. */
  function Insert(list: seq<Dated>, x: Dated): (r: seq<Dated>)
    ensures |r| == |list| + 1
  {
    if list == [] || list[|list| - 1].at <= x.at then list + [x]
    else Insert(list[..|list| - 1], x) + [list[|list| - 1]]
  }

  lemma {:induction false} InsertAdds(list: seq<Dated>, x: Dated)
    ensures multiset(Insert(list, x)) == multiset(list) + multiset{x}
  {
    if list != [] && list[|list| - 1].at > x.at {
      var n := |list| - 1;
      assert list == list[..n] + [list[n]];
      InsertAdds(list[..n], x);
    }
  }

  lemma ByDateSnoc(list: seq<Dated>, x: Dated)
    requires ByDate(list) && (list != [] ==> list[|list| - 1].at <= x.at)
    ensures ByDate(list + [x])
  {
  }

  lemma {:induction false} InsertKeepsDates(list: seq<Dated>, x: Dated)
    requires ByDate(list)
    ensures var r := Insert(list, x);
            ByDate(r) && (r[|r| - 1] == x || (list != [] && r[|r| - 1] == list[|list| - 1]))
  {
    if list == [] || list[|list| - 1].at <= x.at {
      ByDateSnoc(list, x);
    } else {
      var n := |list| - 1;
      InsertKeepsDates(list[..n], x);
      ByDateSnoc(Insert(list[..n], x), list[n]);
    }
  }

  /** A row that no row about the same limit is later than becomes the last one about it. */
  lemma {:induction false} InsertedIsLast(start: Limits, list: seq<Dated>, x: Dated, field: Field)
    requires IsLimit(field) && About(x, field) && forall y :: y in list && About(y, field) ==> y.at <= x.at
    ensures LastValue(start, Insert(list, x), field) == ParseInt(x.row.newValue)
  {
    if list == [] || list[|list| - 1].at <= x.at {
      assert (list + [x])[..|list|] == list;
    } else {
      var n := |list| - 1;
      assert list[n] in list;
      InsertedIsLast(start, list[..n], x, field);
      var r := Insert(list[..n], x);
      assert (r + [list[n]])[..|r|] == r;
    }
  }

  lemma {:induction false} SomeListing(table: seq<Dated>) returns (list: seq<Dated>)
    ensures IsListing(list, table)
  {
    list := [];
    if table != [] {
      var n := |table| - 1;
      assert table == table[..n] + [table[n]];
      var before := SomeListing(table[..n]);
      InsertAdds(before, table[n]);
      InsertKeepsDates(before, table[n]);
      list := Insert(before, table[n]);
    }
  }

  lemma SameRows(list: seq<Dated>, table: seq<Dated>, x: Dated)
    requires multiset(list) == multiset(table)
    ensures x in list <==> x in table
  {
    assert x in list <==> x in multiset(list);
    assert x in table <==> x in multiset(table);
  }

  /** Any latest row about a limit is the last one about it in some listing. */
  lemma ListingEndingWith(start: Limits, table: seq<Dated>, x: Dated, field: Field) returns (list: seq<Dated>)
    requires IsLimit(field) && IsLatest(table, x, field)
    ensures IsListing(list, table) && LastValue(start, list, field) == ParseInt(x.row.newValue)
  {
    var i :| 0 <= i < |table| && table[i] == x;
    var others := table[..i] + table[i + 1..];
    assert table == table[..i] + [x] + table[i + 1..];
    assert multiset(table) == multiset(others) + multiset{x};
    var rest := SomeListing(others);
    forall y | y in rest && About(y, field)
      ensures y.at <= x.at
    {
      SameRows(rest, others, y);
      assert y in table;
    }
    InsertAdds(rest, x);
    InsertKeepsDates(rest, x);
    InsertedIsLast(start, rest, x, field);
    list := Insert(rest, x);
  }

  /** All listings agree on a limit's value `n` exactly when it is settled at `n`. */
  lemma SettledIff(start: Limits, table: seq<Dated>, field: Field, n: int)
    requires IsLimit(field)
    ensures Settled(start, table, field, n) <==> forall list :: IsListing(list, table) ==> LastValue(start, list, field) == n
  {
    if Settled(start, table, field, n) {
      forall list | IsListing(list, table)
        ensures LastValue(start, list, field) == n
      {
        SettledListing(start, list, table, field, n);
      }
    } else if forall list :: IsListing(list, table) ==> LastValue(start, list, field) == n {
      if x :| IsLatest(table, x, field) && ParseInt(x.row.newValue) != n {
        var list := ListingEndingWith(start, table, x, field);
      } else {
        var list := SomeListing(table);
        MentionsInListing(list, table, field);
        LastIsLatest(start, list, field);
      }
    }
  }

  lemma MentionsInListing(list: seq<Dated>, table: seq<Dated>, field: Field)
    requires multiset(list) == multiset(table)
    ensures Mentions(list, field) <==> Mentions(table, field)
    ensures forall x :: IsLatest(list, x, field) <==> IsLatest(table, x, field)
  {
    forall x
      ensures x in list <==> x in table
    {
      SameRows(list, table, x);
    }
  }

  lemma SettledListing(start: Limits, list: seq<Dated>, table: seq<Dated>, field: Field, n: int)
    requires IsLimit(field) && Settled(start, table, field, n) && IsListing(list, table)
    ensures LastValue(start, list, field) == n
  {
    MentionsInListing(list, table, field);
    LastIsLatest(start, list, field);
  }

  ghost predicate AllSettled(start: Limits, table: seq<Dated>, limits: Limits) {
    && Settled(start, table, MaxMemoryMB, limits.memoryMB) && Settled(start, table, MaxApps, limits.apps)
    && Settled(start, table, MaxStorageMB, limits.storageMB) && Settled(start, table, MaxBandwidthGB, limits.bandwidthGB)
  }

  lemma ListingReplaysTo(start: Limits, list: seq<Dated>, limits: Limits)
    ensures Replay(start, RowsIn(list)) == limits <==>
            && LastValue(start, list, MaxMemoryMB) == limits.memoryMB && LastValue(start, list, MaxApps) == limits.apps
            && LastValue(start, list, MaxStorageMB) == limits.storageMB
            && LastValue(start, list, MaxBandwidthGB) == limits.bandwidthGB
  {
    ReplayGivesLastValue(start, list, MaxMemoryMB);
    ReplayGivesLastValue(start, list, MaxApps);
    ReplayGivesLastValue(start, list, MaxStorageMB);
    ReplayGivesLastValue(start, list, MaxBandwidthGB);
  }

  /** The table replays to `limits` in every listing exactly when each limit's latest rows say so. */
  lemma ReplaysToIff(start: Limits, table: seq<Dated>, limits: Limits)
    ensures ReplaysTo(start, table, limits) <==> AllSettled(start, table, limits)
  {
    SettledIff(start, table, MaxMemoryMB, limits.memoryMB);
    SettledIff(start, table, MaxApps, limits.apps);
    SettledIff(start, table, MaxStorageMB, limits.storageMB);
    SettledIff(start, table, MaxBandwidthGB, limits.bandwidthGB);
    forall list | IsListing(list, table)
      ensures Replay(start, RowsIn(list)) == limits <==>
              && LastValue(start, list, MaxMemoryMB) == limits.memoryMB && LastValue(start, list, MaxApps) == limits.apps
              && LastValue(start, list, MaxStorageMB) == limits.storageMB
              && LastValue(start, list, MaxBandwidthGB) == limits.bandwidthGB
    {
      ListingReplaysTo(start, list, limits);
    }
  }

  // ----- what a commit does to one limit -----

  /** A row about the limit is dated `at` or later. */
  predicate DatedSince(table: seq<Dated>, field: Field, at: int) {
    exists y :: y in table && About(y, field) && y.at >= at
  }

  /**
    A commit changes the limit without a row, because it sets what it had read, or with a row that is
    not later than all rows already there.
    */
  predicate Spoils(table: seq<Dated>, field: Field, at: int, read: int, stored: int, current: int) {
    current != stored && (read == current || DatedSince(table, field, at))
  }

  /** `more` is the one row about the limit, or none if it was read as it now is. */
  ghost predicate IsChange(more: seq<Dated>, field: Field, at: int, read: int, current: int) {
    forall x :: x in more && About(x, field) <==> read != current && x == Dated(RowFor(field, read, current), at)
  }

  lemma CommitSettlesIff(start: Limits, table: seq<Dated>, more: seq<Dated>, field: Field, at: int,
                         read: int, stored: int, current: int)
    requires IsLimit(field) && Settled(start, table, field, stored) && IsChange(more, field, at, read, current)
    ensures Settled(start, table + more, field, current) <==> !Spoils(table, field, at, read, stored, current)
  {
    var x := Dated(RowFor(field, read, current), at);
    ParseOfFormat(current);
    if read == current {
      NoRowSettlesIff(start, table, more, field, stored, current);
    } else {
      assert x in more && About(x, field);
      if DatedSince(table, field, at) {
        LateRowSettlesIff(start, table, more, x, field, stored, current);
      } else {
        NewestRowSettles(start, table, more, x, field, current);
      }
    }
  }

  lemma NoRowSettlesIff(start: Limits, table: seq<Dated>, more: seq<Dated>, field: Field, stored: int, current: int)
    requires IsLimit(field) && Settled(start, table, field, stored) && forall y :: y in more ==> !About(y, field)
    ensures Settled(start, table + more, field, current) <==> current == stored
  {
    forall y
      ensures IsLatest(table + more, y, field) <==> IsLatest(table, y, field)
    {
    }
    assert Mentions(table + more, field) <==> Mentions(table, field);
    if Mentions(table, field) {
      var y := SomeLatest(table, field);
      assert IsLatest(table + more, y, field);
    }
  }

  lemma NewestRowSettles(start: Limits, table: seq<Dated>, more: seq<Dated>, x: Dated, field: Field, current: int)
    requires IsLimit(field) && x in more && ParseInt(x.row.newValue) == current
    requires (forall y :: y in more && About(y, field) <==> y == x) && !DatedSince(table, field, x.at)
    ensures Settled(start, table + more, field, current)
  {
    assert x in table + more && About(x, field);
    forall y | IsLatest(table + more, y, field)
      ensures y == x
    {
      assert x.at <= y.at;
    }
  }

  /** A row that is not the newest leaves the older answer in place. */
  lemma LateRowSettlesIff(start: Limits, table: seq<Dated>, more: seq<Dated>, x: Dated, field: Field, stored: int, current: int)
    requires IsLimit(field) && x in more && ParseInt(x.row.newValue) == current && Settled(start, table, field, stored)
    requires (forall y :: y in more && About(y, field) <==> y == x) && DatedSince(table, field, x.at)
    ensures Settled(start, table + more, field, current) <==> current == stored
  {
    var all := table + more;
    var y := SomeLatest(table, field);
    assert x.at <= y.at;
    assert IsLatest(all, y, field);
    forall z | IsLatest(all, z, field)
      ensures z == x || IsLatest(table, z, field)
    {
    }
  }

  // ----- the rows of a commit -----

  lemma {:induction false} RowsOfAllAre(changes: seq<HistoryRow>, r: HistoryRow)
    ensures r in RowsOfAll(changes) <==> r in changes && r.oldValue != r.newValue
  {
    if changes != [] {
      var n := |changes| - 1;
      assert changes == changes[..n] + [changes[n]];
      RowsOfAllAre(changes[..n], r);
    }
  }

  lemma DateAre(rows: seq<HistoryRow>, at: int, x: Dated)
    ensures x in Date(rows, at) <==> x.at == at && x.row in rows
  {
    if x.at == at && x.row in rows {
      var i :| 0 <= i < |rows| && rows[i] == x.row;
      assert Date(rows, at)[i] == x;
    }
  }

  function RowsOfCommit(formatCPU: real -> string, read: QuotaRecord, current: QuotaRecord, at: int): seq<Dated> {
    Date(RowsOfAll(Changes(formatCPU, read, current)), at)
  }

  /** Each limit is compared once. */
  lemma ComparedOnce(formatCPU: real -> string, read: QuotaRecord, current: QuotaRecord, field: Field, r: HistoryRow)
    requires IsLimit(field)
    ensures r in Changes(formatCPU, read, current) && r.field == field <==>
            r == RowFor(field, Get(LimitsOf(read), field), Get(LimitsOf(current), field))
  {
    var changes := Changes(formatCPU, read, current);
    assert changes[1] in changes && changes[2] in changes && changes[3] in changes && changes[4] in changes;
  }

  /** A commit writes one row about every limit that differs from what was read, and no other. */
  lemma CommitWrites(formatCPU: real -> string, read: QuotaRecord, current: QuotaRecord, at: int, field: Field)
    requires IsLimit(field)
    ensures IsChange(RowsOfCommit(formatCPU, read, current, at), field, at,
                     Get(LimitsOf(read), field), Get(LimitsOf(current), field))
  {
    var changes := Changes(formatCPU, read, current);
    FormatIsInjective(Get(LimitsOf(read), field), Get(LimitsOf(current), field));
    forall x
      ensures x in RowsOfCommit(formatCPU, read, current, at) && About(x, field) <==>
              && Get(LimitsOf(read), field) != Get(LimitsOf(current), field)
              && x == Dated(RowFor(field, Get(LimitsOf(read), field), Get(LimitsOf(current), field)), at)
    {
      DateAre(RowsOfAll(changes), at, x);
      RowsOfAllAre(changes, x.row);
      ComparedOnce(formatCPU, read, current, field, x.row);
    }
  }

  lemma CommitKeepsLimitIff(formatCPU: real -> string, start: Limits, table: seq<Dated>, at: int,
                            read: QuotaRecord, stored: QuotaRecord, current: QuotaRecord, field: Field)
    requires IsLimit(field) && Settled(start, table, field, Get(LimitsOf(stored), field))
    ensures Settled(start, table + RowsOfCommit(formatCPU, read, current, at), field, Get(LimitsOf(current), field)) <==>
            !Spoils(table, field, at, Get(LimitsOf(read), field), Get(LimitsOf(stored), field), Get(LimitsOf(current), field))
  {
    CommitWrites(formatCPU, read, current, at, field);
    CommitSettlesIff(start, table, RowsOfCommit(formatCPU, read, current, at), field, at,
                     Get(LimitsOf(read), field), Get(LimitsOf(stored), field), Get(LimitsOf(current), field));
  }

  predicate SpoilsSome(table: seq<Dated>, at: int, read: Limits, stored: Limits, current: Limits) {
    || Spoils(table, MaxMemoryMB, at, read.memoryMB, stored.memoryMB, current.memoryMB)
    || Spoils(table, MaxApps, at, read.apps, stored.apps, current.apps)
    || Spoils(table, MaxStorageMB, at, read.storageMB, stored.storageMB, current.storageMB)
    || Spoils(table, MaxBandwidthGB, at, read.bandwidthGB, stored.bandwidthGB, current.bandwidthGB)
  }

  lemma CommitKeepsReplayIff(formatCPU: real -> string, start: Limits, table: seq<Dated>, at: int,
                             read: QuotaRecord, stored: QuotaRecord, current: QuotaRecord)
    requires AllSettled(start, table, LimitsOf(stored))
    ensures AllSettled(start, table + RowsOfCommit(formatCPU, read, current, at), LimitsOf(current)) <==>
            !SpoilsSome(table, at, LimitsOf(read), LimitsOf(stored), LimitsOf(current))
  {
    CommitKeepsLimitIff(formatCPU, start, table, at, read, stored, current, MaxMemoryMB);
    CommitKeepsLimitIff(formatCPU, start, table, at, read, stored, current, MaxApps);
    CommitKeepsLimitIff(formatCPU, start, table, at, read, stored, current, MaxStorageMB);
    CommitKeepsLimitIff(formatCPU, start, table, at, read, stored, current, MaxBandwidthGB);
  }

  // ----- any number of updates at once -----

  /** An update that has read the limits; `begun` is when its transaction began. */
  datatype Pending = Pending(read: QuotaRecord, request: Request, begun: Option<int>)

  datatype State = State(quota: QuotaRecord, table: seq<Dated>, pending: map<int, Pending>)

  datatype Step = Read(id: int, request: Request) | Begin(id: int, at: int) | Commit(id: int) | Abandon(id: int) | Reset(at: int)

  predicate Enabled(s: State, step: Step) {
    match step
    case Read(id, r) => id !in s.pending && !AsksNothing(r)
    case Begin(id, at) => id in s.pending && s.pending[id].begun == None
    case Commit(id) => id in s.pending && s.pending[id].begun.Some?
    case Abandon(id) => id in s.pending
    case Reset(at) => true
  }

  function Apply(formatCPU: real -> string, s: State, step: Step): State
    requires Enabled(s, step)
  {
    match step
    case Read(id, r) => s.(pending := s.pending[id := Pending(s.quota, r, None)])
    case Begin(id, at) => s.(pending := s.pending[id := s.pending[id].(begun := Some(at))])
    case Commit(id) =>
      var p := s.pending[id];
      var current := Applied(s.quota, p.request);
      State(current, s.table + RowsOfCommit(formatCPU, p.read, current, p.begun.value), s.pending - {id})
    case Abandon(id) => s.(pending := s.pending - {id})
    case Reset(at) => s.(table := s.table + [Dated(HistoryRow(ResourceReset, "used", "reset"), at)])
  }

  ghost predicate IsRun(formatCPU: real -> string, run: seq<State>, steps: seq<Step>) {
    && |run| == |steps| + 1 && run[0].table == [] && run[0].pending == map[]
    && forall i {:trigger steps[i]} :: 0 <= i < |steps| ==>
         Enabled(run[i], steps[i]) && run[i + 1] == Apply(formatCPU, run[i], steps[i])
  }

  /** Every listing of the history leads from the first limits to the stored ones. */
  ghost predicate ReplayIsRight(start: Limits, s: State) {
    ReplaysTo(start, s.table, LimitsOf(s.quota))
  }

  /** The step commits an update that hides or misdates a change. */
  predicate SpoilingCommit(s: State, step: Step)
    requires Enabled(s, step)
  {
    step.Commit? &&
    var p := s.pending[step.id];
    SpoilsSome(s.table, p.begun.value, LimitsOf(p.read), LimitsOf(s.quota), LimitsOf(Applied(s.quota, p.request)))
  }

  /** A step spoils a right replay exactly when it is a spoiling commit. */
  lemma StepKeepsReplayIff(formatCPU: real -> string, start: Limits, s: State, step: Step)
    requires Enabled(s, step) && ReplayIsRight(start, s)
    ensures ReplayIsRight(start, Apply(formatCPU, s, step)) <==> !SpoilingCommit(s, step)
  {
    var s' := Apply(formatCPU, s, step);
    ReplaysToIff(start, s.table, LimitsOf(s.quota));
    ReplaysToIff(start, s'.table, LimitsOf(s'.quota));
    match step
    case Commit(id) =>
      var p := s.pending[id];
      CommitKeepsReplayIff(formatCPU, start, s.table, p.begun.value, p.read, s.quota, s'.quota);
    case Reset(at) =>
      ResetKeepsReplay(start, s.table, at, LimitsOf(s.quota));
    case _ =>
  }

  lemma ResetKeepsReplay(start: Limits, table: seq<Dated>, at: int, limits: Limits)
    requires AllSettled(start, table, limits)
    ensures AllSettled(start, table + [Dated(HistoryRow(ResourceReset, "used", "reset"), at)], limits)
  {
    var more := [Dated(HistoryRow(ResourceReset, "used", "reset"), at)];
    NoRowSettlesIff(start, table, more, MaxMemoryMB, limits.memoryMB, limits.memoryMB);
    NoRowSettlesIff(start, table, more, MaxApps, limits.apps, limits.apps);
    NoRowSettlesIff(start, table, more, MaxStorageMB, limits.storageMB, limits.storageMB);
    NoRowSettlesIff(start, table, more, MaxBandwidthGB, limits.bandwidthGB, limits.bandwidthGB);
  }

  lemma {:induction false} ReplayStaysRight(formatCPU: real -> string, run: seq<State>, steps: seq<Step>, i: nat)
    requires IsRun(formatCPU, run, steps) && i < |run|
    requires forall j :: 0 <= j < i ==> !SpoilingCommit(run[j], steps[j])
    ensures ReplayIsRight(LimitsOf(run[0].quota), run[i])
  {
    var start := LimitsOf(run[0].quota);
    if i == 0 {
      ReplaysToIff(start, [], start);
    } else {
      ReplayStaysRight(formatCPU, run, steps, i - 1);
      StepKeepsReplayIff(formatCPU, start, run[i - 1], steps[i - 1]);
    }
  }

  /** With any overlap of updates, the replay is right at every moment exactly when no commit spoils it. */
  lemma ReplayIsRightIff(formatCPU: real -> string, run: seq<State>, steps: seq<Step>)
    requires IsRun(formatCPU, run, steps)
    ensures (forall i :: 0 <= i < |run| ==> ReplayIsRight(LimitsOf(run[0].quota), run[i])) <==>
            (forall i :: 0 <= i < |steps| ==> !SpoilingCommit(run[i], steps[i]))
  {
    var start := LimitsOf(run[0].quota);
    if forall i :: 0 <= i < |run| ==> ReplayIsRight(start, run[i]) {
      forall i | 0 <= i < |steps|
        ensures !SpoilingCommit(run[i], steps[i])
      {
        assert ReplayIsRight(start, run[i]) && ReplayIsRight(start, run[i + 1]);
        StepKeepsReplayIff(formatCPU, start, run[i], steps[i]);
      }
    } else if forall i :: 0 <= i < |steps| ==> !SpoilingCommit(run[i], steps[i]) {
      forall i | 0 <= i < |run|
        ensures ReplayIsRight(start, run[i])
      {
        ReplayStaysRight(formatCPU, run, steps, i);
      }
    }
  }

  /** An update that nothing else overlaps, in reading or in date, spoils nothing. */
  lemma UndisturbedSpoilsNothing(s: State, id: int)
    requires Enabled(s, Commit(id)) && LimitsOf(s.pending[id].read) == LimitsOf(s.quota)
    requires forall y :: y in s.table ==> y.at < s.pending[id].begun.value
    ensures !SpoilingCommit(s, Commit(id))
  {
  }

  /** A commit sets what its request asks for on the limits as they stand, and nothing else changes them. */
  lemma OnlyCommitsSetLimits(formatCPU: real -> string, s: State, step: Step)
    requires Enabled(s, step)
    ensures step.Commit? ==> SetsWhatIsAsked(s.quota, s.pending[step.id].request, Apply(formatCPU, s, step).quota)
    ensures !step.Commit? ==> Apply(formatCPU, s, step).quota == s.quota
  {
    if step.Commit? {
      AppliedSetsWhatIsAsked(s.quota, s.pending[step.id].request);
    }
  }

  /** A commit writes a row about CPU, with the printed values, exactly when those differ. */
  lemma CommitWritesCPU(formatCPU: real -> string, read: QuotaRecord, current: QuotaRecord, at: int, x: Dated)
    ensures x in RowsOfCommit(formatCPU, read, current, at) && x.row.field == MaxCPU <==>
            && formatCPU(read.maxCPU) != formatCPU(current.maxCPU)
            && x == Dated(HistoryRow(MaxCPU, formatCPU(read.maxCPU), formatCPU(current.maxCPU)), at)
  {
    var changes := Changes(formatCPU, read, current);
    DateAre(RowsOfAll(changes), at, x);
    RowsOfAllAre(changes, x.row);
    assert changes[0] in changes;
  }

  // ----- two runs that go wrong -----

  function AskApps(n: nat): Request {
    Request(None, None, Some(n), None, None)
  }

  const ONE_APP: QuotaRecord := QuotaRecord(1.0, 1, 1, 1, 1)

  /** Two updates that have read one app: begin, begin, commit, commit. */
  function TwoUpdates(formatCPU: real -> string, one: nat, two: nat, begun1: int, begun2: int): seq<State> {
    var s0 := State(ONE_APP, [], map[]);
    var s1 := Apply(formatCPU, s0, Read(1, AskApps(one)));
    var s2 := Apply(formatCPU, s1, Read(2, AskApps(two)));
    var s3 := Apply(formatCPU, s2, Begin(1, begun1));
    var s4 := Apply(formatCPU, s3, Begin(2, begun2));
    var s5 := Apply(formatCPU, s4, Commit(2));
    [s0, s1, s2, s3, s4, s5, Apply(formatCPU, s5, Commit(1))]
  }

  function TwoUpdatesSteps(one: nat, two: nat, begun1: int, begun2: int): seq<Step> {
    [Read(1, AskApps(one)), Read(2, AskApps(two)), Begin(1, begun1), Begin(2, begun2), Commit(2), Commit(1)]
  }

  lemma TwoUpdatesIsRun(formatCPU: real -> string, one: nat, two: nat, begun1: int, begun2: int)
    ensures var run := TwoUpdates(formatCPU, one, two, begun1, begun2);
            var steps := TwoUpdatesSteps(one, two, begun1, begun2);
            && IsRun(formatCPU, run, steps)
            && run[4].quota == ONE_APP && run[4].table == []
            && run[4].pending[1] == Pending(ONE_APP, AskApps(one), Some(begun1))
            && run[4].pending[2] == Pending(ONE_APP, AskApps(two), Some(begun2))
            && run[5].quota == Applied(ONE_APP, AskApps(two)) && run[5].pending == map[1 := run[4].pending[1]]
            && run[5].table == RowsOfCommit(formatCPU, ONE_APP, run[5].quota, begun2)
            && run[6].quota.maxApps == one
  {
    var run := TwoUpdates(formatCPU, one, two, begun1, begun2);
    var steps := TwoUpdatesSteps(one, two, begun1, begun2);
    assert run[5].pending == map[1 := run[4].pending[1]];
    forall i {:trigger steps[i]} | 0 <= i < |steps|
      ensures Enabled(run[i], steps[i]) && run[i + 1] == Apply(formatCPU, run[i], steps[i])
    {
    }
  }

  /** The first commit writes the only row, and the second spoils the replay. */
  lemma SecondCommitSpoils(formatCPU: real -> string, one: nat, two: nat, begun1: int, begun2: int)
    requires two != 1 && one != two && (one == 1 || begun1 <= begun2)
    ensures var run := TwoUpdates(formatCPU, one, two, begun1, begun2); var start := LimitsOf(ONE_APP);
            ReplayIsRight(start, run[5]) && !ReplayIsRight(start, run[6])
  {
    var run := TwoUpdates(formatCPU, one, two, begun1, begun2);
    var steps := TwoUpdatesSteps(one, two, begun1, begun2);
    var start := LimitsOf(ONE_APP);
    TwoUpdatesIsRun(formatCPU, one, two, begun1, begun2);
    forall j | 0 <= j < 5
      ensures !SpoilingCommit(run[j], steps[j])
    {
    }
    ReplayStaysRight(formatCPU, run, steps, 5);
    CommitWrites(formatCPU, ONE_APP, run[5].quota, begun2, MaxApps);
    var row := Dated(RowFor(MaxApps, 1, two), begun2);
    assert row in run[5].table && About(row, MaxApps);
    assert one != 1 ==> DatedSince(run[5].table, MaxApps, begun1);
    assert SpoilingCommit(run[5], steps[5]);
    StepKeepsReplayIff(formatCPU, start, run[5], steps[5]);
  }

  /** Begun first and committed last, an update to three apps is dated before one to two. */
  lemma EarlyBeginSpoilsReplay(formatCPU: real -> string)
    ensures var run := TwoUpdates(formatCPU, 3, 2, 10, 20); var start := LimitsOf(ONE_APP);
            && IsRun(formatCPU, run, TwoUpdatesSteps(3, 2, 10, 20))
            && run[6].quota.maxApps == 3 && ReplayIsRight(start, run[5]) && !ReplayIsRight(start, run[6])
  {
    TwoUpdatesIsRun(formatCPU, 3, 2, 10, 20);
    SecondCommitSpoils(formatCPU, 3, 2, 10, 20);
  }

  /** An update back to one app, which is what it had read, leaves no row. */
  lemma StaleReadSpoilsReplay(formatCPU: real -> string)
    ensures var run := TwoUpdates(formatCPU, 1, 2, 20, 10); var start := LimitsOf(ONE_APP);
            && IsRun(formatCPU, run, TwoUpdatesSteps(1, 2, 20, 10))
            && run[6].quota.maxApps == 1 && ReplayIsRight(start, run[5]) && !ReplayIsRight(start, run[6])
  {
    TwoUpdatesIsRun(formatCPU, 1, 2, 20, 10);
    SecondCommitSpoils(formatCPU, 1, 2, 20, 10);
  }
}
