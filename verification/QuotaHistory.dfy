/**
  The change log of cmd/api/resources.go: UpdateQuota writes one quota_history row per limit whose
  printed value changed, ResetQuota writes a row that is about usage.  UpdateQuota reads the limits
  before its transaction begins; QuotaOverlap is about updates that overlap.
  */
module QuotaHistory {
  import opened Shared

  datatype QuotaRecord = QuotaRecord(maxCPU: real, maxMemoryMB: int, maxApps: int, maxStorageMB: int, maxBandwidthGB: int)

  /** The `field` column: "max_cpu", "max_memory_mb", ..., "resource_reset". */
  datatype Field = MaxCPU | MaxMemoryMB | MaxApps | MaxStorageMB | MaxBandwidthGB | ResourceReset

  datatype HistoryRow = HistoryRow(field: Field, oldValue: string, newValue: string)

  // ----- fmt.Sprintf("%d", n) -----

  function Digits(n: nat): (s: string)
    ensures s != [] && s[0] != '-'
  {
    if n < 10 then ['0' + n as char] else Digits(n / 10) + ['0' + (n % 10) as char]
  }

  function FormatInt(n: int): string {
    if n < 0 then
      var magnitude: nat := -n;
      "-" + Digits(magnitude)
    else Digits(n)
  }

  function DigitValue(c: char): nat {
    if '0' <= c <= '9' then c as int - '0' as int else 0
  }

  function ParseDigits(s: string): nat {
    if s == [] then 0 else 10 * ParseDigits(s[..|s| - 1]) + DigitValue(s[|s| - 1])
  }

  function ParseInt(s: string): int {
    if s != [] && s[0] == '-' then -(ParseDigits(s[1..]) as int) else ParseDigits(s)
  }

  lemma {:induction false} ParseDigitsOfDigits(n: nat)
    ensures ParseDigits(Digits(n)) == n
  {
    var s := Digits(n);
    if n < 10 {
      assert s[..0] == [];
      assert ParseDigits([]) == 0;
      assert DigitValue('0' + n as char) == n;
    } else {
      ParseDigitsOfDigits(n / 10);
      assert s[..|s| - 1] == Digits(n / 10);
      assert DigitValue('0' + (n % 10) as char) == n % 10;
    }
  }

  /** Printing loses nothing, so two printed limits differ exactly when the limits do. */
  lemma ParseOfFormat(n: int)
    ensures ParseInt(FormatInt(n)) == n
  {
    if n < 0 {
      assert FormatInt(n)[1..] == Digits(-n);
      ParseDigitsOfDigits(-n);
    } else {
      ParseDigitsOfDigits(n);
    }
  }

  lemma FormatIsInjective(m: int, n: int)
    ensures FormatInt(m) == FormatInt(n) <==> m == n
  {
    ParseOfFormat(m);
    ParseOfFormat(n);
  }

  // ----- replaying the log -----

  /** The integer limits; max_cpu is printed with "%f" and is not replayed. */
  datatype Limits = Limits(memoryMB: int, apps: int, storageMB: int, bandwidthGB: int)

  function LimitsOf(q: QuotaRecord): Limits {
    Limits(q.maxMemoryMB, q.maxApps, q.maxStorageMB, q.maxBandwidthGB)
  }

  predicate IsLimit(field: Field) {
    field != MaxCPU && field != ResourceReset
  }

  function Get(l: Limits, field: Field): int
    requires IsLimit(field)
  {
    match field
    case MaxMemoryMB => l.memoryMB
    case MaxApps => l.apps
    case MaxStorageMB => l.storageMB
    case MaxBandwidthGB => l.bandwidthGB
  }

  function Set(l: Limits, field: Field, n: int): Limits {
    match field
    case MaxMemoryMB => l.(memoryMB := n)
    case MaxApps => l.(apps := n)
    case MaxStorageMB => l.(storageMB := n)
    case MaxBandwidthGB => l.(bandwidthGB := n)
    case _ => l
  }

  function ReplayRow(l: Limits, row: HistoryRow): Limits {
    Set(l, row.field, ParseInt(row.newValue))
  }

  function Replay(start: Limits, rows: seq<HistoryRow>): Limits {
    if rows == [] then start else ReplayRow(Replay(start, rows[..|rows| - 1]), rows[|rows| - 1])
  }

  /** Every row about a limit states, as its old value, what the rows before it lead to. */
  ghost predicate OldValuesAgree(start: Limits, rows: seq<HistoryRow>) {
    forall i :: 0 <= i < |rows| && IsLimit(rows[i].field) ==>
      rows[i].oldValue == FormatInt(Get(Replay(start, rows[..i]), rows[i].field))
  }

  /** One more row is one more replay step, and its old value must be what the replay had. */
  lemma ReplayAppend(start: Limits, rows: seq<HistoryRow>, row: HistoryRow)
    ensures Replay(start, rows + [row]) == ReplayRow(Replay(start, rows), row)
    ensures OldValuesAgree(start, rows + [row]) <==>
            && OldValuesAgree(start, rows)
            && (IsLimit(row.field) ==> row.oldValue == FormatInt(Get(Replay(start, rows), row.field)))
  {
    var all := rows + [row];
    assert all[..|rows|] == rows && all[|rows|] == row;
    assert forall i :: 0 <= i < |rows| ==> all[..i] == rows[..i] && all[i] == rows[i];
    if OldValuesAgree(start, all) {
      forall i | 0 <= i < |rows| && IsLimit(rows[i].field)
        ensures rows[i].oldValue == FormatInt(Get(Replay(start, rows[..i]), rows[i].field))
      {
        assert all[i] == rows[i];
      }
    }
  }

  /** A limit's printed change: a row only when the two texts differ. */
  function RowsOf(row: HistoryRow): seq<HistoryRow> {
    if row.oldValue == row.newValue then [] else [row]
  }

  function RowsOfAll(changes: seq<HistoryRow>): seq<HistoryRow> {
    if changes == [] then [] else RowsOfAll(changes[..|changes| - 1]) + RowsOf(changes[|changes| - 1])
  }

  function RowFor(field: Field, prev: int, current: int): HistoryRow {
    HistoryRow(field, FormatInt(prev), FormatInt(current))
  }

  /** What recording one limit does to the replay and to the old values. */
  lemma RowReplays(start: Limits, rows: seq<HistoryRow>, field: Field, prev: int, current: int)
    requires IsLimit(field)
    ensures var before := Replay(start, rows); var rows' := rows + RowsOf(RowFor(field, prev, current));
            && Replay(start, rows') == (if prev == current then before else Set(before, field, current))
            && (OldValuesAgree(start, rows') <==>
                OldValuesAgree(start, rows) && (prev == current || Get(before, field) == prev))
  {
    FormatIsInjective(prev, current);
    if prev == current {
      assert rows + [] == rows;
    } else {
      ParseOfFormat(current);
      FormatIsInjective(prev, Get(Replay(start, rows), field));
      ReplayAppend(start, rows, RowFor(field, prev, current));
    }
  }

  /** Rows about CPU or usage leave the replay alone. */
  lemma OtherRowsAreIgnored(start: Limits, rows: seq<HistoryRow>, row: HistoryRow)
    requires !IsLimit(row.field)
    ensures var rows' := rows + RowsOf(row);
            Replay(start, rows') == Replay(start, rows) && (OldValuesAgree(start, rows') <==> OldValuesAgree(start, rows))
  {
    if row.oldValue == row.newValue {
      assert rows + [] == rows;
    } else {
      ReplayAppend(start, rows, row);
    }
  }

  /** The five comparisons of recordQuotaHistory, in its order. */
  function Changes(formatCPU: real -> string, prev: QuotaRecord, current: QuotaRecord): seq<HistoryRow> {
    [HistoryRow(MaxCPU, formatCPU(prev.maxCPU), formatCPU(current.maxCPU)),
     RowFor(MaxMemoryMB, prev.maxMemoryMB, current.maxMemoryMB),
     RowFor(MaxApps, prev.maxApps, current.maxApps),
     RowFor(MaxStorageMB, prev.maxStorageMB, current.maxStorageMB),
     RowFor(MaxBandwidthGB, prev.maxBandwidthGB, current.maxBandwidthGB)]
  }

  lemma RowsOfOneMore(rows: seq<HistoryRow>, changes: seq<HistoryRow>, c: HistoryRow)
    ensures rows + RowsOfAll(changes + [c]) == rows + RowsOfAll(changes) + RowsOf(c)
  {
    assert (changes + [c])[..|changes|] == changes;
  }

  lemma RowsOfFive(rows: seq<HistoryRow>, a: HistoryRow, b: HistoryRow, c: HistoryRow, d: HistoryRow, e: HistoryRow)
    ensures rows + RowsOfAll([a, b, c, d, e]) == rows + RowsOf(a) + RowsOf(b) + RowsOf(c) + RowsOf(d) + RowsOf(e)
  {
    assert [a, b, c, d, e] == [] + [a] + [b] + [c] + [d] + [e];
    RowsOfOneMore(rows, [], a);
    assert rows + RowsOfAll([]) == rows;
    RowsOfOneMore(rows, [] + [a], b);
    RowsOfOneMore(rows, [] + [a] + [b], c);
    RowsOfOneMore(rows, [] + [a] + [b] + [c], d);
    RowsOfOneMore(rows, [] + [a] + [b] + [c] + [d], e);
  }

  /** The replay `r` after the rows of a change from `read` to `current`. */
  function Replayed(r: Limits, read: Limits, current: Limits): Limits {
    Limits(if read.memoryMB == current.memoryMB then r.memoryMB else current.memoryMB,
           if read.apps == current.apps then r.apps else current.apps,
           if read.storageMB == current.storageMB then r.storageMB else current.storageMB,
           if read.bandwidthGB == current.bandwidthGB then r.bandwidthGB else current.bandwidthGB)
  }

  /** Every limit that gets a row was read as the replay has it. */
  predicate ReadAsReplayed(r: Limits, read: Limits, current: Limits) {
    && (read.memoryMB == current.memoryMB || read.memoryMB == r.memoryMB)
    && (read.apps == current.apps || read.apps == r.apps)
    && (read.storageMB == current.storageMB || read.storageMB == r.storageMB)
    && (read.bandwidthGB == current.bandwidthGB || read.bandwidthGB == r.bandwidthGB)
  }

  /** What recording a whole change does to the replay and to the old values. */
  lemma ChangesReplay(formatCPU: real -> string, start: Limits, rows: seq<HistoryRow>, read: QuotaRecord, current: QuotaRecord)
    ensures var r := Replay(start, rows); var rows' := rows + RowsOfAll(Changes(formatCPU, read, current));
            && Replay(start, rows') == Replayed(r, LimitsOf(read), LimitsOf(current))
            && (OldValuesAgree(start, rows') <==>
                OldValuesAgree(start, rows) && ReadAsReplayed(r, LimitsOf(read), LimitsOf(current)))
  {
    var c := Changes(formatCPU, read, current);
    RowsOfFive(rows, c[0], c[1], c[2], c[3], c[4]);
    var r0 := rows + RowsOf(c[0]);
    OtherRowsAreIgnored(start, rows, c[0]);
    var r1 := r0 + RowsOf(c[1]);
    RowReplays(start, r0, MaxMemoryMB, read.maxMemoryMB, current.maxMemoryMB);
    var r2 := r1 + RowsOf(c[2]);
    RowReplays(start, r1, MaxApps, read.maxApps, current.maxApps);
    var r3 := r2 + RowsOf(c[3]);
    RowReplays(start, r2, MaxStorageMB, read.maxStorageMB, current.maxStorageMB);
    RowReplays(start, r3, MaxBandwidthGB, read.maxBandwidthGB, current.maxBandwidthGB);
  }

  // ----- an update, from reading the limits to committing -----

  /** An absent or negative request leaves a limit alone. */
  datatype Request = Request(maxCPU: Option<real>, maxMemoryMB: Option<int>, maxApps: Option<int>,
                             maxStorageMB: Option<int>, maxBandwidthGB: Option<int>)

  predicate Asks(r: Option<int>) {
    r.Some? && r.value >= 0
  }

  predicate AsksNothing(r: Request) {
    !(r.maxCPU.Some? && r.maxCPU.value >= 0.0) && !Asks(r.maxMemoryMB) && !Asks(r.maxApps) && !Asks(r.maxStorageMB)
    && !Asks(r.maxBandwidthGB)
  }

  function Updated(current: int, request: Option<int>): int {
    if Asks(request) then request.value else current
  }

  /** UPDATE quotas SET ... RETURNING */
  function Applied(q: QuotaRecord, r: Request): QuotaRecord {
    QuotaRecord(if r.maxCPU.Some? && r.maxCPU.value >= 0.0 then r.maxCPU.value else q.maxCPU,
                Updated(q.maxMemoryMB, r.maxMemoryMB), Updated(q.maxApps, r.maxApps),
                Updated(q.maxStorageMB, r.maxStorageMB), Updated(q.maxBandwidthGB, r.maxBandwidthGB))
  }

  /** A limit that changed since it was read is set back to what was read, so the change gets no row. */
  predicate HidesChange(read: Limits, stored: Limits, current: Limits) {
    || (read.memoryMB == current.memoryMB != stored.memoryMB)
    || (read.apps == current.apps != stored.apps)
    || (read.storageMB == current.storageMB != stored.storageMB)
    || (read.bandwidthGB == current.bandwidthGB != stored.bandwidthGB)
  }

  /** A commit keeps the replay right exactly when it hides no change, and the old values exactly when nothing intervened. */
  lemma CommitIsExplainedIff(formatCPU: real -> string, start: Limits, rows: seq<HistoryRow>,
                             read: QuotaRecord, stored: QuotaRecord, current: QuotaRecord)
    requires Replay(start, rows) == LimitsOf(stored)
    ensures var rows' := rows + RowsOfAll(Changes(formatCPU, read, current));
            && (Replay(start, rows') == LimitsOf(current) <==> !HidesChange(LimitsOf(read), LimitsOf(stored), LimitsOf(current)))
            && (OldValuesAgree(start, rows) ==>
                (Replay(start, rows') == LimitsOf(current) && OldValuesAgree(start, rows') <==> LimitsOf(read) == LimitsOf(stored)))
  {
    ChangesReplay(formatCPU, start, rows, read, current);
  }

  // ----- the code -----

  /** The limits to set, and how many there are. */
  method ApplyRequest(current: QuotaRecord, request: Request) returns (next: QuotaRecord, updates: nat)
    ensures next == Applied(current, request)
    ensures next.maxCPU == if request.maxCPU.Some? && request.maxCPU.value >= 0.0 then request.maxCPU.value else current.maxCPU
    ensures next.maxMemoryMB ==
            if request.maxMemoryMB.Some? && request.maxMemoryMB.value >= 0 then request.maxMemoryMB.value else current.maxMemoryMB
    ensures next.maxApps == if request.maxApps.Some? && request.maxApps.value >= 0 then request.maxApps.value else current.maxApps
    ensures next.maxStorageMB ==
            if request.maxStorageMB.Some? && request.maxStorageMB.value >= 0 then request.maxStorageMB.value else current.maxStorageMB
    ensures next.maxBandwidthGB ==
            if request.maxBandwidthGB.Some? && request.maxBandwidthGB.value >= 0 then request.maxBandwidthGB.value
            else current.maxBandwidthGB
    ensures updates == 0 <==>
            && (request.maxCPU.Some? ==> request.maxCPU.value < 0.0)
            && (request.maxMemoryMB.Some? ==> request.maxMemoryMB.value < 0)
            && (request.maxApps.Some? ==> request.maxApps.value < 0)
            && (request.maxStorageMB.Some? ==> request.maxStorageMB.value < 0)
            && (request.maxBandwidthGB.Some? ==> request.maxBandwidthGB.value < 0)
  {
    next, updates := current, 0;
    if request.maxCPU.Some? && request.maxCPU.value >= 0.0 {
      next, updates := next.(maxCPU := request.maxCPU.value), updates + 1;
    }
    if request.maxMemoryMB.Some? && request.maxMemoryMB.value >= 0 {
      next, updates := next.(maxMemoryMB := request.maxMemoryMB.value), updates + 1;
    }
    if request.maxApps.Some? && request.maxApps.value >= 0 {
      next, updates := next.(maxApps := request.maxApps.value), updates + 1;
    }
    if request.maxStorageMB.Some? && request.maxStorageMB.value >= 0 {
      next, updates := next.(maxStorageMB := request.maxStorageMB.value), updates + 1;
    }
    if request.maxBandwidthGB.Some? && request.maxBandwidthGB.value >= 0 {
      next, updates := next.(maxBandwidthGB := request.maxBandwidthGB.value), updates + 1;
    }
  }

  /** Each limit has the value asked for it, if there is one and it is not negative, and its old value otherwise. */
  ghost predicate SetsWhatIsAsked(before: QuotaRecord, request: Request, after: QuotaRecord) {
    && (forall x :: x >= 0.0 && request.maxCPU == Some(x) ==> after.maxCPU == x)
    && (forall n :: n >= 0 && request.maxMemoryMB == Some(n) ==> after.maxMemoryMB == n)
    && (forall n :: n >= 0 && request.maxApps == Some(n) ==> after.maxApps == n)
    && (forall n :: n >= 0 && request.maxStorageMB == Some(n) ==> after.maxStorageMB == n)
    && (forall n :: n >= 0 && request.maxBandwidthGB == Some(n) ==> after.maxBandwidthGB == n)
    && (request.maxCPU == None || request.maxCPU.value < 0.0 ==> after.maxCPU == before.maxCPU)
    && (request.maxMemoryMB == None || request.maxMemoryMB.value < 0 ==> after.maxMemoryMB == before.maxMemoryMB)
    && (request.maxApps == None || request.maxApps.value < 0 ==> after.maxApps == before.maxApps)
    && (request.maxStorageMB == None || request.maxStorageMB.value < 0 ==> after.maxStorageMB == before.maxStorageMB)
    && (request.maxBandwidthGB == None || request.maxBandwidthGB.value < 0 ==> after.maxBandwidthGB == before.maxBandwidthGB)
  }

  lemma AppliedSetsWhatIsAsked(before: QuotaRecord, request: Request)
    ensures SetsWhatIsAsked(before, request, Applied(before, request))
  {
  }

  /** A request for one limit leaves the other four alone. */
  lemma OneLimitAtATime(before: QuotaRecord, x: real, n: nat)
    requires x >= 0.0
    ensures Applied(before, Request(Some(x), None, None, None, None)) == before.(maxCPU := x)
    ensures Applied(before, Request(None, Some(n), None, None, None)) == before.(maxMemoryMB := n)
    ensures Applied(before, Request(None, None, Some(n), None, None)) == before.(maxApps := n)
    ensures Applied(before, Request(None, None, None, Some(n), None)) == before.(maxStorageMB := n)
    ensures Applied(before, Request(None, None, None, None, Some(n))) == before.(maxBandwidthGB := n)
  {
  }

  /** One user's quotas row and quota_history rows. */
  class QuotaLedger {
    /** fmt.Sprintf("%f", x) */
    const formatCPU: real -> string
    ghost const start: Limits
    var quota: QuotaRecord
    var history: seq<HistoryRow>

    /** Replaying the history from the first limits gives the current ones. */
    ghost predicate Valid()
      reads this
    {
      Replay(start, history) == LimitsOf(quota) && OldValuesAgree(start, history)
    }

    constructor (formatCPU: real -> string, quota: QuotaRecord)
      ensures Valid() && this.quota == quota && history == [] && start == LimitsOf(quota) && this.formatCPU == formatCPU
    {
      this.formatCPU, this.quota, this.history := formatCPU, quota, [];
      this.start := LimitsOf(quota);
    }

    method RecordQuotaHistory(prev: QuotaRecord)
      modifies this`history
      ensures history == old(history) + RowsOfAll(Changes(formatCPU, prev, quota))
    {
      var changes := Changes(formatCPU, prev, quota);
      for i := 0 to |changes|
        invariant history == old(history) + RowsOfAll(changes[..i])
      {
        var change := changes[i];
        assert changes[..i + 1][..i] == changes[..i];
        if change.oldValue != change.newValue {
          history := history + [change];
        }
      }
      assert changes[..|changes|] == changes;
    }

    /** UpdateQuota from BEGIN to COMMIT, having read `current` before; None is "no fields to update". */
    method CommitUpdate(current: QuotaRecord, request: Request) returns (updated: Option<QuotaRecord>)
      requires Valid()
      modifies this`quota, this`history
      ensures updated == None <==> AsksNothing(request)
      ensures updated == None ==> quota == old(quota) && history == old(history)
      ensures updated.Some? ==> updated.value == quota
      ensures quota == Applied(old(quota), request) && SetsWhatIsAsked(old(quota), request, quota)
      ensures updated.Some? ==> history == old(history) + RowsOfAll(Changes(formatCPU, current, quota))
      ensures updated.Some? ==> (Valid() <==> LimitsOf(current) == LimitsOf(old(quota)))
    {
      var next, updates := ApplyRequest(quota, request);
      if updates == 0 {
        AppliedSetsWhatIsAsked(quota, request);
        return None;
      }
      CommitIsExplainedIff(formatCPU, start, history, current, quota, next);
      AppliedSetsWhatIsAsked(quota, request);
      quota := next;
      RecordQuotaHistory(current);
      updated := Some(quota);
    }

    /** UpdateQuota when nothing else happens between its two parts. */
    method UpdateQuota(request: Request) returns (updated: Option<QuotaRecord>)
      requires Valid()
      modifies this`quota, this`history
      ensures Valid() && old(history) <= history
      ensures updated == if AsksNothing(request) then None else Some(quota)
      ensures SetsWhatIsAsked(old(quota), request, quota)
    {
      var current := quota;
      updated := CommitUpdate(current, request);
    }

    /** ResetQuota's row is about usage and changes no limit. */
    method ResetQuota()
      requires Valid()
      modifies this`history
      ensures Valid() && history == old(history) + [HistoryRow(ResourceReset, "used", "reset")]
    {
      ReplayAppend(start, history, HistoryRow(ResourceReset, "used", "reset"));
      history := history + [HistoryRow(ResourceReset, "used", "reset")];
    }
  }
}
