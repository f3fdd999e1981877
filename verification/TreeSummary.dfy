/** summarizeTree of cmd/api/repo_preflight.go: how big a checkout is, and which directories weigh most. */
module TreeSummary {

  datatype TreeEntry = TreeEntry(path: string, kind: string, size: int)

  datatype PathSize = PathSize(path: string, bytes: int)

  const TOP_OFFENDERS: nat := 3

  // ----- grouping -----

  /** Reading left to right: the parts closed by a slash, and the one that is not. */
  datatype Parts = Parts(closed: seq<string>, current: string)

  function PartsOf(path: string): Parts {
    if path == [] then Parts([], "")
    else
      var before, c := PartsOf(path[..|path| - 1]), path[|path| - 1];
      if c == '/' then Parts(before.closed + [before.current], "") else Parts(before.closed, before.current + [c])
  }

  /** strings.Split(path, "/") */
  function Split(path: string): (parts: seq<string>)
    ensures |parts| >= 1
  {
    PartsOf(path).closed + [PartsOf(path).current]
  }

  function JoinParts(parts: seq<string>): string {
    if parts == [] then ""
    else if |parts| == 1 then parts[0]
    else JoinParts(parts[..|parts| - 1]) + "/" + parts[|parts| - 1]
  }

  /** The group a blob is counted in: three levels deep, or its directory, or the file itself. */
  function Group(path: string): string {
    var parts := Split(path);
    if |parts| > 3 then JoinParts(parts[..3])
    else if |parts| > 1 then JoinParts(parts[..|parts| - 1])
    else path
  }

  // ----- totals -----

  predicate IsBlob(e: TreeEntry) {
    e.kind == "blob"
  }

  function BlobBytes(entries: seq<TreeEntry>): int {
    if entries == [] then 0
    else BlobBytes(entries[..|entries| - 1]) + if IsBlob(entries[|entries| - 1]) then entries[|entries| - 1].size else 0
  }

  function BlobCount(entries: seq<TreeEntry>): nat {
    if entries == [] then 0
    else BlobCount(entries[..|entries| - 1]) + if IsBlob(entries[|entries| - 1]) then 1 else 0
  }

  /** The bytes of the blobs in one group. */
  function GroupBytes(entries: seq<TreeEntry>, group: string): int {
    if entries == [] then 0
    else
      var e := entries[|entries| - 1];
      GroupBytes(entries[..|entries| - 1], group) + if IsBlob(e) && Group(e.path) == group then e.size else 0
  }

  function GroupsOf(entries: seq<TreeEntry>): set<string> {
    set e | e in entries && IsBlob(e) :: Group(e.path)
  }

  function Sum(list: seq<PathSize>): int {
    if list == [] then 0 else Sum(list[..|list| - 1]) + list[|list| - 1].bytes
  }

  /** `list` has an entry for the group. */
  predicate Lists(list: seq<PathSize>, group: string) {
    exists i :: 0 <= i < |list| && list[i].path == group
  }

  // ----- the code -----

  ghost predicate DistinctPaths(list: seq<PathSize>) {
    forall i, j :: 0 <= i < j < |list| ==> list[i].path != list[j].path
  }

  predicate Descending(list: seq<PathSize>) {
    forall i, j :: 0 <= i < j < |list| ==> list[i].bytes >= list[j].bytes
  }

  /** `sorted` is `list` in descending order, with nothing lost or added. */
  predicate Ranks(sorted: seq<PathSize>, list: seq<PathSize>) {
    Descending(sorted) && multiset(sorted) == multiset(list) && Sum(sorted) == Sum(list)
  }

  function Insert(sorted: seq<PathSize>, x: PathSize): (r: seq<PathSize>)
    ensures |r| == |sorted| + 1
  {
    if sorted == [] || sorted[|sorted| - 1].bytes >= x.bytes then sorted + [x]
    else Insert(sorted[..|sorted| - 1], x) + [sorted[|sorted| - 1]]
  }

  /** sort.Slice by bytes, descending; equal elements may end up in any order. */
  method SortByBytes(list: seq<PathSize>) returns (sorted: seq<PathSize>)
    ensures Ranks(sorted, list)
  {
    sorted := [];
    for i := 0 to |list|
      invariant Ranks(sorted, list[..i])
    {
      assert list[..i + 1] == list[..i] + [list[i]];
      InsertRanks(sorted, list[..i], list[i]);
      sorted := Insert(sorted, list[i]);
    }
    assert list[..|list|] == list;
  }

  /** The directory a blob's bytes are booked under. */
  method Directory(path: string) returns (dir: string)
    ensures dir == Group(path)
  {
    var parts := Split(path);
    JoinOfSplit(path);
    if |parts| > 3 {
      parts := parts[..3];
    } else if |parts| > 1 {
      parts := parts[..|parts| - 1];
    }
    dir := JoinParts(parts);
  }

  /** The byDir table after some entries. */
  ghost predicate Booked(entries: seq<TreeEntry>, byDir: map<string, int>) {
    && byDir.Keys == GroupsOf(entries)
    && forall g :: g in byDir ==> byDir[g] == GroupBytes(entries, g)
  }

  /** The loop's three totals after some entries. */
  ghost predicate Totalled(entries: seq<TreeEntry>, totalBytes: int, files: nat, byDir: map<string, int>) {
    totalBytes == BlobBytes(entries) && files == BlobCount(entries) && Booked(entries, byDir)
  }

  /** The loop over the entries. */
  method TotalUp(entries: seq<TreeEntry>) returns (totalBytes: int, files: nat, byDir: map<string, int>)
    ensures totalBytes == BlobBytes(entries) && files == BlobCount(entries)
    ensures Booked(entries, byDir)
  {
    totalBytes, files, byDir := 0, 0, map[];
    for i := 0 to |entries|
      invariant Totalled(entries[..i], totalBytes, files, byDir)
    {
      assert entries[..i + 1] == entries[..i] + [entries[i]];
      var e := entries[i];
      TotalledStep(entries[..i], totalBytes, files, byDir, e);
      if e.kind != "blob" {
        continue;
      }
      totalBytes := totalBytes + e.size;
      files := files + 1;
      var dir := Directory(e.path);
      byDir := byDir[dir := (if dir in byDir then byDir[dir] else 0) + e.size];
    }
    assert entries[..|entries|] == entries;
  }

  /** Every group once, with its bytes, the heaviest first. */
  ghost predicate IsRanking(entries: seq<TreeEntry>, all: seq<PathSize>) {
    && Descending(all) && DistinctPaths(all)
    && (forall g :: Lists(all, g) <==> g in GroupsOf(entries))
    && (forall i :: 0 <= i < |all| ==> all[i].bytes == GroupBytes(entries, all[i].path))
  }

  /** The table's directories, sorted. */
  method RankGroups(entries: seq<TreeEntry>, byDir: map<string, int>) returns (all: seq<PathSize>)
    requires Booked(entries, byDir)
    ensures IsRanking(entries, all) && Sum(all) == BlobBytes(entries)
  {
    var list := ListGroups(byDir);
    GroupsAddUp(entries, list);
    all := SortByBytes(list);
    PermutationKeeps(list, all, byDir);
  }

  /** `all` is the whole ranking, of which `top` is what is reported. */
  method SummarizeTree(entries: seq<TreeEntry>)
    returns (totalBytes: int, files: nat, top: seq<PathSize>, ghost all: seq<PathSize>)
    ensures totalBytes == BlobBytes(entries) && files == BlobCount(entries)
    ensures top == all[..if |all| > TOP_OFFENDERS then TOP_OFFENDERS else |all|]
    ensures IsRanking(entries, all) && Sum(all) == totalBytes
    ensures forall i, j :: 0 <= i < |top| <= j < |all| ==> all[j].bytes <= top[i].bytes
  {
    var byDir;
    totalBytes, files, byDir := TotalUp(entries);
    top := RankGroups(entries, byDir);
    all := top;
    if |top| > TOP_OFFENDERS {
      top := top[..TOP_OFFENDERS];
    }
  }

  /** The range over byDir, in whatever order the map is visited. */
  method ListGroups(byDir: map<string, int>) returns (list: seq<PathSize>)
    ensures DistinctPaths(list)
    ensures forall g :: g in byDir <==> Lists(list, g)
    ensures forall i :: 0 <= i < |list| ==> list[i].path in byDir && list[i].bytes == byDir[list[i].path]
  {
    list := [];
    var left := byDir.Keys;
    while left != {}
      invariant left <= byDir.Keys && DistinctPaths(list)
      invariant forall g :: g in byDir && g !in left <==> Lists(list, g)
      invariant forall i :: 0 <= i < |list| ==> list[i].path in byDir && list[i].path !in left && list[i].bytes == byDir[list[i].path]
      decreases left
    {
      var g :| g in left;
      ListsSnoc(list, PathSize(g, byDir[g]));
      list := list + [PathSize(g, byDir[g])];
      left := left - {g};
    }
  }

  // ----- proofs -----

  lemma JoinPartsSnoc(parts: seq<string>, last: string)
    ensures JoinParts(parts + [last]) == if parts == [] then last else JoinParts(parts) + "/" + last
  {
    assert (parts + [last])[..|parts|] == parts;
  }

  lemma AppendLast(a: string, b: string, c: char)
    ensures a + "/" + "" == a + ['/']
    ensures a + "/" + (b + [c]) == a + "/" + b + [c]
  {
  }

  lemma JoinOfGrown(init: seq<string>, last: string, c: char)
    ensures JoinParts(init + [last + [c]]) == JoinParts(init + [last]) + [c]
  {
    JoinPartsSnoc(init, last);
    JoinPartsSnoc(init, last + [c]);
    AppendLast(JoinParts(init), last, c);
  }

  lemma JoinOfOpened(parts: seq<string>)
    requires |parts| >= 1
    ensures JoinParts(parts + [""]) == JoinParts(parts) + ['/']
  {
    JoinPartsSnoc(parts, "");
    AppendLast(JoinParts(parts), "", '/');
  }

  /** Splitting and joining again gives the path back. */
  lemma {:induction false} JoinOfSplit(path: string)
    ensures JoinParts(Split(path)) == path
  {
    if path != [] {
      var shorter, c := path[..|path| - 1], path[|path| - 1];
      var before := PartsOf(shorter);
      JoinOfSplit(shorter);
      assert path == shorter + [c];
      if c == '/' {
        JoinOfOpened(before.closed + [before.current]);
      } else {
        JoinOfGrown(before.closed, before.current, c);
      }
    }
  }

  lemma {:induction false} InsertAdds(sorted: seq<PathSize>, x: PathSize)
    ensures multiset(Insert(sorted, x)) == multiset(sorted) + multiset{x}
    ensures Sum(Insert(sorted, x)) == Sum(sorted) + x.bytes
  {
    if sorted == [] || sorted[|sorted| - 1].bytes >= x.bytes {
      assert (sorted + [x])[..|sorted|] == sorted;
    } else {
      var n := |sorted| - 1;
      assert sorted == sorted[..n] + [sorted[n]];
      InsertAdds(sorted[..n], x);
      var r := Insert(sorted[..n], x);
      assert (r + [sorted[n]])[..|r|] == r;
    }
  }

  lemma DescendingSnoc(list: seq<PathSize>, x: PathSize)
    requires Descending(list) && (list != [] ==> list[|list| - 1].bytes >= x.bytes)
    ensures Descending(list + [x])
  {
  }

  lemma {:induction false} InsertSorts(sorted: seq<PathSize>, x: PathSize)
    requires Descending(sorted)
    ensures var r := Insert(sorted, x);
            Descending(r) && (r[|r| - 1] == x || (sorted != [] && r[|r| - 1] == sorted[|sorted| - 1]))
  {
    if sorted == [] || sorted[|sorted| - 1].bytes >= x.bytes {
      DescendingSnoc(sorted, x);
    } else {
      var n := |sorted| - 1;
      InsertSorts(sorted[..n], x);
      DescendingSnoc(Insert(sorted[..n], x), sorted[n]);
    }
  }

  lemma InsertRanks(sorted: seq<PathSize>, list: seq<PathSize>, x: PathSize)
    requires Ranks(sorted, list)
    ensures Ranks(Insert(sorted, x), list + [x])
  {
    InsertAdds(sorted, x);
    InsertSorts(sorted, x);
    assert (list + [x])[..|list|] == list;
  }

  lemma ListsSnoc(list: seq<PathSize>, x: PathSize)
    ensures forall g :: Lists(list + [x], g) <==> Lists(list, g) || g == x.path
  {
    forall g
      ensures Lists(list + [x], g) <==> Lists(list, g) || g == x.path
    {
      var longer := list + [x];
      assert longer[|list|] == x;
      assert forall i :: 0 <= i < |list| ==> longer[i] == list[i];
    }
  }

  lemma GroupsSnoc(entries: seq<TreeEntry>, e: TreeEntry)
    ensures GroupsOf(entries + [e]) == GroupsOf(entries) + (if IsBlob(e) then {Group(e.path)} else {})
  {
    var longer := entries + [e];
    assert e in longer;
    forall x | x in entries
      ensures x in longer
    {
    }
  }

  lemma BookedStep(entries: seq<TreeEntry>, byDir: map<string, int>, e: TreeEntry)
    requires Booked(entries, byDir)
    ensures var g := Group(e.path);
            Booked(entries + [e],
              if IsBlob(e) then byDir[g := (if g in byDir then byDir[g] else 0) + e.size] else byDir)
  {
    GroupsSnoc(entries, e);
    NewGroupIsEmpty(entries, Group(e.path));
    assert (entries + [e])[..|entries|] == entries;
  }

  lemma {:induction false} NewGroupIsEmpty(entries: seq<TreeEntry>, g: string)
    ensures g !in GroupsOf(entries) ==> GroupBytes(entries, g) == 0
  {
    if entries != [] {
      var before, e := entries[..|entries| - 1], entries[|entries| - 1];
      assert entries == before + [e];
      GroupsSnoc(before, e);
      NewGroupIsEmpty(before, g);
    }
  }

  lemma TotalledStep(entries: seq<TreeEntry>, totalBytes: int, files: nat, byDir: map<string, int>, e: TreeEntry)
    requires Totalled(entries, totalBytes, files, byDir)
    ensures var g := Group(e.path);
            if IsBlob(e) then
              Totalled(entries + [e], totalBytes + e.size, files + 1, byDir[g := (if g in byDir then byDir[g] else 0) + e.size])
            else Totalled(entries + [e], totalBytes, files, byDir)
  {
    BookedStep(entries, byDir, e);
    assert (entries + [e])[..|entries|] == entries;
  }

  function BytesInGroups(entries: seq<TreeEntry>, list: seq<PathSize>): int {
    if list == [] then 0
    else BytesInGroups(entries, list[..|list| - 1]) + GroupBytes(entries, list[|list| - 1].path)
  }

  lemma {:induction false} SumIsBytes(entries: seq<TreeEntry>, list: seq<PathSize>)
    requires forall i :: 0 <= i < |list| ==> list[i].bytes == GroupBytes(entries, list[i].path)
    ensures Sum(list) == BytesInGroups(entries, list)
  {
    if list != [] {
      SumIsBytes(entries, list[..|list| - 1]);
    }
  }

  /** One entry adds its size to exactly one of the listed groups. */
  lemma {:induction false} OneEntryOneGroup(entries: seq<TreeEntry>, list: seq<PathSize>)
    requires entries != [] && DistinctPaths(list)
    ensures var e := entries[|entries| - 1];
            BytesInGroups(entries, list) == BytesInGroups(entries[..|entries| - 1], list) +
              if IsBlob(e) && Lists(list, Group(e.path)) then e.size else 0
  {
    if list != [] {
      var before, last := list[..|list| - 1], list[|list| - 1];
      assert list == before + [last];
      OneEntryOneGroup(entries, before);
      ListsSnoc(before, last);
      assert !Lists(before, last.path);
    }
  }

  lemma {:induction false} NoEntriesNoBytes(list: seq<PathSize>)
    ensures BytesInGroups([], list) == 0
  {
    if list != [] {
      NoEntriesNoBytes(list[..|list| - 1]);
    }
  }

  lemma {:induction false} GroupsCoverBytes(entries: seq<TreeEntry>, list: seq<PathSize>)
    requires DistinctPaths(list)
    requires forall e :: e in entries && IsBlob(e) ==> Lists(list, Group(e.path))
    ensures BytesInGroups(entries, list) == BlobBytes(entries)
  {
    if entries == [] {
      NoEntriesNoBytes(list);
    } else {
      OneEntryOneGroup(entries, list);
      assert entries[|entries| - 1] in entries;
      GroupsCoverBytes(entries[..|entries| - 1], list);
    }
  }

  lemma {:induction false} GroupsAddUp(entries: seq<TreeEntry>, list: seq<PathSize>)
    requires DistinctPaths(list)
    requires forall g :: g in GroupsOf(entries) <==> Lists(list, g)
    requires forall i :: 0 <= i < |list| ==> list[i].bytes == GroupBytes(entries, list[i].path)
    ensures Sum(list) == BlobBytes(entries)
  {
    SumIsBytes(entries, list);
    forall e | e in entries && IsBlob(e)
      ensures Lists(list, Group(e.path))
    {
      assert Group(e.path) in GroupsOf(entries);
    }
    GroupsCoverBytes(entries, list);
  }

  /** Ranking the groups neither loses nor invents one. */
  lemma PermutationKeeps(list: seq<PathSize>, all: seq<PathSize>, byDir: map<string, int>)
    requires multiset(all) == multiset(list) && DistinctPaths(list)
    requires forall g :: g in byDir <==> Lists(list, g)
    requires forall i :: 0 <= i < |list| ==> list[i].path in byDir && list[i].bytes == byDir[list[i].path]
    ensures DistinctPaths(all)
    ensures forall g :: g in byDir <==> Lists(all, g)
    ensures forall i :: 0 <= i < |all| ==> all[i].path in byDir && all[i].bytes == byDir[all[i].path]
  {
    forall x
      ensures x in all <==> x in list
    {
      assert x in all <==> x in multiset(all);
      assert x in list <==> x in multiset(list);
    }
    forall i | 0 <= i < |all|
      ensures all[i].path in byDir && all[i].bytes == byDir[all[i].path]
    {
      assert all[i] in list;
    }
    forall g | g in byDir
      ensures Lists(all, g)
    {
      var i :| 0 <= i < |list| && list[i].path == g;
      assert list[i] in all;
    }
    forall i, j | 0 <= i < j < |all|
      ensures all[i].path != all[j].path
    {
      if all[i].path == all[j].path {
        assert all[i] == all[j];
        TwiceInMultiset(all, i, j);
        OnceInMultiset(list, all[i]);
      }
    }
  }

  lemma TwiceInMultiset(s: seq<PathSize>, i: nat, j: nat)
    requires i < j < |s| && s[i] == s[j]
    ensures multiset(s)[s[i]] >= 2
  {
    assert s == s[..j] + [s[j]] + s[j + 1..];
    assert s[i] in multiset(s[..j]) by { assert s[..j][i] == s[i]; }
  }

  lemma {:induction false} OnceInMultiset(s: seq<PathSize>, x: PathSize)
    requires DistinctPaths(s)
    ensures multiset(s)[x] <= 1
  {
    if s != [] {
      var before, last := s[..|s| - 1], s[|s| - 1];
      assert s == before + [last];
      OnceInMultiset(before, x);
      if last == x {
        assert x !in before;
      }
    }
  }

  // ----- groups, by their paths -----

  lemma {:induction false} PartsOfPlain(a: string)
    requires '/' !in a
    ensures PartsOf(a) == Parts([], a)
  {
    if a != [] {
      var n := |a| - 1;
      assert forall c :: c in a[..n] ==> c in a;
      PartsOfPlain(a[..n]);
    }
  }

  lemma {:induction false} SplitAtSlash(x: string, d: string)
    ensures PartsOf(x + ("/" + d)) == Parts(Split(x) + PartsOf(d).closed, PartsOf(d).current)
  {
    var s := x + ("/" + d);
    if d == [] {
      assert s[..|s| - 1] == x;
    } else {
      var n := |d| - 1;
      assert s[..|s| - 1] == x + ("/" + d[..n]);
      SplitAtSlash(x, d[..n]);
    }
  }

  lemma SplitsAre(x: string, a: string, d: string)
    requires '/' !in a
    ensures Split(a) == [a] && Split(x + ("/" + d)) == Split(x) + Split(d)
  {
    PartsOfPlain(a);
    SplitAtSlash(x, d);
  }

  lemma JoinsAre(a: string, b: string, c: string)
    ensures JoinParts([a]) == a && JoinParts([a, b]) == a + "/" + b && JoinParts([a, b, c]) == a + "/" + b + "/" + c
  {
    assert [a, b][..1] == [a] && [a, b, c][..2] == [a, b];
  }

  lemma GroupOfOne(a: string)
    requires '/' !in a
    ensures Group(a) == a
  {
    SplitsAre(a, a, a);
  }

  lemma GroupOfTwo(a: string, b: string)
    requires '/' !in a && '/' !in b
    ensures Group(a + ("/" + b)) == a
  {
    SplitsAre(a, a, b);
    SplitsAre(b, b, b);
    assert [a] + [b] == [a, b];
    GroupOfSplit(a + ("/" + b), [a, b], [a]);
    JoinsAre(a, b, b);
  }

  lemma GroupOfThree(a: string, b: string, c: string)
    requires '/' !in a && '/' !in b && '/' !in c
    ensures Group(a + ("/" + (b + ("/" + c)))) == a + "/" + b
  {
    SplitsAre(c, c, c);
    SplitsAre(b, b, c);
    SplitsAre(a, a, b + ("/" + c));
    assert [a] + ([b] + [c]) == [a, b, c];
    GroupOfSplit(a + ("/" + (b + ("/" + c))), [a, b, c], [a, b]);
    JoinsAre(a, b, c);
  }

  lemma GroupOfDeep(a: string, b: string, c: string, d: string)
    requires '/' !in a && '/' !in b && '/' !in c
    ensures Group(a + ("/" + (b + ("/" + (c + ("/" + d)))))) == a + "/" + b + "/" + c
  {
    SplitsAre(c, c, d);
    SplitsAre(b, b, c + ("/" + d));
    SplitsAre(a, a, b + ("/" + (c + ("/" + d))));
    assert [a] + ([b] + ([c] + Split(d))) == [a, b, c] + Split(d);
    GroupOfSplit(a + ("/" + (b + ("/" + (c + ("/" + d))))), [a, b, c] + Split(d), [a, b, c]);
    JoinsAre(a, b, c);
  }

  lemma GroupOfSplit(path: string, parts: seq<string>, kept: seq<string>)
    requires Split(path) == parts && |parts| > 1 && kept <= parts && |kept| == if |parts| > 3 then 3 else |parts| - 1
    ensures Group(path) == JoinParts(kept)
  {
    assert parts[..|kept|] == kept;
  }

  /** A file counts for itself, its directory if that is at most two levels deep, and its first three levels otherwise. */
  lemma GroupsAre(a: string, b: string, c: string, d: string)
    requires '/' !in a && '/' !in b && '/' !in c
    ensures Group(a) == a
    ensures Group(a + ("/" + b)) == a
    ensures Group(a + ("/" + (b + ("/" + c)))) == a + "/" + b
    ensures Group(a + ("/" + (b + ("/" + (c + ("/" + d)))))) == a + "/" + b + "/" + c
  {
    GroupOfOne(a);
    GroupOfTwo(a, b);
    GroupOfThree(a, b, c);
    GroupOfDeep(a, b, c, d);
  }

  /** Sizes and counts are those of the blobs: other entries weigh nothing. */
  lemma {:induction false} BlobsAre(entries: seq<TreeEntry>, e: TreeEntry)
    ensures BlobBytes(entries + [e]) == BlobBytes(entries) + (if e.kind == "blob" then e.size else 0)
    ensures BlobCount(entries + [e]) == BlobCount(entries) + (if e.kind == "blob" then 1 else 0)
    ensures BlobBytes([]) == 0 && BlobCount([]) == 0
  {
    assert (entries + [e])[..|entries|] == entries;
  }
}
