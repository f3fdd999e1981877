/**
  What of the cutting into writes reaches the published log (cmd/api/build_log.go).  LogSplitter says
  when the lines handed to publishLocked depend on it; publishLocked then trims lines, shortens them
  and drops empty ones, which hides some of the differences.
  */
module LogPublishing {
  import opened LogSplitter
  import opened JobLog

  /** Every escape sequence that is removed begins with it. */
  const ESC: Byte := 0x1B

  predicate IsBlank(b: Byte) {
    b == SPACE || b == TAB
  }

  /** No byte from `n` on but spaces and tabs. */
  predicate BlankFrom(l: Line, n: nat) {
    forall i :: n <= i < |l| ==> IsBlank(l[i])
  }

  const FLUSHED: nat := MAX_JOB_LOG_LINE_LENGTH + 1

  /** The exact bound: no line, complete or not, has anything but blanks after 2001 bytes. */
  predicate BlankTails(s: Line) {
    (forall l :: l in Scan(s).lines ==> BlankFrom(l, FLUSHED)) && BlankFrom(Scan(s).rest, FLUSHED)
  }

  predicate EscapeFree(l: Line) {
    forall i :: 0 <= i < |l| ==> l[i] != ESC
  }

  /** The removal of escape sequences leaves lines without them alone. */
  ghost predicate LeavesPlainText(strip: Line -> Line) {
    forall l :: EscapeFree(l) ==> strip(l) == l
  }

  function Same(l: Line): Line {
    l
  }

  // ----- trimming -----

  lemma {:induction false} TrimAppendBlank(l: Line, t: Line)
    requires BlankFrom(t, 0)
    ensures TrimRight(l + t) == TrimRight(l)
  {
    if t == [] {
      assert l + t == l;
    } else {
      var n := |t| - 1;
      assert (l + t)[..|l + t| - 1] == l + t[..n];
      assert IsBlank((l + t)[|l + t| - 1]);
      TrimAppendBlank(l, t[..n]);
    }
  }

  lemma TrimOfBlank(t: Line)
    requires BlankFrom(t, 0)
    ensures TrimRight(t) == []
  {
    TrimAppendBlank([], t);
    assert [] + t == t;
  }

  lemma {:induction false} TrimKeepsContent(l: Line, i: nat)
    requires i < |l| && !IsBlank(l[i])
    ensures |TrimRight(l)| > i
  {
    if IsBlank(l[|l| - 1]) {
      TrimKeepsContent(l[..|l| - 1], i);
    }
  }

  /** A blank piece publishes nothing; blanks after a line change nothing. */
  lemma CleanedOfBlanks(l: Line, t: Line)
    requires BlankFrom(t, 0)
    ensures Cleaned(Same, t) == [] && Cleaned(Same, l + t) == Cleaned(Same, l)
  {
    TrimOfBlank(t);
    TrimAppendBlank(l, t);
  }

  /** What publishes something begins as it does before cleaning. */
  lemma CleanedOfContent(l: Line, i: nat)
    requires i < |l| && !IsBlank(l[i])
    ensures Cleaned(Same, l) != [] && Cleaned(Same, l)[0] == l[0]
  {
    TrimKeepsContent(l, i);
    assert TrimRight(l) <= l;
  }

  // ----- kept lines -----

  lemma {:induction false} KeptConcat(strip: Line -> Line, a: seq<Line>, b: seq<Line>)
    ensures Kept(strip, a + b) == Kept(strip, a) + Kept(strip, b)
  {
    if b == [] {
      assert a + b == a && Kept(strip, b) == [];
    } else {
      var n := |b| - 1;
      assert (a + b)[..|a + b| - 1] == a + b[..n];
      KeptConcat(strip, a, b[..n]);
    }
  }

  lemma KeptOne(strip: Line -> Line, l: Line)
    ensures Kept(strip, [l]) == if Cleaned(strip, l) == [] then [] else [Cleaned(strip, l)]
  {
    assert [l][..0] == [];
    assert Kept(strip, []) == [];
  }

  lemma KeptSnoc(a: seq<Line>, l: Line)
    ensures Kept(Same, a + [l]) == Kept(Same, a) + Kept(Same, [l])
  {
    KeptConcat(Same, a, [l]);
  }

  // ----- the writer against the reference -----

  /** The writer holds the current line, and has published what complete lines publish. */
  ghost predicate InStep(st: Split, r: Split) {
    st.rest == r.rest && Kept(Same, st.lines) == Kept(Same, r.lines)
  }

  /** The writer has flushed more than 2000 bytes of the current line, of which only blanks are left. */
  ghost predicate Flushed(st: Split, r: Split) {
    && |r.rest| >= FLUSHED && BlankFrom(r.rest, FLUSHED) && BlankFrom(st.rest, 0)
    && Kept(Same, st.lines) == Kept(Same, r.lines + [r.rest])
  }

  /** Draining a chunk behind an unterminated buffer. */
  lemma DrainBehind(rest: Line, chunk: Line)
    requires !HasTerminator(rest)
    ensures var d, c := Drain(rest + chunk), Scan(chunk);
            d == if c.lines == [] then Split([], rest + c.rest)
                 else Split([rest + c.lines[0]] + c.lines[1..], c.rest)
  {
    DrainIsScan(rest + chunk);
    ScanOfUnterminated(rest);
    ScanConcat(rest, chunk);
    assert forall x: seq<Line> :: [] + x == x;
  }

  lemma NothingMore<T>(a: seq<T>, b: seq<T>)
    ensures a + [] == a && b + [] == b
  {
  }

  /** Reading on behind the reference's current line. */
  lemma ScanBehind(p: Line, chunk: Line)
    ensures var r, c := Scan(p), Scan(chunk);
            Scan(p + chunk) == if c.lines == [] then Split(r.lines, r.rest + c.rest)
                               else Split(r.lines + ([r.rest + c.lines[0]] + c.lines[1..]), c.rest)
  {
    var r, c := Scan(p), Scan(chunk);
    ScanConcat(p, chunk);
    if c.lines != [] {
      Regroup(r.lines, r.rest + c.lines[0], c.lines[1..], []);
      NothingMore(r.lines + [r.rest + c.lines[0]] + c.lines[1..], c.lines[1..]);
    }
  }

  /** A prefix of a stream with blank tails has blank tails. */
  lemma BlankTailsPrefix(p: Line, q: Line)
    requires BlankTails(p + q)
    ensures BlankTails(p)
  {
    var r, c := Scan(p), Scan(q);
    ScanBehind(p, q);
    forall l | l in r.lines
      ensures BlankFrom(l, FLUSHED)
    {
      assert l in Scan(p + q).lines;
    }
    var longer := r.rest + if c.lines == [] then c.rest else c.lines[0];
    if c.lines != [] {
      assert ([longer] + c.lines[1..])[0] == longer;
      assert longer in Scan(p + q).lines;
    }
    assert BlankFrom(longer, FLUSHED);
    assert forall i :: 0 <= i < |r.rest| ==> longer[i] == r.rest[i];
  }

  /** The last step of a Write: an over-long rest is handed over. */
  function Flush(st: Split): Split {
    if |st.rest| > MAX_JOB_LOG_LINE_LENGTH then Split(st.lines + [st.rest], []) else st
  }

  lemma FeedIsFlush(st: Split, chunk: Line)
    ensures var d := Drain(st.rest + chunk); Feed(st, chunk) == Flush(Split(st.lines + d.lines, d.rest))
  {
  }

  ghost predicate Follows(st: Split, r: Split) {
    InStep(st, r) || Flushed(st, r)
  }

  lemma FlushInStep(st: Split, r: Split)
    requires InStep(st, r) && BlankFrom(r.rest, FLUSHED)
    ensures Follows(Flush(st), r)
  {
    if |st.rest| > MAX_JOB_LOG_LINE_LENGTH {
      KeptSnoc(st.lines, st.rest);
      KeptSnoc(r.lines, r.rest);
    }
  }

  lemma FlushFlushed(st: Split, r: Split)
    requires Flushed(st, r)
    ensures Follows(Flush(st), r)
  {
    if |st.rest| > MAX_JOB_LOG_LINE_LENGTH {
      KeptSnoc(st.lines, st.rest);
      CleanedOfBlanks([], st.rest);
      KeptOne(Same, st.rest);
    }
  }

  lemma DrainInStep(st: Split, p: Line, chunk: Line)
    requires InStep(st, Scan(p)) && !HasTerminator(st.rest)
    ensures var d := Drain(st.rest + chunk); InStep(Split(st.lines + d.lines, d.rest), Scan(p + chunk))
  {
    var r, d := Scan(p), Drain(st.rest + chunk);
    DrainBehind(st.rest, chunk);
    ScanBehind(p, chunk);
    KeptConcat(Same, st.lines, d.lines);
    KeptConcat(Same, r.lines, d.lines);
    assert st.lines + [] == st.lines && r.lines + [] == r.lines;
  }

  /** The rest of a long line goes on in blanks. */
  lemma DrainFlushedOn(st: Split, p: Line, chunk: Line)
    requires Flushed(st, Scan(p)) && !HasTerminator(st.rest) && Scan(chunk).lines == [] && BlankTails(p + chunk)
    ensures var d := Drain(st.rest + chunk); Flushed(Split(st.lines + d.lines, d.rest), Scan(p + chunk))
  {
    var r, c := Scan(p), Scan(chunk);
    DrainBehind(st.rest, chunk);
    ScanBehind(p, chunk);
    BlankSuffix(r.rest, c.rest);
    BlankAppend(st.rest, c.rest);
    CleanedOfBlanks(r.rest, c.rest);
    KeptSnoc(r.lines, r.rest);
    KeptSnoc(r.lines, r.rest + c.rest);
    KeptOne(Same, r.rest);
    KeptOne(Same, r.rest + c.rest);
    assert st.lines + [] == st.lines;
  }

  lemma KeptAround(lines: seq<Line>, mid: seq<Line>, others: seq<Line>)
    ensures Kept(Same, lines + (mid + others)) == Kept(Same, lines) + (Kept(Same, mid) + Kept(Same, others))
  {
    KeptConcat(Same, lines, mid + others);
    KeptConcat(Same, mid, others);
  }

  lemma KeptOneEquals(l: Line, m: Line)
    requires Cleaned(Same, l) == Cleaned(Same, m)
    ensures Kept(Same, [l]) == Kept(Same, [m])
  {
    KeptOne(Same, l);
    KeptOne(Same, m);
  }

  lemma KeptBlank(l: Line)
    requires BlankFrom(l, 0)
    ensures Kept(Same, [l]) == []
  {
    CleanedOfBlanks([], l);
    KeptOne(Same, l);
  }

  lemma Rejoined<T>(h: seq<T>, k: seq<T>, l: seq<T>, o: seq<T>)
    requires h == k + l
    ensures h + ([] + o) == k + (l + o)
  {
  }

  /** What a long line published in its first piece is what it publishes as a whole. */
  lemma LongLineKept(handed: seq<Line>, lines: seq<Line>, line: Line, last: Line, blank: Line, others: seq<Line>)
    requires Kept(Same, handed) == Kept(Same, lines + [line]) && BlankFrom(last, 0) && BlankFrom(blank, 0)
    ensures Kept(Same, handed + ([blank] + others)) == Kept(Same, lines + ([line + last] + others))
  {
    KeptBlank(blank);
    CleanedOfBlanks(line, last);
    KeptOneEquals(line + last, line);
    KeptAround(handed, [blank], others);
    KeptAround(lines, [line + last], others);
    KeptSnoc(lines, line);
    Rejoined(Kept(Same, handed), Kept(Same, lines), Kept(Same, [line]), Kept(Same, others));
  }

  lemma BlankSuffix(line: Line, last: Line)
    requires |line| >= FLUSHED && BlankFrom(line + last, FLUSHED)
    ensures BlankFrom(last, 0)
  {
    forall i | 0 <= i < |last|
      ensures IsBlank(last[i])
    {
      assert (line + last)[|line| + i] == last[i];
    }
  }

  lemma BlankAppend(a: Line, b: Line)
    requires BlankFrom(a, 0) && BlankFrom(b, 0)
    ensures BlankFrom(a + b, 0)
  {
  }

  /** A long line ends in blanks, and others follow. */
  lemma DrainFlushedEnd(st: Split, p: Line, chunk: Line)
    requires Flushed(st, Scan(p)) && !HasTerminator(st.rest) && Scan(chunk).lines != [] && BlankTails(p + chunk)
    ensures var d := Drain(st.rest + chunk); InStep(Split(st.lines + d.lines, d.rest), Scan(p + chunk))
  {
    var r, c := Scan(p), Scan(chunk);
    var first, others := c.lines[0], c.lines[1..];
    var whole := r.rest + first;
    DrainBehind(st.rest, chunk);
    ScanBehind(p, chunk);
    InMiddle(r.lines, whole, others);
    BlankSuffix(r.rest, first);
    BlankAppend(st.rest, first);
    LongLineKept(st.lines, r.lines, r.rest, first, st.rest + first, others);
  }

  lemma InMiddle<T>(a: seq<T>, x: T, b: seq<T>)
    ensures x in a + ([x] + b)
  {
    assert (a + ([x] + b))[|a|] == x;
  }

  lemma FeedFollows(st: Split, p: Line, chunk: Line)
    requires Follows(st, Scan(p)) && !HasTerminator(st.rest) && BlankTails(p + chunk)
    ensures Follows(Feed(st, chunk), Scan(p + chunk))
  {
    var d := Drain(st.rest + chunk);
    var drained, r := Split(st.lines + d.lines, d.rest), Scan(p + chunk);
    FeedIsFlush(st, chunk);
    if InStep(st, Scan(p)) {
      DrainInStep(st, p, chunk);
      FlushInStep(drained, r);
    } else if Scan(chunk).lines == [] {
      DrainFlushedOn(st, p, chunk);
      FlushFlushed(drained, r);
    } else {
      DrainFlushedEnd(st, p, chunk);
      FlushInStep(drained, r);
    }
  }

  lemma {:induction false} FeedAllFollows(chunks: seq<Line>)
    requires BlankTails(Concat(chunks))
    ensures var st := FeedAll(Split([], []), chunks); Follows(st, Scan(Concat(chunks))) && !HasTerminator(st.rest)
  {
    if chunks != [] {
      var n := |chunks| - 1;
      var st := FeedAll(Split([], []), chunks[..n]);
      BlankTailsPrefix(Concat(chunks[..n]), chunks[n]);
      FeedAllFollows(chunks[..n]);
      FeedFollows(st, Concat(chunks[..n]), chunks[n]);
      BufferBounded(st, chunks[n]);
    }
  }

  /** With blank tails every cutting publishes what the stream's lines publish. */
  lemma BlankTailsPublishSame(chunks: seq<Line>)
    requires BlankTails(Concat(chunks))
    ensures Kept(Same, Handed(chunks)) == Kept(Same, LinesOf(Concat(chunks)))
  {
    var st, r := FeedAll(Split([], []), chunks), Scan(Concat(chunks));
    FeedAllFollows(chunks);
    KeptConcat(Same, st.lines, Trailing(st.rest));
    KeptConcat(Same, r.lines, Trailing(r.rest));
    KeptOne(Same, st.rest);
    KeptOne(Same, r.rest);
    KeptConcat(Same, r.lines, [r.rest]);
    if Flushed(st, r) {
      CleanedOfBlanks([], st.rest);
    }
  }

  // ----- a cutting that shows -----

  /** The first byte after 2001 of its line that is not blank. */
  lemma {:induction false} FirstVisibleByte(s: Line) returns (p: Line, q: Line)
    requires !BlankTails(s)
    ensures p + q == s && q != [] && |Scan(p).rest| >= FLUSHED && !IsBlank(q[0]) && !IsTerminator(q[0])
  {
    assert s != [];
    var n := |s| - 1;
    var before, last := s[..n], s[n];
    if !BlankTails(before) {
      p, q := FirstVisibleByte(before);
      q := q + [last];
      assert p + q == before + [last] == s;
    } else {
      p, q := before, [last];
      LastByteShows(before, last);
      assert p + q == s;
    }
  }

  lemma LastByteShows(before: Line, last: Byte)
    requires BlankTails(before) && !BlankTails(before + [last])
    ensures |Scan(before).rest| >= FLUSHED && !IsBlank(last) && !IsTerminator(last)
  {
    assert (before + [last])[..|before|] == before;
  }

  /** A stream that begins inside a line: its first line, and the others. */
  lemma {:induction false} FirstLineOf(q: Line) returns (first: Line, others: seq<Line>)
    requires q != [] && !IsTerminator(q[0])
    ensures LinesOf(q) == [first] + others && first != [] && first[0] == q[0]
    ensures forall p :: LinesOf(p + q) == Scan(p).lines + ([Scan(p).rest + first] + others)
  {
    var c := Scan(q);
    FirstByte(q);
    if c.lines == [] {
      first, others := c.rest, [];
    } else {
      first, others := c.lines[0], c.lines[1..] + Trailing(c.rest);
      assert c.lines == [first] + c.lines[1..];
    }
    forall p
      ensures LinesOf(p + q) == Scan(p).lines + ([Scan(p).rest + first] + others)
    {
      ScanBehind(p, q);
      var r := Scan(p);
      if c.lines != [] {
        assert r.lines + ([r.rest + first] + c.lines[1..]) + Trailing(c.rest) == r.lines + ([r.rest + first] + others);
      }
    }
  }

  lemma {:induction false} FirstByte(q: Line)
    requires q != [] && !IsTerminator(q[0])
    ensures var c := Scan(q); var first := if c.lines == [] then c.rest else c.lines[0]; first != [] && first[0] == q[0]
  {
    if |q| > 1 {
      FirstByte(q[..|q| - 1]);
    } else {
      assert q[..0] == [] && Scan([]) == Split([], []);
    }
  }

  lemma Regroup<T>(a: seq<T>, x: T, c: seq<T>, t: seq<T>)
    ensures a + [x] + c + t == a + ([x] + (c + t))
  {
  }

  /** A flushed rest is handed over where Close would hand it over. */
  lemma FinishOfFlush(st: Split)
    ensures Finish(Flush(st)) == st.lines + Trailing(st.rest)
  {
    assert st.lines + [st.rest] + [] == st.lines + [st.rest];
  }

  /** The two pieces of the line are handed over one after the other. */
  lemma HandedAtCut(p: Line, q: Line)
    requires q != [] && |Scan(p).rest| >= FLUSHED
    ensures Handed([p, q]) == Scan(p).lines + ([Scan(p).rest] + LinesOf(q))
  {
    var r, c := Scan(p), Scan(q);
    HandedInTwo(p, q);
    FeedFresh([], p);
    assert [] + r.lines == r.lines;
    FeedFresh(r.lines + [r.rest], q);
    FinishOfFlush(Split(r.lines + [r.rest] + c.lines, c.rest));
    Regroup(r.lines, r.rest, c.lines, Trailing(c.rest));
  }

  /** The pieces of a cut line publish something else than the line. */
  lemma PiecesShow(line: Line, rest: Line)
    requires line != [] && rest != [] && !IsBlank(rest[0])
    ensures Kept(Same, [line] + [rest]) != Kept(Same, [line + rest])
  {
    var whole := line + rest;
    assert whole[|line|] == rest[0];
    CleanedOfContent(whole, |line|);
    CleanedOfContent(rest, 0);
    KeptConcat(Same, [line], [rest]);
    KeptOne(Same, line);
    KeptOne(Same, rest);
    KeptOne(Same, whole);
    if Cleaned(Same, line) == [] {
      if !IsBlank(line[0]) {
        CleanedOfContent(line, 0);
      }
      assert Cleaned(Same, whole)[0] == line[0] && Cleaned(Same, rest)[0] == rest[0];
    }
  }

  lemma KeptCut(lines: seq<Line>, line: Line, rest: Line, others: seq<Line>)
    ensures Kept(Same, lines + ([line] + ([rest] + others))) ==
            Kept(Same, lines) + (Kept(Same, [line] + [rest]) + Kept(Same, others))
  {
    assert [line] + ([rest] + others) == ([line] + [rest]) + others;
    KeptAround(lines, [line] + [rest], others);
  }

  lemma EndsDiffer<T>(a: seq<T>, x: seq<T>, y: seq<T>, b: seq<T>)
    requires x != y
    ensures a + (x + b) != a + (y + b)
  {
    if a + (x + b) == a + (y + b) {
      CancelEnds(a, x, y, b);
    }
  }

  lemma CutPiecesShow(lines: seq<Line>, line: Line, rest: Line, others: seq<Line>)
    requires line != [] && rest != [] && !IsBlank(rest[0])
    ensures Kept(Same, lines + ([line] + ([rest] + others))) != Kept(Same, lines + ([line + rest] + others))
  {
    PiecesShow(line, rest);
    KeptCut(lines, line, rest, others);
    KeptAround(lines, [line + rest], others);
    EndsDiffer(Kept(Same, lines), Kept(Same, [line] + [rest]), Kept(Same, [line + rest]), Kept(Same, others));
  }

  lemma CutShows(p: Line, q: Line)
    requires q != [] && |Scan(p).rest| >= FLUSHED && !IsBlank(q[0]) && !IsTerminator(q[0])
    ensures Concat([p, q]) == p + q
    ensures Kept(Same, Handed([p, q])) != Kept(Same, LinesOf(p + q))
  {
    HandedInTwo(p, q);
    HandedAtCut(p, q);
    var first, others := FirstLineOf(q);
    CutPiecesShow(Scan(p).lines, Scan(p).rest, first, others);
  }

  lemma CancelEnds<T>(a: seq<T>, x: seq<T>, y: seq<T>, b: seq<T>)
    requires a + (x + b) == a + (y + b)
    ensures x == y
  {
    assert (a + (x + b))[|a|..] == x + b && (a + (y + b))[|a|..] == y + b;
    assert |x| == |y|;
    assert (x + b)[..|x|] == x && (y + b)[..|y|] == y;
  }

  // ----- escape sequences -----

  lemma {:induction false} BytesOfContent(s: Line, l: seq<Line>)
    requires EscapeFree(s) && Concat(l) == Content(s)
    ensures forall x :: x in l ==> EscapeFree(x)
  {
    ContentEscapeFree(s);
    PartsEscapeFree(l);
  }

  lemma {:induction false} ContentEscapeFree(s: Line)
    requires EscapeFree(s)
    ensures EscapeFree(Content(s))
  {
    if s != [] {
      ContentEscapeFree(s[..|s| - 1]);
    }
  }

  lemma {:induction false} PartsEscapeFree(parts: seq<Line>)
    requires EscapeFree(Concat(parts))
    ensures forall x :: x in parts ==> EscapeFree(x)
  {
    if parts != [] {
      var n := |parts| - 1;
      var whole := Concat(parts);
      assert whole == Concat(parts[..n]) + parts[n];
      assert forall i :: 0 <= i < |Concat(parts[..n])| ==> Concat(parts[..n])[i] == whole[i];
      assert forall i :: 0 <= i < |parts[n]| ==> parts[n][i] == whole[|Concat(parts[..n])| + i];
      PartsEscapeFree(parts[..n]);
      assert parts == parts[..n] + [parts[n]];
    }
  }

  lemma {:induction false} KeptPlainText(strip: Line -> Line, handed: seq<Line>)
    requires LeavesPlainText(strip) && forall x :: x in handed ==> EscapeFree(x)
    ensures Kept(strip, handed) == Kept(Same, handed)
  {
    if handed != [] {
      var n := |handed| - 1;
      assert handed[n] in handed;
      KeptPlainText(strip, handed[..n]);
    }
  }

  lemma LinesKeepContent(s: Line)
    ensures Concat(LinesOf(s)) == Content(s)
  {
    var r := Scan(s);
    ScanKeepsContent(s);
    ConcatAppend(r.lines, Trailing(r.rest));
    assert Concat([r.rest]) == r.rest;
  }

  // ----- the published log -----

  ghost predicate CutsDoNotShow(strip: Line -> Line, s: Line) {
    forall chunks: seq<Line> :: Concat(chunks) == s ==> Kept(strip, Handed(chunks)) == Kept(strip, LinesOf(s))
  }

  lemma PlainTextKept(strip: Line -> Line, chunks: seq<Line>)
    requires LeavesPlainText(strip) && EscapeFree(Concat(chunks))
    ensures Kept(strip, Handed(chunks)) == Kept(Same, Handed(chunks))
    ensures Kept(strip, LinesOf(Concat(chunks))) == Kept(Same, LinesOf(Concat(chunks)))
  {
    var s := Concat(chunks);
    HandedKeepsContent(chunks);
    LinesKeepContent(s);
    BytesOfContent(s, Handed(chunks));
    BytesOfContent(s, LinesOf(s));
    KeptPlainText(strip, Handed(chunks));
    KeptPlainText(strip, LinesOf(s));
  }

  /**
    The log of a text without escape sequences is the same for all ways of cutting it, if and only if
    no line of it has anything but spaces and tabs after its first 2001 bytes.
    */
  lemma CutsDoNotShowIff(strip: Line -> Line, s: Line)
    requires LeavesPlainText(strip) && EscapeFree(s)
    ensures CutsDoNotShow(strip, s) <==> BlankTails(s)
  {
    if BlankTails(s) {
      forall chunks: seq<Line> | Concat(chunks) == s
        ensures Kept(strip, Handed(chunks)) == Kept(strip, LinesOf(s))
      {
        PlainTextKept(strip, chunks);
        BlankTailsPublishSame(chunks);
      }
    } else {
      var p, q := FirstVisibleByte(s);
      CutShows(p, q);
      PlainTextKept(strip, [p, q]);
    }
  }

  /** For example 2001 bytes and then "x" and a newline, written in two pieces. */
  lemma LongLineShows()
    ensures var long := Repeat(120, FLUSHED);
            Kept(Same, Handed([long, [120, LF]])) != Kept(Same, LinesOf(long + [120, LF]))
  {
    RepeatIsOneLine(120, FLUSHED);
    CutShows(Repeat(120, FLUSHED), [120, LF]);
  }

  // ----- whole runs -----

  /** Plain output: no escapes, and lines of at most 2000 bytes that do not end in a space or tab. */
  predicate IsPlainOutput(s: Line) {
    EscapeFree(s) && forall l :: l in LinesOf(s) ==> |l| <= 2000 && EndsVisibly(l)
  }

  lemma PlainOutputIsBounded(s: Line)
    requires IsPlainOutput(s)
    ensures Bounded(s)
  {
    var r := Scan(s);
    forall l | l in r.lines
      ensures |l| <= MAX_JOB_LOG_LINE_LENGTH
    {
      assert l in LinesOf(s);
    }
    if r.rest != [] {
      assert r.rest in Trailing(r.rest);
      assert r.rest in LinesOf(s);
    }
  }

  /** Plain output is published line by line as it is, whatever the cuts; empty lines are left out. */
  lemma PlainOutputIsKept(strip: Line -> Line, chunks: seq<Line>)
    requires LeavesPlainText(strip) && IsPlainOutput(Concat(chunks))
    ensures Kept(strip, Handed(chunks)) == NonEmpty(LinesOf(Concat(chunks)))
  {
    var s := Concat(chunks);
    PlainOutputIsBounded(s);
    ChunkIndependence(s);
    LinesKeepContent(s);
    BytesOfContent(s, LinesOf(s));
    ShortLinesAreKept(strip, LinesOf(s));
  }

  /** A whole run: any chunks, then Close. */
  method RunWriter(userID: string, strip: Line -> Line, redis: RedisJobLog, chunks: seq<Line>)
    requires redis.list == [] && redis.published == []
    modifies redis
    ensures redis.published == Numbered(userID, Kept(strip, Handed(chunks)))
    ensures redis.list == LastN(redis.published, MAX_JOB_LOG_LINES)
    ensures Bounded(Concat(chunks)) ==> redis.published == Numbered(userID, Kept(strip, LinesOf(Concat(chunks))))
    ensures LeavesPlainText(strip) && IsPlainOutput(Concat(chunks)) ==>
              var lines := NonEmpty(LinesOf(Concat(chunks)));
              && |redis.published| == |lines|
              && forall i :: 0 <= i < |lines| ==> redis.published[i] == LogMessage(userID, i + 1, lines[i])
  {
    var w := new JobLogWriter(userID, strip, redis);
    for i := 0 to |chunks|
      invariant w.Valid() && w.redis == redis && w.strip == strip && w.userID == userID
      invariant fresh(w)
      invariant w.State() == FeedAll(Split([], []), chunks[..i])
    {
      assert chunks[..i + 1][..i] == chunks[..i];
      var _ := w.Write(chunks[i]);
    }
    assert chunks[..|chunks|] == chunks;
    w.Close();
    ChunkIndependence(Concat(chunks));
    if LeavesPlainText(strip) && IsPlainOutput(Concat(chunks)) {
      PlainOutputIsKept(strip, chunks);
    }
  }
}
