/**
  How cmd/api/build_log.go cuts the bytes of a build's output into lines.

  `Scan` is the reference: it reads the stream one byte at a time and never looks ahead.
  `Drain`, `Feed` and `Finish` are the pure form of jobLogWriter.Write and Close, which work on
  whatever chunks a command happens to write.  The lemmas say when the two agree.
  */
module LogSplitter {

  newtype Byte = x: int | 0 <= x < 256

  type Line = seq<Byte>

  const CR: Byte := 13
  const LF: Byte := 10
  const MAX_JOB_LOG_LINE_LENGTH: nat := 2000

  /** Lines handed to publishLocked so far, and the bytes still buffered. */
  datatype Split = Split(lines: seq<Line>, rest: Line)

  predicate IsTerminator(b: Byte) {
    b == CR || b == LF
  }

  predicate HasTerminator(s: Line) {
    exists i :: 0 <= i < |s| && IsTerminator(s[i])
  }

  /** strings.IndexAny(s, "\r\n"), or -1. */
  function IndexTerminator(s: Line): (i: int)
    ensures i == -1 <==> !HasTerminator(s)
    ensures i != -1 ==> 0 <= i < |s| && IsTerminator(s[i]) && !HasTerminator(s[..i])
  {
    if s == [] then -1
    else if IsTerminator(s[0]) then 0
    else
      var i := IndexTerminator(s[1..]);
      assert s == [s[0]] + s[1..];
      if i == -1 then -1
      else
        assert s[..i + 1] == [s[0]] + s[1..][..i];
        i + 1
  }

  /** The reference: a terminator closes the current line, any other byte extends it. */
  function Scan(s: Line): Split {
    if s == [] then Split([], [])
    else
      var before := Scan(s[..|s| - 1]);
      var b := s[|s| - 1];
      if IsTerminator(b) then Split(before.lines + [before.rest], [])
      else Split(before.lines, before.rest + [b])
  }

  /** The lines of a whole stream; a trailing partial line counts only when it is not empty. */
  function LinesOf(s: Line): seq<Line> {
    Scan(s).lines + Trailing(Scan(s).rest)
  }

  function Trailing(rest: Line): seq<Line> {
    if rest == [] then [] else [rest]
  }

  // ----- the writer, as functions -----

  /** The loop of Write: hand over every complete line, keep the remainder. */
  function Drain(buf: Line): Split
    decreases |buf|
  {
    var i := IndexTerminator(buf);
    if i == -1 then Split([], buf)
    else
      var tail := Drain(buf[i + 1..]);
      Split([buf[..i]] + tail.lines, tail.rest)
  }

  /** One Write call, including the flush of an over-long partial line. */
  function Feed(st: Split, chunk: Line): Split {
    var d := Drain(st.rest + chunk);
    if |d.rest| > MAX_JOB_LOG_LINE_LENGTH then Split(st.lines + d.lines + [d.rest], [])
    else Split(st.lines + d.lines, d.rest)
  }

  function FeedAll(st: Split, chunks: seq<Line>): Split {
    if chunks == [] then st else Feed(FeedAll(st, chunks[..|chunks| - 1]), chunks[|chunks| - 1])
  }

  /** Close: the trailing partial line is handed over too. */
  function Finish(st: Split): seq<Line> {
    st.lines + Trailing(st.rest)
  }

  /** Everything handed to publishLocked by a run of Write calls followed by Close. */
  function Handed(chunks: seq<Line>): seq<Line> {
    Finish(FeedAll(Split([], []), chunks))
  }

  function Concat(parts: seq<Line>): Line {
    if parts == [] then [] else Concat(parts[..|parts| - 1]) + parts[|parts| - 1]
  }

  /** The bytes that belong to lines: everything but CR and LF. */
  function Content(s: Line): Line {
    if s == [] then []
    else Content(s[..|s| - 1]) + (if IsTerminator(s[|s| - 1]) then [] else [s[|s| - 1]])
  }

  // ----- facts about the reference -----

  lemma {:induction false} ScanConcat(p: Line, q: Line)
    ensures |Scan(p + q).lines| == |Scan(p).lines| + |Scan(q).lines|
    ensures Scan(q).lines == [] ==>
              Scan(p + q) == Split(Scan(p).lines, Scan(p).rest + Scan(q).rest)
    ensures Scan(q).lines != [] ==>
              Scan(p + q) == Split(Scan(p).lines + [Scan(p).rest + Scan(q).lines[0]] + Scan(q).lines[1..],
                                   Scan(q).rest)
  {
    if q == [] {
      assert p + q == p;
    } else {
      var q', b := q[..|q| - 1], q[|q| - 1];
      ScanConcat(p, q');
      assert (p + q)[..|p + q| - 1] == p + q';
    }
  }

  lemma {:induction false} ScanOfUnterminated(s: Line)
    requires !HasTerminator(s)
    ensures Scan(s) == Split([], s)
  {
    if s != [] {
      var s' := s[..|s| - 1];
      assert !HasTerminator(s') by {
        assert forall i :: 0 <= i < |s'| ==> s'[i] == s[i];
      }
      ScanOfUnterminated(s');
    }
  }

  lemma {:induction false} ScanRestIsUnterminated(s: Line)
    ensures !HasTerminator(Scan(s).rest)
    ensures forall l :: l in Scan(s).lines ==> !HasTerminator(l)
  {
    if s != [] {
      ScanRestIsUnterminated(s[..|s| - 1]);
    }
  }

  lemma ScanOfOneLine(s: Line)
    requires s != [] && IsTerminator(s[|s| - 1]) && !HasTerminator(s[..|s| - 1])
    ensures Scan(s) == Split([s[..|s| - 1]], [])
  {
    ScanOfUnterminated(s[..|s| - 1]);
  }

  /** Rescanning from the buffered rest gives the lines the whole stream adds. */
  lemma {:induction false} ScanResumes(p: Line, chunk: Line)
    ensures var d := Scan(Scan(p).rest + chunk);
            Scan(p + chunk) == Split(Scan(p).lines + d.lines, d.rest)
  {
    var rest := Scan(p).rest;
    if chunk == [] {
      ScanRestIsUnterminated(p);
      ScanOfUnterminated(rest);
      assert p + chunk == p && rest + chunk == rest;
    } else {
      var c, b := chunk[..|chunk| - 1], chunk[|chunk| - 1];
      ScanResumes(p, c);
      assert (p + chunk)[..|p + chunk| - 1] == p + c;
      assert (rest + chunk)[..|rest + chunk| - 1] == rest + c;
      var d := Scan(rest + c);
      assert Scan(p).lines + (d.lines + [d.rest]) == (Scan(p).lines + d.lines) + [d.rest];
    }
  }

  lemma ScanLineThen(head: Line, tail: Line)
    requires head != [] && IsTerminator(head[|head| - 1]) && !HasTerminator(head[..|head| - 1])
    ensures Scan(head + tail) == Split([head[..|head| - 1]] + Scan(tail).lines, Scan(tail).rest)
  {
    ScanOfOneLine(head);
    ScanResumes(head, tail);
    assert [] + tail == tail;
  }

  lemma CutAfter(s: Line, i: nat)
    requires i < |s|
    ensures s == s[..i + 1] + s[i + 1..] && s[..i + 1] != []
    ensures s[..i + 1][|s[..i + 1]| - 1] == s[i] && s[..i + 1][..|s[..i + 1]| - 1] == s[..i]
  {
  }

  /** Lookahead for the first terminator finds the same lines as reading byte by byte. */
  lemma {:induction false} DrainIsScan(s: Line)
    ensures Drain(s) == Scan(s)
    decreases |s|
  {
    var i := IndexTerminator(s);
    if i == -1 {
      ScanOfUnterminated(s);
    } else {
      CutAfter(s, i);
      DrainIsScan(s[i + 1..]);
      ScanLineThen(s[..i + 1], s[i + 1..]);
    }
  }

  // ----- what holds however the stream is cut -----

  /** After every Write the buffer is bounded and holds no complete line. */
  lemma BufferBounded(st: Split, chunk: Line)
    ensures |Feed(st, chunk).rest| <= MAX_JOB_LOG_LINE_LENGTH
    ensures !HasTerminator(Feed(st, chunk).rest)
  {
    DrainIsScan(st.rest + chunk);
    ScanRestIsUnterminated(st.rest + chunk);
  }

  lemma {:induction false} ConcatAppend(a: seq<Line>, b: seq<Line>)
    ensures Concat(a + b) == Concat(a) + Concat(b)
  {
    if b == [] {
      assert a + b == a;
    } else {
      assert (a + b)[..|a + b| - 1] == a + b[..|b| - 1];
      ConcatAppend(a, b[..|b| - 1]);
    }
  }

  lemma {:induction false} ContentAppend(a: Line, b: Line)
    ensures Content(a + b) == Content(a) + Content(b)
  {
    if b == [] {
      assert a + b == a;
    } else {
      assert (a + b)[..|a + b| - 1] == a + b[..|b| - 1];
      ContentAppend(a, b[..|b| - 1]);
    }
  }

  lemma {:induction false} ContentOfUnterminated(s: Line)
    requires !HasTerminator(s)
    ensures Content(s) == s
  {
    if s != [] {
      assert forall i :: 0 <= i < |s[..|s| - 1]| ==> s[..|s| - 1][i] == s[i];
      ContentOfUnterminated(s[..|s| - 1]);
    }
  }

  lemma {:induction false} ScanKeepsContent(s: Line)
    ensures Concat(Scan(s).lines) + Scan(s).rest == Content(s)
  {
    if s != [] {
      var s' := s[..|s| - 1];
      ScanKeepsContent(s');
      ConcatAppend(Scan(s').lines, [Scan(s').rest]);
      assert Concat([Scan(s').rest]) == Scan(s').rest;
    }
  }

  /** Drain moves bytes from the buffer to the lines without changing them. */
  lemma DrainKeepsContent(rest: Line, chunk: Line)
    requires !HasTerminator(rest)
    ensures var d := Drain(rest + chunk); Concat(d.lines) + d.rest == rest + Content(chunk)
  {
    DrainIsScan(rest + chunk);
    ScanKeepsContent(rest + chunk);
    ContentAppend(rest, chunk);
    ContentOfUnterminated(rest);
  }

  lemma ConcatThree(a: seq<Line>, b: seq<Line>, last: Line)
    ensures Concat(a + b) + last == Concat(a) + (Concat(b) + last)
    ensures Concat(a + b + [last]) == Concat(a) + (Concat(b) + last)
  {
    ConcatAppend(a, b);
    assert (a + b + [last])[..|a + b|] == a + b;
    assert Concat(a + b + [last]) == Concat(a + b) + last;
  }

  lemma FeedKeepsContent(st: Split, chunk: Line)
    requires !HasTerminator(st.rest)
    ensures var st' := Feed(st, chunk);
            Concat(st'.lines) + st'.rest == Concat(st.lines) + (st.rest + Content(chunk))
  {
    var d := Drain(st.rest + chunk);
    DrainKeepsContent(st.rest, chunk);
    ConcatThree(st.lines, d.lines, d.rest);
  }

  lemma {:induction false} FeedAllKeepsContent(chunks: seq<Line>)
    ensures var st := FeedAll(Split([], []), chunks);
            !HasTerminator(st.rest) && Concat(st.lines) + st.rest == Content(Concat(chunks))
  {
    if chunks != [] {
      var before, chunk := chunks[..|chunks| - 1], chunks[|chunks| - 1];
      var st := FeedAll(Split([], []), before);
      FeedAllKeepsContent(before);
      BufferBounded(st, chunk);
      FeedKeepsContent(st, chunk);
      ContentAppend(Concat(before), chunk);
      assert Concat(st.lines) + (st.rest + Content(chunk)) == (Concat(st.lines) + st.rest) + Content(chunk);
    }
  }

  /** No byte of any line is lost, duplicated or reordered before publishLocked, whatever the chunks. */
  lemma HandedKeepsContent(chunks: seq<Line>)
    ensures Concat(Handed(chunks)) == Content(Concat(chunks))
  {
    var st := FeedAll(Split([], []), chunks);
    FeedAllKeepsContent(chunks);
    ConcatAppend(st.lines, Trailing(st.rest));
    assert Concat([st.rest]) == st.rest;
  }

  // ----- exactly when the chunks do not matter -----

  /**
    The exact bound.  A terminated line may have 2000 bytes; a trailing partial line may have 2001,
    because nothing follows the flush that would tell the two apart.
    */
  predicate Bounded(s: Line) {
    && (forall l :: l in Scan(s).lines ==> |l| <= MAX_JOB_LOG_LINE_LENGTH)
    && |Scan(s).rest| <= MAX_JOB_LOG_LINE_LENGTH + 1
  }

  /** Past 2000 buffered bytes a bounded stream must already be at its end. */
  lemma BoundedEndsAtFlush(p: Line, q: Line)
    requires |Scan(p).rest| > MAX_JOB_LOG_LINE_LENGTH && q != []
    ensures !Bounded(p + q)
  {
    ScanConcat(p, q);
    if Scan(q).lines == [] {
      ScanNonEmpty(q);
    } else {
      var long := Scan(p).rest + Scan(q).lines[0];
      assert Scan(p + q).lines[|Scan(p).lines|] == long;
    }
  }

  lemma ScanNonEmpty(q: Line)
    requires q != [] && Scan(q).lines == []
    ensures Scan(q).rest != []
  {
  }

  /** A Write that starts in the reference's state ends there too, or flushes at the very end. */
  lemma FeedFollowsScan(p: Line, chunk: Line)
    ensures var st := Feed(Scan(p), chunk); var r := Scan(p + chunk);
            st == if |r.rest| > MAX_JOB_LOG_LINE_LENGTH then Split(r.lines + [r.rest], []) else r
  {
    DrainIsScan(Scan(p).rest + chunk);
    ScanResumes(p, chunk);
  }

  /** On a bounded stream the state after any prefix of the chunks is the reference's. */
  lemma {:induction false} FeedAllFollowsScan(chunks: seq<Line>, later: Line)
    requires Bounded(Concat(chunks) + later)
    ensures var st := FeedAll(Split([], []), chunks); var r := Scan(Concat(chunks));
            || st == r
            || (later == [] && st == Split(r.lines + [r.rest], []) && r.rest != [])
  {
    if chunks != [] {
      var before, chunk := chunks[..|chunks| - 1], chunks[|chunks| - 1];
      var st := FeedAll(Split([], []), before);
      var p := Concat(before);
      assert p + (chunk + later) == Concat(chunks) + later;
      FeedAllFollowsScan(before, chunk + later);
      if st == Scan(p) {
        FeedFollowsScan(p, chunk);
        if |Scan(p + chunk).rest| > MAX_JOB_LOG_LINE_LENGTH && later != [] {
          BoundedEndsAtFlush(p + chunk, later);
        }
      } else {
        assert chunk == [] && later == [];
        assert p + chunk == p;
        FeedNothing(st);
      }
    }
  }

  lemma FeedNothing(st: Split)
    requires st.rest == []
    ensures Feed(st, []) == st
  {
    assert Drain([]) == Split([], []);
  }

  /** An over-long line has a prefix that is flushed too early. */
  lemma {:induction false} EarlyFlushPoint(s: Line) returns (p: Line, q: Line)
    requires !Bounded(s)
    ensures p + q == s && q != [] && |Scan(p).rest| == MAX_JOB_LOG_LINE_LENGTH + 1
  {
    assert s != [];
    var s' := s[..|s| - 1];
    if !Bounded(s') {
      p, q := EarlyFlushPoint(s');
      q := q + [s[|s| - 1]];
      assert p + q == s' + [s[|s| - 1]] == s;
    } else {
      p, q := s', [s[|s| - 1]];
    }
  }

  lemma HandedInTwo(p: Line, q: Line)
    ensures Concat([p, q]) == p + q
    ensures Handed([p, q]) == Finish(Feed(Feed(Split([], []), p), q))
  {
    assert [p, q][..1] == [p];
    assert [p][..0] == [];
    assert Concat([p]) == p;
    assert FeedAll(Split([], []), [p]) == Feed(Split([], []), p);
  }

  /** A Write into an empty buffer adds the lines of its chunk, and flushes an over-long rest. */
  lemma FeedFresh(lines: seq<Line>, chunk: Line)
    ensures var r := Scan(chunk);
            Feed(Split(lines, []), chunk) ==
              if |r.rest| > MAX_JOB_LOG_LINE_LENGTH then Split(lines + r.lines + [r.rest], [])
              else Split(lines + r.lines, r.rest)
  {
    assert [] + chunk == chunk;
    DrainIsScan(chunk);
  }

  /** Cutting right there yields one line more than the stream has. */
  lemma EarlyFlushAddsLine(p: Line, q: Line)
    requires q != [] && |Scan(p).rest| == MAX_JOB_LOG_LINE_LENGTH + 1
    ensures Concat([p, q]) == p + q
    ensures |Handed([p, q])| == |LinesOf(p + q)| + 1
  {
    HandedInTwo(p, q);
    FeedFresh([], p);
    FeedFresh([] + Scan(p).lines + [Scan(p).rest], q);
    ScanConcat(p, q);
    if Scan(q).lines == [] {
      ScanNonEmpty(q);
    }
  }

  ghost predicate ChunksDoNotMatter(s: Line) {
    forall chunks: seq<Line> :: Concat(chunks) == s ==> Handed(chunks) == LinesOf(s)
  }

  /** Chunk independence, with the exact condition on the stream. */
  lemma ChunkIndependence(s: Line)
    ensures ChunksDoNotMatter(s) <==> Bounded(s)
  {
    if Bounded(s) {
      forall chunks: seq<Line> | Concat(chunks) == s
        ensures Handed(chunks) == LinesOf(s)
      {
        assert s + [] == s;
        FeedAllFollowsScan(chunks, []);
      }
    } else {
      var p, q := EarlyFlushPoint(s);
      EarlyFlushAddsLine(p, q);
    }
  }

  function Repeat(b: Byte, n: nat): Line {
    seq(n, _ => b)
  }

  lemma {:induction false} RepeatIsOneLine(b: Byte, n: nat)
    requires !IsTerminator(b)
    ensures Scan(Repeat(b, n)) == Split([], Repeat(b, n))
  {
    assert !HasTerminator(Repeat(b, n));
    ScanOfUnterminated(Repeat(b, n));
  }

  /** A line of 2001 bytes written in one piece ends in an empty line if its newline comes separately. */
  lemma LongLineIsCut()
    ensures var long := Repeat(120, MAX_JOB_LOG_LINE_LENGTH + 1);
            |Handed([long, [LF]])| == 2 && |LinesOf(long + [LF])| == 1
  {
    var long := Repeat(120, MAX_JOB_LOG_LINE_LENGTH + 1);
    RepeatIsOneLine(120, MAX_JOB_LOG_LINE_LENGTH + 1);
    EarlyFlushAddsLine(long, [LF]);
    assert (long + [LF])[..|long|] == long;
  }

  // ----- lines, by their bytes -----

  /** Neither carriage return nor line feed. */
  predicate OnOneLine(l: Line) {
    forall i :: 0 <= i < |l| ==> l[i] != 13 && l[i] != 10
  }

  /** A stream is its text up to the first CR or LF, and the lines of what follows; without one it is a single line. */
  lemma LinesOfStream(l: Line, b: Byte, rest: Line)
    requires OnOneLine(l)
    ensures LinesOf(l) == if l == [] then [] else [l]
    ensures b == 13 || b == 10 ==> LinesOf(l + [b] + rest) == [l] + LinesOf(rest)
  {
    assert !HasTerminator(l);
    ScanOfUnterminated(l);
    if b == 13 || b == 10 {
      assert (l + [b])[..|l + [b]| - 1] == l;
      ScanLineThen(l + [b], rest);
      assert [l] + Scan(rest).lines + Trailing(Scan(rest).rest) == [l] + LinesOf(rest);
    }
  }
}
