/**
  The build-log writer of cmd/api/build_log.go: lines are cleaned, numbered, appended to a capped
  Redis list and published on the job's channel.
  */
module JobLog {
  import opened LogSplitter

  const MAX_JOB_LOG_LINES: nat := 2000
  const SPACE: Byte := 32
  const TAB: Byte := 9
  /** "…" in UTF-8 */
  const ELLIPSIS: Line := [0xE2, 0x80, 0xA6]

  datatype LogMessage = LogMessage(userID: string, seqNo: nat, line: Line)

  /** LTRIM key -n -1: the last n elements. */
  function LastN<T>(s: seq<T>, n: nat): (r: seq<T>)
    ensures |r| == if |s| <= n then |s| else n
  {
    if |s| <= n then s else s[|s| - n..]
  }

  /** strings.TrimRight(line, " \t") */
  function TrimRight(s: Line): (r: Line)
    ensures r <= s
    ensures r != [] ==> r[|r| - 1] != SPACE && r[|r| - 1] != TAB
    ensures forall i :: |r| <= i < |s| ==> s[i] == SPACE || s[i] == TAB
  {
    if s == [] then []
    else if s[|s| - 1] == SPACE || s[|s| - 1] == TAB then TrimRight(s[..|s| - 1])
    else s
  }

  /**
    What publishLocked stores for one line, [] when it stores nothing.  `strip` removes the
    terminal escape sequences.
    */
  function Cleaned(strip: Line -> Line, line: Line): Line {
    var trimmed := TrimRight(strip(line));
    if |trimmed| > MAX_JOB_LOG_LINE_LENGTH then trimmed[..MAX_JOB_LOG_LINE_LENGTH] + ELLIPSIS else trimmed
  }

  /** The lines that survive cleaning, in order. */
  function Kept(strip: Line -> Line, handed: seq<Line>): seq<Line> {
    if handed == [] then []
    else
      var line := Cleaned(strip, handed[|handed| - 1]);
      Kept(strip, handed[..|handed| - 1]) + (if line == [] then [] else [line])
  }

  /** The messages of a run: the kept lines, numbered from 1. */
  function Numbered(userID: string, lines: seq<Line>): (ms: seq<LogMessage>)
    ensures |ms| == |lines|
    ensures forall i :: 0 <= i < |ms| ==> ms[i] == LogMessage(userID, i + 1, lines[i])
  {
    seq(|lines|, i requires 0 <= i < |lines| => LogMessage(userID, i + 1, lines[i]))
  }

  /** Redis holds the kept lines of a run: all of them published, the last ones in the list. */
  predicate Reflects(userID: string, kept: seq<Line>, list: seq<LogMessage>, published: seq<LogMessage>) {
    published == Numbered(userID, kept) && list == LastN(published, MAX_JOB_LOG_LINES)
  }

  // ----- what a line becomes -----

  /** No space or tab at the end. */
  predicate EndsVisibly(l: Line) {
    l != [] ==> l[|l| - 1] != 32 && l[|l| - 1] != 9
  }

  predicate AllBlank(l: Line) {
    forall i :: 0 <= i < |l| ==> l[i] == 32 || l[i] == 9
  }

  lemma {:induction false} TrimOfVisible(l: Line, blanks: Line)
    requires EndsVisibly(l) && AllBlank(blanks)
    ensures TrimRight(l + blanks) == l
  {
    if blanks == [] {
      assert l + blanks == l;
    } else {
      var n := |blanks| - 1;
      assert (l + blanks)[..|l| + n] == l + blanks[..n];
      TrimOfVisible(l, blanks[..n]);
    }
  }

  lemma CleanedOfShort(strip: Line -> Line, l: Line)
    requires strip(l) == l && EndsVisibly(l) && |l| <= 2000
    ensures Cleaned(strip, l) == l
  {
    TrimOfVisible(l, []);
    assert l + [] == l;
  }

  /** A short visible line is published byte for byte, without the blanks behind it; an empty one not at all. */
  lemma ShortLineIsKept(strip: Line -> Line, l: Line, blanks: Line)
    requires strip(l + blanks) == l + blanks && EndsVisibly(l) && AllBlank(blanks) && |l| <= 2000
    ensures Kept(strip, [l + blanks]) == if l == [] then [] else [l]
  {
    TrimOfVisible(l, blanks);
    assert [l + blanks][..0] == [] && Kept(strip, []) == [];
  }

  /** A longer one is published as its first 2000 bytes and an ellipsis. */
  lemma LongLineIsShortened(strip: Line -> Line, l: Line, blanks: Line)
    requires strip(l + blanks) == l + blanks && EndsVisibly(l) && AllBlank(blanks) && |l| > 2000
    ensures Kept(strip, [l + blanks]) == [l[..2000] + [0xE2, 0x80, 0xA6]]
  {
    TrimOfVisible(l, blanks);
    assert [l + blanks][..0] == [] && Kept(strip, []) == [];
  }

  function NonEmpty(lines: seq<Line>): seq<Line> {
    if lines == [] then []
    else NonEmpty(lines[..|lines| - 1]) + (if lines[|lines| - 1] == [] then [] else [lines[|lines| - 1]])
  }

  /** Short lines without escapes and trailing blanks are published as they are, but for the empty ones. */
  lemma {:induction false} ShortLinesAreKept(strip: Line -> Line, lines: seq<Line>)
    requires forall l :: l in lines ==> strip(l) == l && |l| <= 2000 && EndsVisibly(l)
    ensures Kept(strip, lines) == NonEmpty(lines)
  {
    if lines != [] {
      var n := |lines| - 1;
      assert lines[n] in lines;
      ShortLinesAreKept(strip, lines[..n]);
      CleanedOfShort(strip, lines[n]);
    }
  }

  lemma LastNAppend<T>(s: seq<T>, m: T, n: nat)
    ensures LastN(LastN(s, n) + [m], n) == LastN(s + [m], n)
  {
  }

  lemma KeptAppend(strip: Line -> Line, handed: seq<Line>, line: Line)
    ensures var cleaned := Cleaned(strip, line);
            Kept(strip, handed + [line]) == Kept(strip, handed) + (if cleaned == [] then [] else [cleaned])
  {
    assert (handed + [line])[..|handed|] == handed;
  }

  /** One more kept line is one more message with the next number. */
  lemma NumberedAppend(userID: string, kept: seq<Line>, line: Line)
    ensures Numbered(userID, kept + [line]) == Numbered(userID, kept) + [LogMessage(userID, |kept| + 1, line)]
  {
  }

  /** The lines already handed over, and what a drain of the buffer would add. */
  function Pending(lines: seq<Line>, buf: Line): Split {
    Split(lines + Drain(buf).lines, Drain(buf).rest)
  }

  lemma PendingStep(lines: seq<Line>, buf: Line, i: nat)
    requires IndexTerminator(buf) == i
    ensures Pending(lines + [buf[..i]], buf[i + 1..]) == Pending(lines, buf)
  {
    var rest := Drain(buf[i + 1..]);
    assert (lines + [buf[..i]]) + rest.lines == lines + ([buf[..i]] + rest.lines);
  }

  lemma PendingEnd(lines: seq<Line>, buf: Line)
    requires IndexTerminator(buf) == -1
    ensures Pending(lines, buf) == Split(lines, buf)
  {
  }

  /** One job's log as Redis holds it: the capped list, and all that was ever published. */
  class RedisJobLog {
    var list: seq<LogMessage>
    var published: seq<LogMessage>

    constructor ()
      ensures list == [] && published == []
    {
      list, published := [], [];
    }
  }

  class JobLogWriter {
    const userID: string
    const strip: Line -> Line
    /** null when there is no manager or no Redis client */
    const redis: RedisJobLog?

    var buf: Line
    var seqNo: nat
    /** every line given to PublishLocked, before cleaning */
    ghost var handed: seq<Line>

    /** What the Redis side holds is determined by the lines handed over so far. */
    ghost predicate Valid()
      reads this, redis
    {
      redis != null ==>
        && seqNo == |Kept(strip, handed)|
        && Reflects(userID, Kept(strip, handed), redis.list, redis.published)
    }

    ghost function State(): Split
      reads this
    {
      Split(handed, buf)
    }

    constructor (userID: string, strip: Line -> Line, redis: RedisJobLog?)
      requires redis != null ==> redis.list == [] && redis.published == []
      ensures Valid() && State() == Split([], [])
      ensures this.userID == userID && this.strip == strip && this.redis == redis
    {
      this.userID, this.strip, this.redis := userID, strip, redis;
      buf, seqNo, handed := [], 0, [];
    }

    method PublishLocked(line: Line)
      requires Valid()
      modifies this`seqNo, this`handed, redis
      ensures Valid() && handed == old(handed) + [line]
      ensures redis != null ==>
                var text := TrimRight(strip(line));
                redis.published == old(redis.published) +
                  (if text == [] then []
                   else [LogMessage(userID, old(seqNo) + 1, if |text| <= 2000 then text else text[..2000] + [0xE2, 0x80, 0xA6])])
    {
      ghost var kept := Kept(strip, handed);
      KeptAppend(strip, handed, line);
      handed := handed + [line];
      var cleaned := TrimRight(strip(line));
      if cleaned == [] || redis == null {
        return;
      }
      if |cleaned| > MAX_JOB_LOG_LINE_LENGTH {
        cleaned := cleaned[..MAX_JOB_LOG_LINE_LENGTH] + ELLIPSIS;
      }
      NumberedAppend(userID, kept, cleaned);
      assert cleaned == Cleaned(strip, line);
      seqNo := seqNo + 1;
      var message := LogMessage(userID, seqNo, cleaned);
      LastNAppend(redis.published, message, MAX_JOB_LOG_LINES);
      redis.list := redis.list + [message];
      redis.list := LastN(redis.list, MAX_JOB_LOG_LINES);
      redis.published := redis.published + [message];
    }

    method Write(p: Line) returns (n: nat)
      requires Valid()
      modifies this, redis
      ensures Valid() && n == |p|
      ensures State() == Feed(old(State()), p)
      ensures |buf| <= MAX_JOB_LOG_LINE_LENGTH && !HasTerminator(buf)
    {
      BufferBounded(State(), p);
      ghost var goal := Pending(handed, buf + p);
      buf := buf + p;
      var i := IndexTerminator(buf);
      while i != -1
        invariant Valid()
        invariant i == IndexTerminator(buf)
        invariant Pending(handed, buf) == goal
        decreases |buf|
      {
        var line := buf[..i];
        PendingStep(handed, buf, i);
        buf := buf[i + 1..];
        PublishLocked(line);
        i := IndexTerminator(buf);
      }
      PendingEnd(handed, buf);
      if |buf| > MAX_JOB_LOG_LINE_LENGTH {
        PublishLocked(buf);
        buf := [];
      }
      n := |p|;
    }

    /** One line written by the platform itself. */
    method Printf(text: Line)
      requires Valid()
      modifies this, redis
      ensures Valid() && State() == Feed(old(State()), text + [LF])
    {
      var _ := Write(text + [LF]);
    }

    method Close()
      requires Valid()
      modifies this, redis
      ensures Valid() && buf == []
      ensures handed == Finish(old(State()))
    {
      if |buf| > 0 {
        PublishLocked(buf);
        buf := [];
      }
    }
  }
}
