/**
  The live-log protocol between one jobLogWriter (cmd/api/build_log.go) and one WebSocket
  (streamJobStatus in cmd/api/deployment_jobs.go), which share a Redis list and a Redis channel.

  The writer's RPUSH, LTRIM and PUBLISH are separate steps, and so are the reader's SUBSCRIBE,
  LRANGE and every receive.  Any interleaving is allowed, status messages share the channel, and
  the list may expire at any moment.
  */
module LogStream {
  import opened LogSplitter
  import opened JobLog

  /** A payload on the job's channel. */
  datatype ChannelMessage =
    | LogLine(message: LogMessage)
    | StatusUpdate(userID: string, body: string)
    | Unparsable

  /** The message names `user` as its owner. */
  predicate BelongsTo(msg: ChannelMessage, user: string) {
    || (msg.LogLine? && msg.message.userID == user)
    || (msg.StatusUpdate? && msg.userID == user)
  }

  // ----- the reader -----

  /** What the WebSocket loop remembers, and what it has sent. */
  datatype View = View(lastSeq: nat, out: seq<ChannelMessage>, open: bool)

  /** The backlog loop: forward each line and remember its number; stop at a foreign line. */
  function Replay(user: string, v: View, backlog: seq<LogMessage>): View {
    if backlog == [] then v
    else
      var before := Replay(user, v, backlog[..|backlog| - 1]);
      var m := backlog[|backlog| - 1];
      if !before.open then before
      else if m.userID != user then before.(open := false)
      else View(m.seqNo, before.out + [LogLine(m)], true)
  }

  /** One message taken from the channel. */
  function Receive(user: string, v: View, msg: ChannelMessage): View {
    match msg
    case Unparsable => v
    case StatusUpdate(u, _) =>
      if u != user then v.(open := false) else v.(out := v.out + [msg])
    case LogLine(m) =>
      if m.userID != user then v.(open := false)
      else if m.seqNo <= v.lastSeq then v
      else View(m.seqNo, v.out + [msg], true)
  }

  /** streamJobStatus' state, changed in place as messages arrive. */
  class StreamReader {
    const user: string
    var lastSeq: nat
    var out: seq<ChannelMessage>
    var open: bool

    constructor (user: string)
      ensures this.user == user && Current() == View(0, [], true)
    {
      this.user, lastSeq, out, open := user, 0, [], true;
    }

    function Current(): View
      reads this
    {
      View(lastSeq, out, open)
    }

    method ReplayBacklog(backlog: seq<LogMessage>)
      requires open
      modifies this
      ensures Current() == Replay(user, old(Current()), backlog)
      ensures open <==> forall i :: 0 <= i < |backlog| ==> BelongsTo(LogLine(backlog[i]), user)
    {
      for i := 0 to |backlog|
        invariant open
        invariant Current() == Replay(user, old(Current()), backlog[..i])
        invariant forall j :: 0 <= j < i ==> backlog[j].userID == user
      {
        var line := backlog[i];
        assert backlog[..i + 1][..i] == backlog[..i];
        if line.userID != user {
          open := false;
          assert !BelongsTo(LogLine(backlog[i]), user);
          ReplayStaysClosed(user, old(Current()), backlog, i + 1);
          return;
        }
        out := out + [LogLine(line)];
        lastSeq := line.seqNo;
      }
      assert backlog[..|backlog|] == backlog;
    }

    method OnMessage(msg: ChannelMessage)
      requires open
      modifies this
      ensures Current() == Receive(user, old(Current()), msg)
      ensures open <==> msg.Unparsable? || BelongsTo(msg, user)
      ensures out == old(out) +
                (if BelongsTo(msg, user) && (msg.LogLine? ==> msg.message.seqNo > old(lastSeq)) then [msg] else [])
    {
      match msg
      case Unparsable =>
      case StatusUpdate(u, _) =>
        if u != user {
          open := false;
        } else {
          out := out + [msg];
        }
      case LogLine(m) =>
        if m.userID != user {
          open := false;
        } else if m.seqNo > lastSeq {
          lastSeq := m.seqNo;
          out := out + [msg];
        }
    }
  }

  lemma {:induction false} ReplayStaysClosed(user: string, v: View, backlog: seq<LogMessage>, n: nat)
    requires n <= |backlog| && !Replay(user, v, backlog[..n]).open
    ensures Replay(user, v, backlog) == Replay(user, v, backlog[..n])
  {
    if n == |backlog| {
      assert backlog[..n] == backlog;
    } else {
      var b := backlog[..|backlog| - 1];
      assert b[..n] == backlog[..n];
      ReplayStaysClosed(user, v, b, n);
    }
  }

  // ----- the protocol -----

  /** Where the writer is inside publishLocked. */
  datatype WriterPc = Idle | Pushed | Trimmed

  datatype ReaderPc = Connecting | Subscribed | Streaming

  datatype State = State(
    writerUser: string,
    readerUser: string,
    written: seq<LogMessage>,     // every message ever pushed, in order
    list: seq<LogMessage>,        // the Redis list
    pc: WriterPc,
    reader: ReaderPc,
    inbox: seq<ChannelMessage>,   // delivered to the subscription, not received yet
    view: View,
    taken: seq<ChannelMessage>,   // history: received from the subscription, in order
    subscribedAt: int,            // history: messages published before SUBSCRIBE
    first: int,                   // history: where the forwarded lines start in `written`
    expired: bool                 // history: has the list ever expired?
  ) {
    /** Messages whose PUBLISH has run. */
    function Published(): int {
      if pc == Idle then |written| else |written| - 1
    }
  }

  datatype Step =
    | Push(line: Line)
    | Trim
    | PublishLine
    | PublishOther(other: ChannelMessage)
    | Expire
    | Subscribe
    | ReadBacklog(sent: nat)      // lines sent before the connection broke, if it did
    | BacklogFails
    | Take
    | HangUp

  predicate Init(s: State) {
    && s.written == [] && s.list == [] && s.pc == Idle
    && s.reader == Connecting && s.inbox == [] && s.view == View(0, [], true)
    && s.taken == [] && s.subscribedAt == 0 && s.first == 0 && !s.expired
  }

  predicate Enabled(s: State, step: Step) {
    match step
    case Push(line) => s.pc == Idle && line != []
    case Trim => s.pc == Pushed
    case PublishLine => s.pc == Trimmed && s.written != []
    case PublishOther(other) => !other.LogLine?
    case Expire => true
    case Subscribe => s.reader == Connecting && s.view.open
    case ReadBacklog(sent) => s.reader == Subscribed && s.view.open && sent <= |s.list|
    case BacklogFails => s.reader == Subscribed && s.view.open
    case Take => s.reader == Streaming && s.view.open && s.inbox != []
    case HangUp => true
  }

  function Deliver(s: State, msg: ChannelMessage): seq<ChannelMessage> {
    if s.reader == Connecting then s.inbox else s.inbox + [msg]
  }

  function Apply(s: State, step: Step): State
    requires Enabled(s, step)
  {
    match step
    case Push(line) =>
      var m := LogMessage(s.writerUser, |s.written| + 1, line);
      s.(written := s.written + [m], list := s.list + [m], pc := Pushed)
    case Trim =>
      s.(list := LastN(s.list, MAX_JOB_LOG_LINES), pc := Trimmed)
    case PublishLine =>
      s.(inbox := Deliver(s, LogLine(s.written[|s.written| - 1])), pc := Idle)
    case PublishOther(other) =>
      s.(inbox := Deliver(s, other))
    case Expire =>
      s.(list := [], expired := true)
    case Subscribe =>
      s.(reader := Subscribed, inbox := [], subscribedAt := s.Published())
    case ReadBacklog(sent) =>
      var v := Replay(s.readerUser, s.view, s.list[..sent]);
      s.(reader := Streaming,
         view := if sent == |s.list| then v else v.(open := false),
         first := if s.list == [] then s.subscribedAt else |s.written| - |s.list|)
    case BacklogFails =>
      s.(reader := Streaming, first := s.subscribedAt)
    case Take =>
      s.(inbox := s.inbox[1..], view := Receive(s.readerUser, s.view, s.inbox[0]), taken := s.taken + [s.inbox[0]])
    case HangUp =>
      s.(view := s.view.(open := false))
  }

  ghost predicate Next(s: State, s': State) {
    exists step :: Enabled(s, step) && s' == Apply(s, step)
  }

  ghost predicate IsRun(run: seq<State>) {
    && run != [] && Init(run[0])
    && forall i {:trigger run[i + 1]} :: 0 <= i < |run| - 1 ==> Next(run[i], run[i + 1])
  }

  /** The log lines among channel messages. */
  function Logs(ms: seq<ChannelMessage>): seq<LogMessage> {
    if ms == [] then []
    else
      var m := ms[|ms| - 1];
      Logs(ms[..|ms| - 1]) + (if m.LogLine? then [m.message] else [])
  }

  lemma {:induction false} LogsAppend(a: seq<ChannelMessage>, b: seq<ChannelMessage>)
    ensures Logs(a + b) == Logs(a) + Logs(b)
  {
    if b == [] {
      assert a + b == a;
    } else {
      assert (a + b)[..|a + b| - 1] == a + b[..|b| - 1];
      LogsAppend(a, b[..|b| - 1]);
    }
  }

  lemma LogsSnoc(ms: seq<ChannelMessage>, m: ChannelMessage)
    ensures m.LogLine? ==> Logs(ms + [m]) == Logs(ms) + [m.message]
    ensures !m.LogLine? ==> Logs(ms + [m]) == Logs(ms)
  {
    assert (ms + [m])[..|ms|] == ms;
  }

  // ----- the invariant -----

  ghost predicate WriterInv(s: State) {
    && (s.pc != Idle ==> s.written != [])
    && (forall i :: 0 <= i < |s.written| ==> s.written[i].seqNo == i + 1 && s.written[i].userID == s.writerUser)
    && |s.list| <= |s.written|
    && s.list == s.written[|s.written| - |s.list|..]
    && (!s.expired ==> |s.list| >= MAX_JOB_LOG_LINES || |s.list| == |s.written|)
  }

  /** The subscription holds the published lines from `from` on, in order. */
  ghost predicate Holds(s: State, from: int) {
    0 <= from <= s.Published() && Logs(s.inbox) == s.written[from..s.Published()]
  }

  /** The forwarded lines are those from `first` on, with no duplicate, gap or reordering. */
  ghost predicate Consecutive(s: State) {
    var sent := Logs(s.view.out);
    sent == [] || (0 <= s.first && s.first + |sent| <= |s.written| && sent == s.written[s.first..s.first + |sent|])
  }

  /**
    The reader is open and has taken all published lines before `taken`: what it sent ends where
    `lastSeq` says, and the next line it will take is at most one further on.
    */
  ghost predicate InStep(s: State, taken: int) {
    var sent := |Logs(s.view.out)|;
    && Consecutive(s) && Holds(s, taken)
    && (if sent == 0 then s.view.lastSeq == 0 && taken == s.first
        else s.view.lastSeq == s.first + sent && taken <= s.first + sent)
  }

  ghost predicate ReaderInv(s: State) {
    match s.reader
    case Connecting => s.view.out == [] && s.view.lastSeq == 0
    case Subscribed => s.view.out == [] && s.view.lastSeq == 0 && Holds(s, s.subscribedAt)
    case Streaming =>
      && Consecutive(s)
      && (s.view.open ==> InStep(s, s.Published() - |Logs(s.inbox)|))
  }

  ghost predicate Inv(s: State) {
    WriterInv(s) && ReaderInv(s)
  }

  lemma LogsTail(ms: seq<ChannelMessage>)
    requires ms != []
    ensures Logs(ms) == (if ms[0].LogLine? then [ms[0].message] else []) + Logs(ms[1..])
  {
    assert ms == [ms[0]] + ms[1..];
    LogsAppend([ms[0]], ms[1..]);
  }

  // ----- slices -----

  /** Growing a sequence at the end leaves earlier slices alone. */
  lemma SliceOfLonger<T>(s: seq<T>, m: T, lo: nat, hi: nat)
    requires lo <= hi <= |s|
    ensures (s + [m])[lo..hi] == s[lo..hi]
  {
  }

  lemma SuffixOfLonger<T>(s: seq<T>, m: T, lo: nat)
    requires lo <= |s|
    ensures (s + [m])[lo..] == s[lo..] + [m]
  {
  }

  lemma SliceOfSlice<T>(s: seq<T>, lo: nat, hi: nat, n: nat)
    requires lo + n <= hi <= |s|
    ensures s[lo..hi][..n] == s[lo..lo + n]
  {
  }

  lemma SliceHead<T>(s: seq<T>, lo: nat, hi: nat, x: T, rest: seq<T>)
    requires lo <= hi <= |s| && s[lo..hi] == [x] + rest
    ensures lo < hi && s[lo] == x && s[lo + 1..hi] == rest
  {
    assert s[lo..hi][0] == s[lo];
    assert s[lo..hi][1..] == s[lo + 1..hi];
  }

  lemma SliceExtend<T>(s: seq<T>, lo: nat, hi: nat)
    requires lo <= hi < |s|
    ensures s[lo..hi] + [s[hi]] == s[lo..hi + 1]
  {
  }

  // ----- the writer's side -----

  /** WriterInv looks only at the writer's lines, its progress and the list. */
  lemma SameWriter(s: State, s': State)
    requires WriterInv(s)
    requires s'.written == s.written && s'.list == s.list && s'.writerUser == s.writerUser && s'.expired == s.expired
    requires s'.pc == s.pc || s'.pc == Idle
    ensures WriterInv(s')
  {
  }

  lemma PushKeepsWriter(s: State, line: Line)
    requires WriterInv(s) && Enabled(s, Push(line))
    ensures WriterInv(Apply(s, Push(line)))
  {
    SuffixOfLonger(s.written, LogMessage(s.writerUser, |s.written| + 1, line), |s.written| - |s.list|);
  }

  /** The last elements of a suffix are the last elements of the whole. */
  lemma LastOfSuffix<T>(s: seq<T>, list: seq<T>, n: nat)
    requires |list| <= |s| && list == s[|s| - |list|..]
    ensures LastN(list, n) == s[|s| - |LastN(list, n)|..]
  {
    var k := |LastN(list, n)|;
    assert list[|list| - k..] == s[|s| - k..];
  }

  lemma TrimKeepsWriter(s: State)
    requires WriterInv(s) && Enabled(s, Trim)
    ensures WriterInv(Apply(s, Trim))
  {
    LastOfSuffix(s.written, s.list, MAX_JOB_LOG_LINES);
  }

  lemma StepKeepsWriter(s: State, step: Step)
    requires WriterInv(s) && Enabled(s, step)
    ensures WriterInv(Apply(s, step))
  {
    match step
    case Push(line) => PushKeepsWriter(s, line);
    case Trim => TrimKeepsWriter(s);
    case Expire =>
    case _ => SameWriter(s, Apply(s, step));
  }

  // ----- the reader's side, by what a step leaves behind -----

  /** What the reader remembers and has been promised is the same in both states. */
  predicate SameMemory(s: State, s': State) {
    s'.reader == s.reader && s'.first == s.first && s'.subscribedAt == s.subscribedAt
  }

  lemma InStepIsReaderInv(s: State, taken: int)
    requires InStep(s, taken) && s.reader == Streaming
    ensures ReaderInv(s)
  {
    assert |Logs(s.inbox)| == s.Published() - taken;
  }

  lemma SameHolds(s: State, s': State, from: int)
    requires Holds(s, from)
    requires s'.written == s.written && s'.Published() == s.Published() && Logs(s'.inbox) == Logs(s.inbox)
    ensures Holds(s', from)
  {
  }

  lemma SameConsecutive(s: State, s': State)
    requires Consecutive(s)
    requires s'.written == s.written && s'.first == s.first && Logs(s'.view.out) == Logs(s.view.out)
    ensures Consecutive(s')
  {
  }

  /** ReaderInv looks only at the writer's lines and at the log lines in the subscription and the output. */
  lemma SameReader(s: State, s': State)
    requires ReaderInv(s) && SameMemory(s, s')
    requires s'.written == s.written && s'.Published() == s.Published() && Logs(s'.inbox) == Logs(s.inbox)
    requires Logs(s'.view.out) == Logs(s.view.out) && s'.view.lastSeq == s.view.lastSeq
    requires s'.view.out == s.view.out || s.reader == Streaming
    requires s'.view.open ==> s.view.open
    ensures ReaderInv(s')
  {
    match s.reader
    case Connecting =>
    case Subscribed => SameHolds(s, s', s.subscribedAt);
    case Streaming =>
      SameConsecutive(s, s');
      if s'.view.open {
        SameHolds(s, s', s.Published() - |Logs(s.inbox)|);
      }
  }

  /** A line was pushed: the lines sent and delivered are still where they were. */
  lemma PushedReader(s: State, s': State, m: LogMessage)
    requires ReaderInv(s) && SameMemory(s, s') && s'.view == s.view && s'.inbox == s.inbox
    requires s'.written == s.written + [m] && s'.Published() == s.Published() == |s.written|
    ensures ReaderInv(s')
  {
    match s.reader
    case Connecting =>
    case Subscribed => PushedHolds(s, s', m, s.subscribedAt);
    case Streaming =>
      PushedConsecutive(s, s', m);
      if s.view.open {
        PushedHolds(s, s', m, s.Published() - |Logs(s.inbox)|);
      }
  }

  lemma PushedHolds(s: State, s': State, m: LogMessage, from: int)
    requires Holds(s, from) && s'.inbox == s.inbox
    requires s'.written == s.written + [m] && s'.Published() == s.Published() == |s.written|
    ensures Holds(s', from)
  {
    SliceOfLonger(s.written, m, from, s.Published());
  }

  lemma PushedConsecutive(s: State, s': State, m: LogMessage)
    requires Consecutive(s) && s'.view == s.view && s'.first == s.first && s'.written == s.written + [m]
    ensures Consecutive(s')
  {
    var sent := Logs(s.view.out);
    if sent != [] {
      SliceOfLonger(s.written, m, s.first, s.first + |sent|);
    }
  }

  /** The line PUBLISH adds to the channel is the next one an open subscription expects. */
  lemma PublishedHolds(s: State, s': State, from: int)
    requires Holds(s, from) && s.written != []
    requires s'.written == s.written && s.Published() == |s.written| - 1 && s'.Published() == |s.written|
    requires Logs(s'.inbox) == Logs(s.inbox) + [s.written[|s.written| - 1]]
    ensures Holds(s', from)
  {
    SliceExtend(s.written, from, |s.written| - 1);
  }

  lemma PublishedReader(s: State, s': State)
    requires ReaderInv(s) && SameMemory(s, s') && s'.view == s.view && s.reader != Connecting && s.written != []
    requires s'.written == s.written && s.Published() == |s.written| - 1 && s'.Published() == |s.written|
    requires Logs(s'.inbox) == Logs(s.inbox) + [s.written[|s.written| - 1]]
    ensures ReaderInv(s')
  {
    if s.reader == Subscribed {
      PublishedHolds(s, s', s.subscribedAt);
    } else {
      SameConsecutive(s, s');
      if s.view.open {
        PublishedHolds(s, s', s.Published() - |Logs(s.inbox)|);
      }
    }
  }

  /** The oldest delivered line `m` was taken: it is the next one of the writer's. */
  lemma TakenHolds(s: State, s': State, m: LogMessage, from: int)
    requires Holds(s, from) && s.Published() <= |s.written| && s'.written == s.written && s'.Published() == s.Published()
    requires Logs(s.inbox) == [m] + Logs(s'.inbox)
    ensures from < s.Published() && m == s.written[from] && Holds(s', from + 1)
  {
    SliceHead(s.written, from, s.Published(), m, Logs(s'.inbox));
  }

  /** A line already seen in the backlog was dropped. */
  lemma TookDuplicate(s: State, s': State, m: LogMessage, taken: int)
    requires InStep(s, taken) && s.Published() <= |s.written| && s'.written == s.written && s'.Published() == s.Published()
    requires Logs(s.inbox) == [m] + Logs(s'.inbox) && s'.first == s.first
    requires s'.view == s.view && taken + 1 <= s.view.lastSeq
    ensures InStep(s', taken + 1)
  {
    TakenHolds(s, s', m, taken);
    SameConsecutive(s, s');
  }

  /** Any other line is exactly the next one, and was sent. */
  lemma TookNew(s: State, s': State, m: LogMessage, taken: int)
    requires InStep(s, taken) && s.Published() <= |s.written| && s'.written == s.written && s'.Published() == s.Published()
    requires Logs(s.inbox) == [m] + Logs(s'.inbox) && s'.first == s.first
    requires Logs(s'.view.out) == Logs(s.view.out) + [m] && s'.view.lastSeq == taken + 1 > s.view.lastSeq
    ensures InStep(s', taken + 1)
  {
    var sent := Logs(s.view.out);
    TakenHolds(s, s', m, taken);
    assert taken == s.first + |sent|;
    if sent != [] {
      SliceExtend(s.written, s.first, taken);
    }
    assert Consecutive(s');
  }

  // ----- the reader's side, step by step -----

  lemma PushKeepsReader(s: State, line: Line)
    requires ReaderInv(s) && Enabled(s, Push(line))
    ensures ReaderInv(Apply(s, Push(line)))
  {
    PushedReader(s, Apply(s, Push(line)), LogMessage(s.writerUser, |s.written| + 1, line));
  }

  lemma PublishKeepsReader(s: State)
    requires ReaderInv(s) && Enabled(s, PublishLine)
    ensures ReaderInv(Apply(s, PublishLine))
  {
    if s.reader != Connecting {
      LogsSnoc(s.inbox, LogLine(s.written[|s.written| - 1]));
      PublishedReader(s, Apply(s, PublishLine));
    }
  }

  /** Status messages pass through the channel without disturbing the lines. */
  lemma OtherKeepsReader(s: State, other: ChannelMessage)
    requires ReaderInv(s) && Enabled(s, PublishOther(other))
    ensures ReaderInv(Apply(s, PublishOther(other)))
  {
    LogsSnoc(s.inbox, other);
    SameReader(s, Apply(s, PublishOther(other)));
  }

  lemma {:induction false} ReplayForwards(user: string, v: View, backlog: seq<LogMessage>)
    requires v.open && v.out == []
    ensures var r := Replay(user, v, backlog);
            && Logs(r.out) <= backlog
            && (r.open ==> Logs(r.out) == backlog && (backlog != [] ==> r.lastSeq == backlog[|backlog| - 1].seqNo))
            && (backlog == [] ==> r == v)
  {
    if backlog != [] {
      var b, m := backlog[..|backlog| - 1], backlog[|backlog| - 1];
      ReplayForwards(user, v, b);
      LogsSnoc(Replay(user, v, b).out, LogLine(m));
      assert b + [m] == backlog;
    }
  }

  /** A prefix of the list is a run of written lines. */
  lemma PrefixOfList(s: State, n: nat)
    requires WriterInv(s) && n <= |s.list|
    ensures s.list[..n] == s.written[|s.written| - |s.list|..|s.written| - |s.list| + n]
  {
    SliceOfSlice(s.written, |s.written| - |s.list|, |s.written|, n);
  }

  lemma LastOfList(s: State)
    requires WriterInv(s) && s.list != []
    ensures s.list[|s.list| - 1].seqNo == |s.written|
  {
    assert s.list[|s.list| - 1] == s.written[|s.written| - 1];
  }

  /** Replaying a prefix of the list forwards written lines, all of them if the client stays. */
  lemma ReplaySends(s: State, v: View, sent: nat)
    requires WriterInv(s) && v.open && v.out == [] && sent <= |s.list|
    ensures var r := Replay(s.readerUser, v, s.list[..sent]); var n := |Logs(r.out)|;
            && n <= sent
            && Logs(r.out) == s.written[|s.written| - |s.list|..|s.written| - |s.list| + n]
            && (r.open && sent == |s.list| > 0 ==> n == |s.list| && r.lastSeq == |s.written|)
  {
    var backlog := s.list[..sent];
    ReplayForwards(s.readerUser, v, backlog);
    var n := |Logs(Replay(s.readerUser, v, backlog).out)|;
    assert backlog[..n] == s.list[..n];
    PrefixOfList(s, n);
    if sent == |s.list| > 0 {
      assert backlog == s.list;
      LastOfList(s);
    }
  }

  /** An empty list was read. */
  lemma ReadNothing(s: State, s': State)
    requires Holds(s, s.subscribedAt) && s'.written == s.written && s'.Published() == s.Published() && s'.inbox == s.inbox
    requires s'.reader == Streaming && s'.first == s.subscribedAt && s'.view.out == [] && s'.view.lastSeq == 0
    ensures ReaderInv(s')
  {
    SameHolds(s, s', s.subscribedAt);
    assert Logs(s'.view.out) == [];
    InStepIsReaderInv(s', s.subscribedAt);
  }

  /** The first `n` of a list that ends with the newest line were sent, all of them if the client stayed. */
  lemma ReadLines(s: State, s': State, n: nat)
    requires Holds(s, s.subscribedAt) && s'.written == s.written && s'.Published() == s.Published() && s'.inbox == s.inbox
    requires s'.reader == Streaming && 0 <= s'.first && s'.first + n <= |s.written| && s.Published() <= |s.written|
    requires Logs(s'.view.out) == s.written[s'.first..s'.first + n]
    requires s'.view.open ==> s'.first + n == |s.written| == s'.view.lastSeq && n > 0
    ensures ReaderInv(s')
  {
    SameHolds(s, s', s.subscribedAt);
    assert |Logs(s'.view.out)| == n;
    assert Consecutive(s');
    if s'.view.open {
      InStepIsReaderInv(s', s.subscribedAt);
    }
  }

  lemma ReadKeepsReader(s: State, sent: nat)
    requires Inv(s) && Enabled(s, ReadBacklog(sent))
    ensures ReaderInv(Apply(s, ReadBacklog(sent)))
  {
    var s' := Apply(s, ReadBacklog(sent));
    if s.list == [] {
      assert s.list[..sent] == [];
      ReadNothing(s, s');
    } else {
      ReplaySends(s, s.view, sent);
      ReadLines(s, s', |Logs(s'.view.out)|);
    }
  }

  /** An own log line was received: it is dropped or sent, and is the writer's next one. */
  lemma TookLine(s: State, s': State, m: LogMessage)
    requires InStep(s, s.Published() - |Logs(s.inbox)|) && s.Published() <= |s.written|
    requires forall i :: 0 <= i < |s.written| ==> s.written[i].seqNo == i + 1
    requires s'.written == s.written && s'.Published() == s.Published() && s'.first == s.first && s'.reader == Streaming
    requires Logs(s.inbox) == [m] + Logs(s'.inbox)
    requires m.seqNo <= s.view.lastSeq ==> s'.view == s.view
    requires m.seqNo > s.view.lastSeq ==> Logs(s'.view.out) == Logs(s.view.out) + [m] && s'.view.lastSeq == m.seqNo
    ensures ReaderInv(s')
  {
    var taken := s.Published() - |Logs(s.inbox)|;
    TakenHolds(s, s', m, taken);
    if taken + 1 <= s.view.lastSeq {
      TookDuplicate(s, s', m, taken);
    } else {
      TookNew(s, s', m, taken);
    }
    InStepIsReaderInv(s', taken + 1);
  }

  lemma TakeOther(s: State)
    requires ReaderInv(s) && Enabled(s, Take) && !s.inbox[0].LogLine?
    ensures ReaderInv(Apply(s, Take))
  {
    LogsTail(s.inbox);
    LogsSnoc(s.view.out, s.inbox[0]);
    assert Logs(s.inbox) == Logs(s.inbox[1..]);
    SameReader(s, Apply(s, Take));
  }

  lemma TakeForeign(s: State)
    requires ReaderInv(s) && Enabled(s, Take) && s.inbox[0].LogLine? && s.inbox[0].message.userID != s.readerUser
    ensures ReaderInv(Apply(s, Take))
  {
    SameConsecutive(s, Apply(s, Take));
  }

  lemma TakeOwnLine(s: State)
    requires Inv(s) && Enabled(s, Take) && s.inbox[0].LogLine? && s.inbox[0].message.userID == s.readerUser
    ensures ReaderInv(Apply(s, Take))
  {
    LogsTail(s.inbox);
    LogsSnoc(s.view.out, s.inbox[0]);
    TookLine(s, Apply(s, Take), s.inbox[0].message);
  }

  lemma TakeKeepsReader(s: State)
    requires Inv(s) && Enabled(s, Take)
    ensures ReaderInv(Apply(s, Take))
  {
    if !s.inbox[0].LogLine? {
      TakeOther(s);
    } else if s.inbox[0].message.userID != s.readerUser {
      TakeForeign(s);
    } else {
      TakeOwnLine(s);
    }
  }

  /** Steps that touch neither the channel nor what was sent. */
  lemma QuietStepKeepsReader(s: State, step: Step)
    requires ReaderInv(s) && Enabled(s, step)
    requires step.Trim? || step.Expire? || step.HangUp?
    ensures ReaderInv(Apply(s, step))
  {
    SameReader(s, Apply(s, step));
  }

  lemma SubscribeKeepsReader(s: State)
    requires Inv(s) && Enabled(s, Subscribe)
    ensures ReaderInv(Apply(s, Subscribe))
  {
    assert Logs([]) == [];
  }

  lemma BacklogFailureKeepsReader(s: State)
    requires Inv(s) && Enabled(s, BacklogFails)
    ensures ReaderInv(Apply(s, BacklogFails))
  {
    var s' := Apply(s, BacklogFails);
    assert Logs(s'.view.out) == [];
    SameHolds(s, s', s.subscribedAt);
    InStepIsReaderInv(s', s.subscribedAt);
  }

  lemma StepKeepsInv(s: State, step: Step)
    requires Inv(s) && Enabled(s, step)
    ensures Inv(Apply(s, step))
  {
    StepKeepsWriter(s, step);
    assert ReaderInv(Apply(s, step)) by {
      match step
      case ReadBacklog(sent) => ReadKeepsReader(s, sent);
      case Take => TakeKeepsReader(s);
      case Subscribe => SubscribeKeepsReader(s);
      case BacklogFails => BacklogFailureKeepsReader(s);
      case Push(line) => PushKeepsReader(s, line);
      case PublishLine => PublishKeepsReader(s);
      case PublishOther(other) => OtherKeepsReader(s, other);
      case _ => QuietStepKeepsReader(s, step);
    }
  }

  lemma {:induction false} RunKeepsInv(run: seq<State>, i: nat)
    requires IsRun(run) && i < |run|
    ensures Inv(run[i])
  {
    if i > 0 {
      RunKeepsInv(run, i - 1);
      var j := i - 1;
      assert Next(run[j], run[j + 1]);
      var step :| Enabled(run[i - 1], step) && run[i] == Apply(run[i - 1], step);
      StepKeepsInv(run[i - 1], step);
    }
  }

  // ----- what the client sees -----

  /**
    In every reachable state the lines the client was sent carry consecutive numbers and are,
    byte for byte, consecutive lines of the writer.
    */
  lemma ForwardedLinesAreConsecutive(run: seq<State>, i: nat)
    requires IsRun(run) && i < |run|
    ensures var s := run[i]; var sent := Logs(s.view.out);
            && (sent != [] ==> 0 <= s.first && s.first + |sent| <= |s.written| && sent == s.written[s.first..s.first + |sent|])
            && (forall k :: 0 <= k < |sent| ==> sent[k].seqNo == s.first + k + 1)
  {
    RunKeepsInv(run, i);
  }

  /**
    Nothing is missing either: once the writer rests and the subscription is drained, an open
    client has every line from `first` to the last one.
    */
  lemma DrainedClientIsComplete(run: seq<State>, i: nat)
    requires IsRun(run) && i < |run|
    requires var s := run[i]; s.reader == Streaming && s.view.open && s.pc == Idle && Logs(s.inbox) == []
    ensures var s := run[i]; 0 <= s.first <= |s.written| && Logs(s.view.out) == s.written[s.first..]
  {
    RunKeepsInv(run, i);
    var s := run[i];
    assert s.Published() == |s.written|;
  }

  // ----- whose messages the client sees -----

  /** The status updates among channel messages. */
  function Statuses(ms: seq<ChannelMessage>): seq<ChannelMessage> {
    if ms == [] then []
    else
      var m := ms[|ms| - 1];
      Statuses(ms[..|ms| - 1]) + (if m.StatusUpdate? then [m] else [])
  }

  /** Those that belong to `user`. */
  function OwnStatuses(user: string, ms: seq<ChannelMessage>): seq<ChannelMessage> {
    if ms == [] then []
    else
      var m := ms[|ms| - 1];
      OwnStatuses(user, ms[..|ms| - 1]) + (if m.StatusUpdate? && m.userID == user then [m] else [])
  }

  ghost predicate AllBelongTo(ms: seq<ChannelMessage>, user: string) {
    forall i :: 0 <= i < |ms| ==> BelongsTo(ms[i], user)
  }

  /** Nothing but the user's own messages was sent, and all of the status updates taken for the user. */
  ghost predicate OutputInv(s: State) {
    && AllBelongTo(s.view.out, s.readerUser)
    && Statuses(s.view.out) == OwnStatuses(s.readerUser, s.taken)
    && (s.reader != Streaming ==> s.taken == [] && s.view.out == [])
  }

  lemma {:induction false} ReplayIsOwn(user: string, v: View, backlog: seq<LogMessage>)
    requires AllBelongTo(v.out, user)
    ensures var r := Replay(user, v, backlog); AllBelongTo(r.out, user) && Statuses(r.out) == Statuses(v.out)
  {
    if backlog != [] {
      var n := |backlog| - 1;
      var before := Replay(user, v, backlog[..n]);
      ReplayIsOwn(user, v, backlog[..n]);
      assert (before.out + [LogLine(backlog[n])])[..|before.out|] == before.out;
    }
  }

  lemma StatusesSnoc(user: string, ms: seq<ChannelMessage>, m: ChannelMessage)
    ensures Statuses(ms + [m]) == Statuses(ms) + (if m.StatusUpdate? then [m] else [])
    ensures OwnStatuses(user, ms + [m]) == OwnStatuses(user, ms) + (if m.StatusUpdate? && m.userID == user then [m] else [])
  {
    assert (ms + [m])[..|ms|] == ms;
  }

  lemma TakeKeepsOutput(s: State)
    requires OutputInv(s) && Enabled(s, Take)
    ensures OutputInv(Apply(s, Take))
  {
    var m := s.inbox[0];
    StatusesSnoc(s.readerUser, s.taken, m);
    StatusesSnoc(s.readerUser, s.view.out, m);
  }

  lemma StepKeepsOutput(s: State, step: Step)
    requires OutputInv(s) && Enabled(s, step)
    ensures OutputInv(Apply(s, step))
  {
    match step
    case Take => TakeKeepsOutput(s);
    case ReadBacklog(sent) =>
      ReplayIsOwn(s.readerUser, s.view, s.list[..sent]);
    case _ =>
  }

  lemma {:induction false} RunKeepsOutput(run: seq<State>, i: nat)
    requires IsRun(run) && i < |run|
    ensures OutputInv(run[i])
  {
    if i > 0 {
      RunKeepsOutput(run, i - 1);
      var j := i - 1;
      assert Next(run[j], run[j + 1]);
      var step :| Enabled(run[i - 1], step) && run[i] == Apply(run[i - 1], step);
      StepKeepsOutput(run[i - 1], step);
    }
  }

  /** In every reachable state, every message the client was sent is the user's own. */
  lemma ClientSeesOnlyOwn(run: seq<State>, i: nat, k: nat)
    requires IsRun(run) && i < |run| && k < |run[i].view.out|
    ensures BelongsTo(run[i].view.out[k], run[i].readerUser)
  {
    RunKeepsOutput(run, i);
  }

  /** In every reachable state, the status updates sent are the user's among those taken, in order. */
  lemma StatusUpdatesAreForwarded(run: seq<State>, i: nat)
    requires IsRun(run) && i < |run|
    ensures Statuses(run[i].view.out) == OwnStatuses(run[i].readerUser, run[i].taken)
  {
    RunKeepsOutput(run, i);
  }

  /** Receiving a message closes the connection exactly if it is legible and not the user's. */
  lemma TakeStaysOpenIff(s: State)
    requires Enabled(s, Take)
    ensures Apply(s, Take).view.open <==> s.inbox[0].Unparsable? || BelongsTo(s.inbox[0], s.readerUser)
    ensures Apply(s, Take).taken == s.taken + [s.inbox[0]]
  {
  }

  /** `first` reaches back 2000 lines, or to the very first, unless the list had expired. */
  lemma BacklogReachesBack(run: seq<State>, i: nat, sent: nat)
    requires IsRun(run) && i < |run|
    requires Enabled(run[i], ReadBacklog(sent)) && !run[i].expired
    ensures var first := Apply(run[i], ReadBacklog(sent)).first;
            0 <= first && (first == 0 || first + MAX_JOB_LOG_LINES <= |run[i].written|)
  {
    RunKeepsInv(run, i);
  }

  /** What was sent is never taken back, and a streaming client's first line is settled. */
  lemma SentOnlyGrows(s: State, step: Step)
    requires Enabled(s, step)
    ensures s.view.out <= Apply(s, step).view.out
    ensures s.reader == Streaming ==> Apply(s, step).first == s.first
  {
    if step.ReadBacklog? {
      ReplayGrows(s.readerUser, s.view, s.list[..step.sent]);
    }
  }

  lemma {:induction false} ReplayGrows(user: string, v: View, backlog: seq<LogMessage>)
    ensures v.out <= Replay(user, v, backlog).out
  {
    if backlog != [] {
      ReplayGrows(user, v, backlog[..|backlog| - 1]);
    }
  }

  /**
    Run without interruption, the writer's three steps take one kept line from JobLogWriter's state
    before PublishLocked to its state after it.
    */
  lemma PipelineIsPublishLocked(s: State, kept: seq<Line>, line: Line)
    requires Enabled(s, Push(line)) && Reflects(s.writerUser, kept, s.list, s.written)
    ensures var s1 := Apply(s, Push(line)); var s2 := Apply(s1, Trim); var s3 := Apply(s2, PublishLine);
            && Reflects(s.writerUser, kept + [line], s3.list, s3.written) && s3.pc == Idle
            && s3.inbox == Deliver(s, LogLine(s3.written[|kept|]))
  {
    var m := LogMessage(s.writerUser, |kept| + 1, line);
    NumberedAppend(s.writerUser, kept, line);
    LastNAppend(s.written, m, MAX_JOB_LOG_LINES);
  }
}
