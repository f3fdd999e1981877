/**
  The stuck-deployment reconciler of cmd/api/deployment_jobs.go.

  A BUILDING deployment is stuck when no task of the queue belongs to it.  The queue keeps a task in
  one of four lists and the reconciler reads the lists one after the other while workers keep moving
  tasks between them.
  */
module Reconciler {
  import opened Shared

  /** The lists deploymentsWithLiveTasks reads, and no others. */
  datatype TaskState = Pending | Active | Scheduled | Retry

  /** A task's payload: [] when it cannot be parsed or names no deployment. */
  datatype Task = Task(deploymentID: string, state: TaskState)

  type Queue = map<int, Task>

  /** The order of the listers. */
  const LISTERS: seq<TaskState> := [Pending, Active, Scheduled, Retry]

  /** The deployments one listing contributes. */
  function Listed(queue: Queue, state: TaskState): set<string> {
    set id | id in queue && queue[id].state == state && queue[id].deploymentID != [] :: queue[id].deploymentID
  }

  // ----- a scan running beside the workers -----

  datatype Scan = Scan(queue: Queue, done: nat, live: set<string>)

  datatype Step =
    | List                                    // the reconciler reads the next list
    | Enqueue(id: int, task: Task)            // a new task, in whichever list
    | Move(id: int, to: TaskState)
    | Finish(id: int)                         // completed, archived or deleted

  predicate Enabled(s: Scan, step: Step) {
    match step
    case List => s.done < |LISTERS|
    case Enqueue(id, task) => id !in s.queue
    case Move(id, to) => id in s.queue
    case Finish(id) => id in s.queue
  }

  function Apply(s: Scan, step: Step): Scan
    requires Enabled(s, step)
  {
    match step
    case List => Scan(s.queue, s.done + 1, s.live + Listed(s.queue, LISTERS[s.done]))
    case Enqueue(id, task) => s.(queue := s.queue[id := task])
    case Move(id, to) => s.(queue := s.queue[id := s.queue[id].(state := to)])
    case Finish(id) => s.(queue := s.queue - {id})
  }

  /** The position of a list in the scan. */
  function Rank(state: TaskState): (k: nat)
    ensures k < |LISTERS| && LISTERS[k] == state
    ensures forall j :: 0 <= j < |LISTERS| && LISTERS[j] == state ==> j == k
  {
    match state
    case Pending => 0
    case Active => 1
    case Scheduled => 2
    case Retry => 3
  }

  /** A run of a scan from before the first listing to after the last one. */
  ghost predicate IsRun(run: seq<Scan>, steps: seq<Step>) {
    && |run| == |steps| + 1
    && run[0].done == 0 && run[0].live == {}
    && run[|steps|].done == |LISTERS|
    && forall i {:trigger steps[i]} :: 0 <= i < |steps| ==> Enabled(run[i], steps[i]) && run[i + 1] == Apply(run[i], steps[i])
  }

  /** Task `id` exists, for deployment `d`, before the first listing and until the end. */
  ghost predicate LiveThroughout(run: seq<Scan>, id: int, d: string) {
    forall i :: 0 <= i < |run| ==> id in run[i].queue && run[i].queue[id].deploymentID == d
  }

  /** Workers move task `id` only as `moves` allows. */
  ghost predicate MovesObey(moves: set<(TaskState, TaskState)>, run: seq<Scan>, steps: seq<Step>, id: int)
    requires |run| == |steps| + 1
  {
    forall i {:trigger steps[i]} :: 0 <= i < |steps| && steps[i].Move? && steps[i].id == id && id in run[i].queue ==>
      (run[i].queue[id].state, steps[i].to) in moves
  }

  /** Every move goes to a list that is read no earlier than the one it leaves. */
  ghost predicate FollowsScan(moves: set<(TaskState, TaskState)>) {
    forall a, b :: (a, b) in moves ==> Rank(a) <= Rank(b)
  }

  /** A task not seen yet is still in a list the scan has yet to read. */
  ghost predicate Ahead(s: Scan, id: int, d: string)
    requires id in s.queue
  {
    d in s.live || s.done <= Rank(s.queue[id].state)
  }

  lemma AheadStep(s: Scan, step: Step, id: int, d: string)
    requires Enabled(s, step) && id in s.queue && s.queue[id].deploymentID == d && d != []
    requires id in Apply(s, step).queue
    requires step.Move? && step.id == id ==> Rank(s.queue[id].state) <= Rank(step.to)
    requires Ahead(s, id, d)
    ensures Ahead(Apply(s, step), id, d)
  {
    if step.List? && d !in s.live && s.done == Rank(s.queue[id].state) {
      assert d in Listed(s.queue, LISTERS[s.done]);
    }
  }

  lemma {:induction false} StaysAhead(moves: set<(TaskState, TaskState)>, run: seq<Scan>, steps: seq<Step>,
                                      id: int, d: string, i: nat)
    requires FollowsScan(moves) && IsRun(run, steps) && MovesObey(moves, run, steps, id)
    requires LiveThroughout(run, id, d) && d != [] && i < |run|
    ensures Ahead(run[i], id, d)
  {
    if i > 0 {
      StaysAhead(moves, run, steps, id, d, i - 1);
      var step := steps[i - 1];
      assert step.Move? && step.id == id ==> (run[i - 1].queue[id].state, step.to) in moves;
      AheadStep(run[i - 1], step, id, d);
    }
  }

  /** Safety: under `moves`, no run of the scan misses a task that is live throughout. */
  ghost predicate ScanSeesLiveTasks(moves: set<(TaskState, TaskState)>) {
    forall run: seq<Scan>, steps: seq<Step>, id: int, d: string {:trigger IsRun(run, steps), LiveThroughout(run, id, d)} ::
      IsRun(run, steps) && LiveThroughout(run, id, d) && d != [] && MovesObey(moves, run, steps, id) ==>
        d in run[|steps|].live
  }

  // ----- a move against the order of the scan can hide a task -----

  function HiddenStep(id: int, to: TaskState, i: nat): Step {
    if i == Rank(to) + 1 then Move(id, to) else List
  }

  function HiddenAt(id: int, d: string, from: TaskState, to: TaskState, i: nat): Scan {
    if i <= Rank(to) + 1 then Scan(map[id := Task(d, from)], i, {})
    else Scan(map[id := Task(d, to)], i - 1, {})
  }

  lemma HiddenStays(id: int, d: string, from: TaskState, to: TaskState, i: nat)
    requires Rank(to) < Rank(from) && i <= |LISTERS|
    ensures Enabled(HiddenAt(id, d, from, to, i), HiddenStep(id, to, i))
    ensures Apply(HiddenAt(id, d, from, to, i), HiddenStep(id, to, i)) == HiddenAt(id, d, from, to, i + 1)
  {
    var s := HiddenAt(id, d, from, to, i);
    if i == Rank(to) + 1 {
      assert s.queue[id := s.queue[id].(state := to)] == map[id := Task(d, to)];
    } else {
      assert s.queue[id].state != LISTERS[s.done];
      assert Listed(s.queue, LISTERS[s.done]) == {};
    }
  }

  /** Read the lists up to `to`, move the task there, read the rest. */
  lemma HiddenRun(id: int, d: string, from: TaskState, to: TaskState) returns (run: seq<Scan>, steps: seq<Step>)
    requires Rank(to) < Rank(from)
    ensures IsRun(run, steps) && LiveThroughout(run, id, d) && MovesObey({(from, to)}, run, steps, id)
    ensures run[|steps|].live == {}
  {
    var n := |LISTERS| + 1;
    steps := seq(n, i requires 0 <= i => HiddenStep(id, to, i));
    run := seq(n + 1, i requires 0 <= i => HiddenAt(id, d, from, to, i));
    forall i | 0 <= i < n
      ensures Enabled(run[i], steps[i]) && run[i + 1] == Apply(run[i], steps[i])
    {
      HiddenStays(id, d, from, to, i);
    }
  }

  /**
    The scan is safe exactly when tasks move in the order the lists are read.  A worker's own moves
    (pending, active, retry) do; a task that returns to pending does not, be it scheduled, retried or
    requeued by a worker that shuts down.
    */
  lemma ScanIsSafeIff(moves: set<(TaskState, TaskState)>)
    ensures ScanSeesLiveTasks(moves) <==> FollowsScan(moves)
  {
    if FollowsScan(moves) {
      forall run: seq<Scan>, steps: seq<Step>, id: int, d: string
        | IsRun(run, steps) && LiveThroughout(run, id, d) && d != [] && MovesObey(moves, run, steps, id)
        ensures d in run[|steps|].live
      {
        StaysAhead(moves, run, steps, id, d, |steps|);
      }
    } else {
      var from, to :| (from, to) in moves && Rank(to) < Rank(from);
      var run, steps := HiddenRun(0, "d", from, to);
      assert MovesObey(moves, run, steps, 0);
    }
  }

  /** What a running worker does with a task, short of finishing it. */
  const WORKER_MOVES: set<(TaskState, TaskState)> := {(Pending, Active), (Active, Retry), (Pending, Retry)}

  /** What the queue's forwarder does with a task whose time has come. */
  const FORWARDER_MOVES: set<(TaskState, TaskState)> := {(Scheduled, Pending), (Retry, Pending)}

  /** What a worker that shuts down does with the task it was on. */
  const REQUEUE_MOVES: set<(TaskState, TaskState)> := {(Active, Pending)}

  lemma WorkersAreSafeForwarderIsNot()
    ensures ScanSeesLiveTasks(WORKER_MOVES)
    ensures !ScanSeesLiveTasks(WORKER_MOVES + FORWARDER_MOVES)
    ensures !ScanSeesLiveTasks(WORKER_MOVES + REQUEUE_MOVES)
  {
    ScanIsSafeIff(WORKER_MOVES);
    ScanIsSafeIff(WORKER_MOVES + FORWARDER_MOVES);
    ScanIsSafeIff(WORKER_MOVES + REQUEUE_MOVES);
    assert (Retry, Pending) in WORKER_MOVES + FORWARDER_MOVES;
    assert (Active, Pending) in WORKER_MOVES + REQUEUE_MOVES;
  }

  /** Only deployments that had a task at some moment of the scan are spared. */
  lemma {:induction false} SeenMeansHadTask(run: seq<Scan>, steps: seq<Step>, d: string, n: nat)
    requires IsRun(run, steps) && n <= |steps| && d in run[n].live
    ensures exists i, id :: 0 <= i < n && id in run[i].queue && run[i].queue[id].deploymentID == d
  {
    var step := steps[n - 1];
    if d in run[n - 1].live {
      SeenMeansHadTask(run, steps, d, n - 1);
    } else {
      var id :| id in run[n - 1].queue && run[n - 1].queue[id].deploymentID == d;
    }
  }

  // ----- the code -----

  /** What one lister answers; payloads are given by their deployment ID. */
  datatype Reply = QueueNotFound | Failed | Tasks(payloads: seq<string>)

  const PAGE_SIZE: nat := 500

  function Named(payloads: seq<string>): set<string> {
    set d | d in payloads && d != []
  }

  function NamedInAll(replies: seq<Reply>): set<string> {
    set r, d | r in replies && r.Tasks? && d in r.payloads && d != [] :: d
  }

  /** One lister, page after page until a page is not full. */
  method CollectPages(payloads: seq<string>, before: set<string>) returns (live: set<string>)
    ensures live == before + Named(payloads)
    ensures forall d :: d in live <==> d in before || (d != "" && d in payloads)
  {
    live := before;
    var from := 0;
    while true
      invariant 0 <= from <= |payloads|
      invariant live == before + Named(payloads[..from])
      decreases |payloads| - from, 1
    {
      var to := if from + PAGE_SIZE <= |payloads| then from + PAGE_SIZE else |payloads|;
      var tasks := payloads[from..to];
      for i := 0 to |tasks|
        invariant live == before + Named(payloads[..from + i])
      {
        assert payloads[..from + i + 1] == payloads[..from + i] + [tasks[i]];
        if tasks[i] != [] {
          live := live + {tasks[i]};
        }
      }
      from := to;
      if |tasks| < PAGE_SIZE {
        break;
      }
    }
    assert payloads[..from] == payloads;
  }

  /** None when a listing fails; a queue that does not exist yet counts as empty. */
  method DeploymentsWithLiveTasks(replies: seq<Reply>) returns (r: Option<set<string>>)
    ensures r == if Failed in replies then None else Some(NamedInAll(replies))
    ensures r.Some? ==>
              forall d :: d in r.value <==> d != "" && exists i :: 0 <= i < |replies| && replies[i].Tasks? && d in replies[i].payloads
  {
    var live: set<string> := {};
    for i := 0 to |replies|
      invariant live == NamedInAll(replies[..i]) && Failed !in replies[..i]
    {
      assert replies[..i + 1] == replies[..i] + [replies[i]];
      match replies[i]
      case QueueNotFound =>
      case Failed =>
        return None;
      case Tasks(payloads) =>
        live := CollectPages(payloads, live);
    }
    assert replies[..|replies|] == replies;
    r := Some(live);
  }

  datatype Status = Building | DeploymentFailed | Other

  class DeploymentTable {
    var status: map<string, Status>

    constructor (status: map<string, Status>)
      ensures this.status == status
    {
      this.status := status;
    }
  }

  /** The stale deployments that no live task excuses and whose update succeeds. */
  function Stuck(stale: seq<string>, live: set<string>, updateFails: set<string>): set<string> {
    set d | d in stale && d !in live && d !in updateFails
  }

  function MarkFailed(status: map<string, Status>, ids: set<string>): map<string, Status> {
    status + map d | d in ids :: DeploymentFailed
  }

  lemma MarkOneMore(status: map<string, Status>, ids: set<string>, d: string)
    ensures MarkFailed(status, ids)[d := DeploymentFailed] == MarkFailed(status, ids + {d})
  {
  }

  lemma StuckOneMore(stale: seq<string>, d: string, live: set<string>, updateFails: set<string>)
    requires d !in stale
    ensures var before := Stuck(stale, live, updateFails); var after := Stuck(stale + [d], live, updateFails);
            if d in live || d in updateFails then after == before else d !in before && after == before + {d}
  {
  }

  /**
    `stale` are the primary keys of the BUILDING rows loaded before the scan, `replies` the four
    listings, `updateFails` the rows whose update the database refuses.
    */
  method ReconcileStuckDeployments(table: DeploymentTable, stale: seq<string>, replies: seq<Reply>,
                                   updateFails: set<string>) returns (marked: Option<nat>)
    requires Distinct(stale)
    modifies table
    ensures marked.None? <==> stale != [] && Failed in replies
    ensures marked.None? ==> table.status == old(table.status)
    ensures marked.Some? ==>
              var stuck := Stuck(stale, NamedInAll(replies), updateFails);
              marked.value == |stuck| && table.status == MarkFailed(old(table.status), stuck)
    ensures marked.Some? ==>
              var stuck := Stuck(stale, NamedInAll(replies), updateFails);
              && (forall d :: d in stuck ==> d in table.status && table.status[d] == DeploymentFailed)
              && (forall d :: d !in stuck ==>
                    (d in table.status <==> d in old(table.status)) && (d in table.status ==> table.status[d] == old(table.status)[d]))
  {
    if |stale| == 0 {
      assert Stuck(stale, NamedInAll(replies), updateFails) == {};
      return Some(0);
    }
    var live := DeploymentsWithLiveTasks(replies);
    if live.None? {
      return None;
    }
    var n := 0;
    ghost var stuck: set<string> := {};
    for i := 0 to |stale|
      invariant stuck == Stuck(stale[..i], live.value, updateFails) && n == |stuck|
      invariant table.status == MarkFailed(old(table.status), stuck)
    {
      var d := stale[i];
      assert stale[..i + 1] == stale[..i] + [d];
      StuckOneMore(stale[..i], d, live.value, updateFails);
      if d in live.value || d in updateFails {
        continue;
      }
      MarkOneMore(old(table.status), stuck, d);
      stuck := stuck + {d};
      table.status := table.status[d := DeploymentFailed];
      n := n + 1;
    }
    assert stale[..|stale|] == stale;
    marked := Some(n);
  }

  /** The answer for a list as it is; a queue that does not exist has nothing in it. */
  predicate IsAnswer(reply: Reply, listed: set<string>) {
    match reply
    case Tasks(payloads) => Named(payloads) == listed
    case QueueNotFound => listed == {}
    case Failed => false
  }

  /** `replies` are what the listers answered during `run`: each list as it was when it was read. */
  ghost predicate Answers(replies: seq<Reply>, run: seq<Scan>, steps: seq<Step>)
    requires IsRun(run, steps)
  {
    && |replies| == |LISTERS|
    && forall i {:trigger steps[i]} :: 0 <= i < |steps| && steps[i].List? ==>
         IsAnswer(replies[run[i].done], Listed(run[i].queue, LISTERS[run[i].done]))
  }

  lemma OneLonger<T>(s: seq<T>, k: nat)
    requires k < |s|
    ensures s[..k + 1] == s[..k] + [s[k]]
  {
  }

  lemma NamedInOneMore(replies: seq<Reply>, reply: Reply, listed: set<string>)
    requires IsAnswer(reply, listed)
    ensures NamedInAll(replies + [reply]) == NamedInAll(replies) + listed
  {
  }

  lemma {:induction false} AnswersGiveLive(replies: seq<Reply>, run: seq<Scan>, steps: seq<Step>, n: nat)
    requires IsRun(run, steps) && Answers(replies, run, steps) && n <= |steps|
    ensures run[n].done <= |replies| && run[n].live == NamedInAll(replies[..run[n].done])
  {
    if n > 0 {
      AnswersGiveLive(replies, run, steps, n - 1);
      var k := run[n - 1].done;
      if steps[n - 1].List? {
        OneLonger(replies, k);
        NamedInOneMore(replies[..k], replies[k], Listed(run[n - 1].queue, LISTERS[k]));
      }
    }
  }

  /**
    The scan and the marking together.  Whatever else happens to the queue during the scan, a stale
    deployment whose task is live throughout and moves only as workers move tasks is not marked; one
    that has no task at any moment of the scan is marked unless its update fails.
    */
  lemma ReconcilerIsRight(run: seq<Scan>, steps: seq<Step>, replies: seq<Reply>, stale: seq<string>,
                          updateFails: set<string>, d: string)
    requires IsRun(run, steps) && Answers(replies, run, steps) && d in stale && d != []
    ensures (exists id :: LiveThroughout(run, id, d) && MovesObey(WORKER_MOVES, run, steps, id)) ==>
              d !in Stuck(stale, NamedInAll(replies), updateFails)
    ensures (forall i, id :: 0 <= i < |steps| && id in run[i].queue ==> run[i].queue[id].deploymentID != d) ==>
              (d in Stuck(stale, NamedInAll(replies), updateFails) <==> d !in updateFails)
  {
    AnswersGiveLive(replies, run, steps, |steps|);
    assert replies[..|replies|] == replies;
    ScanIsSafeIff(WORKER_MOVES);
    if d in run[|steps|].live {
      SeenMeansHadTask(run, steps, d, |steps|);
    }
  }
}
