/** The story-generation job lifecycle of `backend/routers/story.py`:
    `create_story` inserts a pending job and queues a background task;
    `generate_story_task` moves the job to "processing", calls the story
    generator and records "completed" or "failed". The database is a map
    from job id to record, each `db.commit()` is a snapshot of that map, and
    the generator, the fresh uuid and the clock are parameters. */
module Jobs {
  import opened Wrappers

  /** The four values the `status` column takes. */
  datatype Status = Pending | Processing | Completed | Failed

  /** The literal string the source stores for each status. */
  function StatusName(s: Status): string
  {
    match s
    case Pending => "pending"
    case Processing => "processing"
    case Completed => "completed"
    case Failed => "failed"
  }

  /** Distinct statuses are stored as distinct strings, so the enumeration
      loses nothing the string column distinguishes. */
  lemma StatusNamesDistinct(a: Status, b: Status)
    ensures StatusName(a) == StatusName(b) ==> a == b
  {
  }

  /** One row of the job table, shaped like `StoryJobResponse` plus the
      session id and theme the router stores. */
  datatype Job = Job(
    jobId: string,
    sessionId: string,
    theme: string,
    status: Status,
    createdAt: Timestamp,
    storyId: Option<int>,
    completedAt: Option<Timestamp>,
    error: Option<string>)

  /** The job table, keyed by job id. */
  type Store = map<string, Job>

  /** What `StoryGenerator.generate_story` does: return a story whose id is
      `storyId`, or raise an exception whose `str` is `msg`. */
  datatype Outcome = Generated(storyId: int) | Raised(msg: string)

  /** The arguments `create_story` hands to `background_tasks.add_task`. */
  datatype Task = Task(jobId: string, theme: string, sessionId: string)

  predicate Terminal(s: Status)
  {
    s == Completed || s == Failed
  }

  /** The record invariant: which optional fields are set in each status. */
  predicate WellFormed(j: Job)
  {
    match j.status
    case Pending | Processing =>
      j.storyId.None? && j.completedAt.None? && j.error.None?
    case Completed =>
      j.storyId.Some? && j.completedAt.Some? && j.error.None?
    case Failed =>
      j.storyId.None? && j.completedAt.Some? && j.error.Some?
  }

  /** Every row is well formed and filed under its own id. */
  predicate StoreWellFormed(store: Store)
  {
    forall id :: id in store ==> store[id].jobId == id && WellFormed(store[id])
  }

  /** `b` differs from `a` at most in the row `id`. */
  predicate OnlyChanged(a: Store, b: Store, id: string)
  {
    a.Keys == b.Keys && forall k :: k in a && k != id ==> b[k] == a[k]
  }

  /** Every field but the status is the same. */
  predicate SameButStatus(a: Job, b: Job)
  {
    a.jobId == b.jobId && a.sessionId == b.sessionId && a.theme == b.theme
    && a.createdAt == b.createdAt && a.storyId == b.storyId
    && a.completedAt == b.completedAt && a.error == b.error
  }

  /** Creating a job: a pending record with the fresh id, the caller's
      session and theme, and no story, completion time or error; it is
      committed and returned, together with the task queued for it.
      `jobId` is the fresh `uuid4` and `now` the insert time. */
  function CreateStory(store: Store, jobId: string, sessionId: string, theme: string, now: Timestamp)
    : (r: (Store, Job, Task))
    requires jobId !in store
    ensures r.0.Keys == store.Keys + {jobId}
    ensures r.0[jobId] == r.1
    ensures forall k :: k in store ==> r.0[k] == store[k]
    ensures r.1.jobId == jobId && r.1.sessionId == sessionId && r.1.theme == theme
    ensures r.1.status == Pending && r.1.createdAt == now
    ensures r.1.storyId.None? && r.1.completedAt.None? && r.1.error.None?
    ensures r.2 == Task(jobId, theme, sessionId)
    ensures StoreWellFormed(store) ==> StoreWellFormed(r.0)
  {
    var job := Job(jobId, sessionId, theme, Pending, now, None, None, None);
    (store[jobId := job], job, Task(jobId, theme, sessionId))
  }

  /** The first committed step of the task: status becomes "processing". */
  function StartProcessing(j: Job): (r: Job)
    ensures r.status == Processing && SameButStatus(j, r)
    ensures j.status == Pending && WellFormed(j) ==> WellFormed(r)
  {
    j.(status := Processing)
  }

  /** The second committed step: the terminal status chosen by the
      generator's outcome. On success the story id and completion time are
      set and the error is left alone; on failure the completion time and
      error are set and the story id is left alone. */
  function Finish(j: Job, outcome: Outcome, now: Timestamp): (r: Job)
    ensures Terminal(r.status)
    ensures r.status == Completed <==> outcome.Generated?
    ensures r.jobId == j.jobId && r.sessionId == j.sessionId && r.theme == j.theme
    ensures r.createdAt == j.createdAt && r.completedAt == Some(now)
    ensures outcome.Generated? ==> r.storyId == Some(outcome.storyId) && r.error == j.error
    ensures outcome.Raised? ==> r.error == Some(outcome.msg) && r.storyId == j.storyId
    ensures WellFormed(j) && !Terminal(j.status) ==> WellFormed(r)
  {
    match outcome
    case Generated(sid) =>
      j.(storyId := Some(sid), status := Completed, completedAt := Some(now))
    case Raised(msg) =>
      j.(status := Failed, completedAt := Some(now), error := Some(msg))
  }

  /** `generate_story_task`: the list of snapshots committed, in order. An
      absent job commits nothing; otherwise the "processing" state and the
      terminal state are committed separately. `outcome` is what the
      generator does when called with the task's session id and theme;
      `now` is the clock at the terminal step. */
  function RunTask(store: Store, task: Task, outcome: Outcome, now: Timestamp): (commits: seq<Store>)
    ensures task.jobId !in store <==> commits == []
    ensures task.jobId in store ==> |commits| == 2
    ensures forall i :: 0 <= i < |commits| ==> OnlyChanged(store, commits[i], task.jobId)
    ensures task.jobId in store ==>
      task.jobId in commits[0] && task.jobId in commits[1]
      && commits[0][task.jobId].status == Processing
      && SameButStatus(store[task.jobId], commits[0][task.jobId])
    ensures task.jobId in store ==>
      commits[1][task.jobId] == Finish(commits[0][task.jobId], outcome, now)
  {
    if task.jobId !in store then []
    else
      var processing := StartProcessing(store[task.jobId]);
      var first := store[task.jobId := processing];
      [first, first[task.jobId := Finish(processing, outcome, now)]]
  }

  /** The table after the task has returned. */
  function After(store: Store, commits: seq<Store>): Store
  {
    if commits == [] then store else commits[|commits| - 1]
  }

  /** The statuses of job `id` a poller can observe: the stored one, then
      the one in each commit. */
  function Observed(store: Store, commits: seq<Store>, id: string): (r: seq<Status>)
    requires id in store
    requires forall i :: 0 <= i < |commits| ==> id in commits[i]
    ensures |r| == |commits| + 1
    ensures r[0] == store[id].status
    ensures forall i :: 0 <= i < |commits| ==> r[i + 1] == commits[i][id].status
    decreases |commits|
  {
    if commits == [] then [store[id].status]
    else Observed(store, commits[..|commits| - 1], id) + [commits[|commits| - 1][id].status]
  }

  /** Running the task for a job that is not in the table changes nothing
      and reports nothing. */
  lemma AbsentJobIsNoOp(store: Store, task: Task, outcome: Outcome, now: Timestamp)
    requires task.jobId !in store
    ensures RunTask(store, task, outcome, now) == []
    ensures After(store, RunTask(store, task, outcome, now)) == store
  {
  }

  /** A created job, once its task runs, is seen as pending, processing and
      then completed or failed -- completed exactly when the generator
      succeeds -- with the result fields that outcome dictates. */
  lemma Lifecycle(store: Store, jobId: string, sessionId: string, theme: string,
                  created: Timestamp, outcome: Outcome, now: Timestamp)
    requires jobId !in store
    ensures var (s1, job, task) := CreateStory(store, jobId, sessionId, theme, created);
      var commits := RunTask(s1, task, outcome, now);
      var fin := After(s1, commits)[jobId];
      && Observed(s1, commits, jobId) ==
           [Pending, Processing, if outcome.Generated? then Completed else Failed]
      && (outcome.Generated? ==>
            fin.storyId == Some(outcome.storyId) && fin.error.None? && fin.completedAt == Some(now))
      && (outcome.Raised? ==>
            fin.storyId.None? && fin.error == Some(outcome.msg) && fin.completedAt == Some(now))
      && OnlyChanged(s1, After(s1, commits), jobId)
  {
  }

  /** Every snapshot the task commits for a pending, well-formed job keeps
      the record invariant. */
  lemma RunTaskKeepsWellFormed(store: Store, task: Task, outcome: Outcome, now: Timestamp)
    requires StoreWellFormed(store)
    requires task.jobId in store ==> store[task.jobId].status == Pending
    ensures forall i :: 0 <= i < |RunTask(store, task, outcome, now)| ==>
      StoreWellFormed(RunTask(store, task, outcome, now)[i])
  {
  }

  /** The service as a transition system: the job table plus the tasks
      queued by `create_story` and not yet run. */
  datatype System = System(store: Store, queue: seq<Task>)

  /** Queued task ids are distinct. */
  ghost predicate QueueDistinct(q: seq<Task>)
  {
    forall i, j :: 0 <= i < j < |q| ==> q[i].jobId != q[j].jobId
  }

  predicate Queued(q: seq<Task>, id: string)
  {
    exists i :: 0 <= i < |q| && q[i].jobId == id
  }

  /** Between events: every row is well formed, a job is pending exactly
      when its task is still queued, no job rests in "processing", and
      every queued task has its row. */
  ghost predicate Inv(sys: System)
  {
    && StoreWellFormed(sys.store)
    && QueueDistinct(sys.queue)
    && (forall i :: 0 <= i < |sys.queue| ==>
          sys.queue[i].jobId in sys.store && sys.store[sys.queue[i].jobId].status == Pending)
    && (forall id :: id in sys.store && sys.store[id].status == Pending ==> Queued(sys.queue, id))
    && (forall id :: id in sys.store ==> sys.store[id].status != Processing)
  }

  function Init(): (sys: System)
    ensures Inv(sys)
  {
    System(map[], [])
  }

  /** `create_story` as an event: insert the job and queue its task. */
  function Submit(sys: System, jobId: string, sessionId: string, theme: string, now: Timestamp)
    : (r: System)
    requires jobId !in sys.store
    ensures jobId in r.store && r.store[jobId].status == Pending
    ensures r.store[jobId] == CreateStory(sys.store, jobId, sessionId, theme, now).1
    ensures r.store.Keys == sys.store.Keys + {jobId}
    ensures forall k :: k in sys.store ==> r.store[k] == sys.store[k]
    ensures |r.queue| == |sys.queue| + 1 && r.queue[..|sys.queue|] == sys.queue
    ensures r.queue[|sys.queue|] == Task(jobId, theme, sessionId)
    ensures Queued(r.queue, jobId)
  {
    var (store, _, task) := CreateStory(sys.store, jobId, sessionId, theme, now);
    var queue := sys.queue + [task];
    assert queue[|sys.queue|].jobId == jobId;
    System(store, queue)
  }

  /** The background scheduler runs the `k`-th queued task to completion;
      tasks of different jobs may run in any order. */
  function Execute(sys: System, k: nat, outcome: Outcome, now: Timestamp): (r: System)
    requires k < |sys.queue|
    ensures r.queue == sys.queue[..k] + sys.queue[k + 1..]
    ensures OnlyChanged(sys.store, r.store, sys.queue[k].jobId)
    ensures sys.queue[k].jobId !in sys.store ==> r.store == sys.store
    ensures sys.queue[k].jobId in sys.store ==>
      sys.queue[k].jobId in r.store
      && r.store[sys.queue[k].jobId].status == (if outcome.Generated? then Completed else Failed)
      && r.store[sys.queue[k].jobId] == Finish(StartProcessing(sys.store[sys.queue[k].jobId]), outcome, now)
  {
    var commits := RunTask(sys.store, sys.queue[k], outcome, now);
    System(After(sys.store, commits), sys.queue[..k] + sys.queue[k + 1..])
  }

  lemma SubmitKeepsInv(sys: System, jobId: string, sessionId: string, theme: string, now: Timestamp)
    requires Inv(sys) && jobId !in sys.store
    ensures Inv(Submit(sys, jobId, sessionId, theme, now))
  {
  }

  /** Dropping the `k`-th task of a distinct queue leaves a distinct queue
      that holds every other job id and not the dropped one. */
  lemma {:induction false} DropQueued(q: seq<Task>, k: nat)
    requires QueueDistinct(q) && k < |q|
    ensures QueueDistinct(q[..k] + q[k + 1..])
    ensures !Queued(q[..k] + q[k + 1..], q[k].jobId)
    ensures forall id :: Queued(q, id) && id != q[k].jobId ==> Queued(q[..k] + q[k + 1..], id)
  {
    var r := q[..k] + q[k + 1..];
    assert forall i :: 0 <= i < |r| ==> r[i] == (if i < k then q[i] else q[i + 1]);
    forall id | Queued(q, id) && id != q[k].jobId
      ensures Queued(r, id)
    {
      var i :| 0 <= i < |q| && q[i].jobId == id;
      if i < k { assert r[i] == q[i]; }
      else { assert r[i - 1] == q[i]; }
    }
  }

  lemma ExecuteKeepsInv(sys: System, k: nat, outcome: Outcome, now: Timestamp)
    requires Inv(sys) && k < |sys.queue|
    ensures Inv(Execute(sys, k, outcome, now))
  {
    var task := sys.queue[k];
    RunTaskKeepsWellFormed(sys.store, task, outcome, now);
    DropQueued(sys.queue, k);
    var r := Execute(sys, k, outcome, now);
    assert r.store == RunTask(sys.store, task, outcome, now)[1];
    assert r.store[task.jobId].status != Pending;
  }

  /** Once a job is completed or failed, no later event changes its row. */
  lemma TerminalIsFinal(sys: System, k: nat, outcome: Outcome, now: Timestamp, id: string)
    requires Inv(sys) && k < |sys.queue|
    requires id in sys.store && Terminal(sys.store[id].status)
    ensures id in Execute(sys, k, outcome, now).store
    ensures Execute(sys, k, outcome, now).store[id] == sys.store[id]
  {
  }
}
