# Story jobs and story-tree assembly, in Dafny

This project models the two pieces of logic in the story router of the
adventure-story backend (`backend/routers/story.py`):

- **The story-generation job lifecycle.** `create_story` inserts a job row
  in status `"pending"`, queues a background task and returns the row.
  `generate_story_task` looks the job up and stops silently if it is
  absent. Otherwise it commits status `"processing"` and calls the story
  generator. It then commits either `"completed"` with the story id and
  completion time, or `"failed"` with the completion time and the
  exception's text.
- **Complete-story assembly.** `get_complete_story` answers 404 when the
  story does not exist. `build_complete_story_tree` loads the story's nodes,
  builds an id-to-node dictionary in load order, picks the first node
  flagged root (500 when there is none) and returns the story's metadata,
  the root node and the whole dictionary.

Modules:

- `Wrappers` (`wrappers.dfy`): `Option`, `Result`, the `Timestamp` type and
  `FirstMatch`, the first-match search behind both `query(...).first()` and
  `next(..., None)`.
- `Jobs` (`jobs.dfy`): the job row, the job table as a `map` from job id to
  row, creation, the two-commit task, and the service as a transition
  system (the table plus the queue of background tasks).
- `StoryTree` (`story_tree.dfy`): node, option, story and response shapes,
  node loading, the id-to-node dictionary, root selection and the two HTTP
  errors.

Abstractions:

- The database is a value. Each `db.commit()` of the task is a snapshot of
  the job table, and `RunTask` returns the list of snapshots it commits.
- The generator is a parameter `Outcome`. It is either `Generated(storyId)`
  or `Raised(msg)`, where `msg` stands for `str(e)`.
- The fresh `uuid4` job id and `datetime.now()` are parameters.
- The job's `created_at` is filled in by the job table model
  (`models/job.py`), which is not part of this model. It is a parameter of
  `CreateStory` too.
- Background scheduling is sequential. `Execute` runs one queued task to the
  end, and queued tasks may run in any order.

In these places the code does something one might not expect; the model
follows the code:

- The task sets `"processing"` whatever the row's current status is.
- The success path leaves `error` as it was, and the failure path leaves
  `story_id` as it was.
- The "completed implies no error, failed implies no story" invariant
  therefore holds because every job starts pending and its task runs once.
  `Inv` and the `Jobs` lemmas prove exactly that.
- `root_node` is `node_dict[root.id]`. If two loaded nodes share the root's
  id, that entry is the later of the two, not necessarily the node flagged
  root. `Assemble` and `NodeMapLast` together state this.

## Model

| member | source | states |
|---|---|---|
| Wrappers.FirstMatch | backend/routers/story.py:117 | the index returned satisfies the predicate and no earlier element does; none is returned exactly when no element satisfies it |
| Jobs.CreateStory | backend/routers/story.py:38-52 | the new row carries the fresh id, the session id and theme, status pending and no story, completion time or error; it is added under its id, every other row is unchanged, it is what is returned, the task queued carries the same id, theme and session; a well-formed table stays well formed |
| Jobs.StartProcessing | backend/routers/story.py:70-72 | the first commit changes only the status, to processing; a well-formed pending job stays well formed |
| Jobs.StatusNamesDistinct | backend/routers/story.py:41-81 | the four status strings the router stores are pairwise distinct, so modelling them as an enumeration loses nothing |
| Jobs.Finish | backend/routers/story.py:74-84 | the terminal commit is completed exactly when generation succeeded: then story id and completion time are set and the error untouched; on failure the status is failed, completion time and error text are set and the story id untouched; a well-formed non-terminal job ends well formed |
| Jobs.RunTask | backend/routers/story.py:59-86 | an absent job commits nothing; otherwise exactly two commits, the first with status processing and every other field unchanged, the second the terminal step; no commit touches another row or adds or removes a row |
| Jobs.Observed | backend/routers/story.py:64-84 | the observed status sequence has one entry per commit plus the initial status, each entry the job's status in that snapshot |
| Jobs.AbsentJobIsNoOp | backend/routers/story.py:64-67 | running the task for a job id not in the table commits nothing and leaves the table unchanged |
| Jobs.Lifecycle | backend/routers/story.py:38-86 | a created job is observed as pending, processing, then completed exactly when generation succeeds and failed otherwise; on success story id and completion time are set and error unset, on failure error is the message, completion time set and story id unset; no other row changes |
| Jobs.RunTaskKeepsWellFormed | backend/routers/story.py:70-84 | both snapshots the task commits for a pending job keep every row well formed (completed has a story and no error, failed has an error and no story, others neither) |
| Jobs.Submit | backend/routers/story.py:38-50 | the job is added under its id as exactly the row `create_story` builds (fresh id, session id, theme, pending, no result fields), every earlier row is unchanged, and its task is appended to the queue, the earlier queue kept in order |
| Jobs.Execute | backend/routers/story.py:48-86 | exactly the `k`-th queued task leaves the queue; no row but its job's changes; an absent job leaves the table as it was; a present job ends as the processing step followed by the terminal step: completed with the story id when generation succeeded, failed with the error text otherwise, completion time set and other fields kept |
| Jobs.SubmitKeepsInv | backend/routers/story.py:38-50 | submission keeps the system invariant: rows well formed, a job pending exactly when its task is queued, none resting in processing |
| Jobs.ExecuteKeepsInv | backend/routers/story.py:59-86 | running any queued task keeps the system invariant |
| Jobs.TerminalIsFinal | backend/routers/story.py:77-84 | a completed or failed job is never changed by a later task run, so the two terminal states are final and exclusive |
| StoryTree.LoadNodes | backend/routers/story.py:100 | every loaded node comes from the table and belongs to the story, and every node of the story in the table is loaded |
| StoryTree.NodeMap | backend/routers/story.py:102-111 | the dictionary's keys are exactly the loaded node ids |
| StoryTree.NodeMapLast | backend/routers/story.py:103-111 | the entry for an id copies content, ending flags and options of the last loaded node with that id (the conversion of lines 104-110, `Present`) |
| StoryTree.LoadedIds | backend/routers/story.py:100-111 | the ids of the loaded nodes are exactly the ids of the story's nodes in the table |
| StoryTree.LoadedRoots | backend/routers/story.py:100-117 | root selection finds nothing exactly when none of the story's nodes is flagged root |
| StoryTree.BuildCompleteStoryTree | backend/routers/story.py:99-128 | fails, with the root-not-found error, exactly when no node of the story is flagged root; on success id, title, session id and creation time are the story's, `all_nodes` is the dictionary of the story's loaded nodes with exactly their ids as keys, and `root_node` is its entry for the id of the first loaded node flagged root |
| StoryTree.GetCompleteStory | backend/routers/story.py:89-96 | 404 exactly when no story row has the id; 500 exactly when the story exists and none of its nodes is root; a success carries the requested id and the metadata of a story row with that id, `all_nodes` equal to the dictionary of that story's loaded nodes (so each entry is the last loaded node with its id) with exactly their ids as keys, and `root_node` the entry for the first loaded root |
| StoryTree.StatusCode | backend/routers/story.py:92-93 | a missing story is the only error reported as 404, and a story without a root node is the only one reported as 500 (lines 118-119) |
| StoryTree.Assemble | backend/routers/story.py:102-128 | fails, with the root-not-found error, exactly when no loaded node is flagged root; on success the metadata is the story's, `all_nodes` is the id-to-node dictionary with exactly the loaded ids as keys, and `root_node` is the entry for the id of the first loaded node flagged root (the root search of line 117, `FirstRoot`) |
| StoryTree.SingleRootTree | backend/routers/story.py:102-128 | N loaded nodes with distinct ids and exactly one root assemble to a response with N entries whose root node is that node |
| StoryTree.DistinctIdsCount | backend/routers/story.py:102-111 | nodes with pairwise distinct ids give as many dictionary keys as nodes |
| StoryTree.WorkedExample | backend/routers/story.py:89-128 | story 7 with a root node whose single option leads to a winning ending assembles to that root, a two-entry dictionary, and the option resolves to the ending |
| StoryTree.EmptyStoryIsRootError | backend/routers/story.py:117-119 | an existing story with no nodes is the 500 root error, not the 404 |

## Left out

- FastAPI routing, the `Response`/`Cookie` handling, `set_cookie` and `get_session_id`'s cookie defaulting (backend/routers/story.py:22-25, 36). These are transport glue, so the session id is a plain parameter.
- SQLAlchemy session creation, `close` and query mechanics. The tables are values, and a commit is a snapshot.
- A `db.commit()` that raises, or a generator error that leaves the shared session unusable, is not modelled. Two source behaviours follow from it. First, if the terminal commit of the failure path (backend/routers/story.py:84) raises, the exception escapes `generate_story_task`, because the outer `try` (63-86) has only a `finally`; the row keeps its last committed status, `"processing"`. Second, if the success commit (79) raises, the handler's own commit (84) may raise as well, since a session whose flush failed normally refuses further commits until it is rolled back; the row is then left `"processing"` as in the first case. If the session does accept that commit, the row is recorded `"failed"` with the `story_id` already assigned at line 76, which would break the `Failed` case of `WellFormed`.
- `BackgroundTasks` scheduling and concurrency between jobs. Tasks run one at a time, in any order.
- Jobs.Execute: runs a task through its terminal commit in one step, and `Outcome` has only the two cases "returned" and "raised an `Exception`". So `Inv`'s "no job rests in processing" and the three-status sequence of `Lifecycle` do not cover two source behaviours. A generator call that never returns leaves the job `"processing"` for good, because there is no timeout. An exception that is not an `Exception` subclass is not caught at line 80, so it escapes and also leaves the job `"processing"`.
- `StoryGenerator.generate_story` is not part of this model. Its effect is the `Outcome` parameter.
- `uuid.uuid4()` and `datetime.now()` are parameters. Their freshness is the `jobId !in store` precondition.
- Pydantic validation, defaults and `from_attributes` conversion. The schemas only shape the datatypes. Status strings are an enumeration, and `StatusName` gives the stored text. The `detail` texts of the two HTTP errors are not modelled; `StatusCode` gives their codes.
- Fetching a job's status by id (a route outside this file) is not modelled.
