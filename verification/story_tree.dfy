/** Assembly of a complete story from its persisted nodes, as done by
    `get_complete_story` and `build_complete_story_tree` in
    `backend/routers/story.py`. The database is a value: the story rows and
    the node rows in the order the query loads them. Nothing is written. */
module StoryTree {
  import opened Wrappers

  /** `StoryOptionsSchema`: a choice's text and the node it leads to. */
  datatype StoryOption = StoryOption(text: string, nodeId: Option<int>)

  /** A persisted node row, with the story it belongs to and its root flag. */
  datatype StoryNode = StoryNode(
    id: int,
    storyId: int,
    content: string,
    isRoot: bool,
    isEnding: bool,
    isWinningEnding: bool,
    options: seq<StoryOption>)

  /** `CompleteStoryNodeResponse`: a node as presented to the client. */
  datatype NodeResponse = NodeResponse(
    id: int,
    content: string,
    isEnding: bool,
    isWinningEnding: bool,
    options: seq<StoryOption>)

  /** A persisted story row. */
  datatype Story = Story(id: int, title: string, sessionId: Option<string>, createdAt: Timestamp)

  /** `CompleteStoryResponse`. */
  datatype CompleteStory = CompleteStory(
    id: int,
    title: string,
    sessionId: Option<string>,
    createdAt: Timestamp,
    rootNode: NodeResponse,
    allNodes: map<int, NodeResponse>)

  /** The two `HTTPException`s the assembly can raise. */
  datatype HttpError = StoryNotFound | RootNodeNotFound

  /** The HTTP status of each error: a client-facing 404 for a missing
      story, a server-side 500 for a story without a root. */
  function StatusCode(e: HttpError): (code: int)
    ensures code == 404 <==> e == StoryNotFound
    ensures code == 500 <==> e == RootNodeNotFound
  {
    match e
    case StoryNotFound => 404
    case RootNodeNotFound => 500
  }

  /** The story table and the node table, each in load order. */
  datatype Db = Db(stories: seq<Story>, nodes: seq<StoryNode>)

  /** The response value built from one node row. */
  function Present(n: StoryNode): NodeResponse
  {
    NodeResponse(n.id, n.content, n.isEnding, n.isWinningEnding, n.options)
  }

  /** The ids occurring in `nodes`. */
  function Ids(nodes: seq<StoryNode>): set<int>
  {
    set i | 0 <= i < |nodes| :: nodes[i].id
  }

  /** `i` is the last position in `nodes` holding its id. */
  ghost predicate LastWithId(nodes: seq<StoryNode>, i: int)
  {
    0 <= i < |nodes| && forall j :: i < j < |nodes| ==> nodes[j].id != nodes[i].id
  }

  /** The nodes of story `storyId`, in load order: the filter on
      `StoryNode.story_id`. */
  function LoadNodes(table: seq<StoryNode>, storyId: int): (r: seq<StoryNode>)
    ensures forall i :: 0 <= i < |r| ==> r[i].storyId == storyId && r[i] in table
    ensures forall n :: n in table && n.storyId == storyId ==> n in r
    ensures |r| <= |table|
    decreases |table|
  {
    if |table| == 0 then []
    else if table[0].storyId == storyId then [table[0]] + LoadNodes(table[1..], storyId)
    else LoadNodes(table[1..], storyId)
  }

  /** The ids of a sequence extended by one node. */
  lemma IdsSnoc(nodes: seq<StoryNode>)
    requires |nodes| > 0
    ensures Ids(nodes) == Ids(nodes[..|nodes| - 1]) + {nodes[|nodes| - 1].id}
  {
  }

  /** The id-to-node dictionary, filled by assignment in load order, so a
      later node with the same id overwrites an earlier one. */
  function NodeMap(nodes: seq<StoryNode>): (m: map<int, NodeResponse>)
    ensures m.Keys == Ids(nodes)
    decreases |nodes|
  {
    if |nodes| == 0 then map[]
    else
      IdsSnoc(nodes);
      NodeMap(nodes[..|nodes| - 1])[nodes[|nodes| - 1].id := Present(nodes[|nodes| - 1])]
  }

  /** Each entry of the dictionary is the presentation of the last loaded
      node with that id. */
  lemma {:induction false} NodeMapLast(nodes: seq<StoryNode>, i: int)
    requires LastWithId(nodes, i)
    ensures nodes[i].id in NodeMap(nodes)
    ensures NodeMap(nodes)[nodes[i].id] == Present(nodes[i])
    decreases |nodes|
  {
    if i < |nodes| - 1 {
      var init := nodes[..|nodes| - 1];
      assert init[i] == nodes[i];
      assert LastWithId(init, i) by {
        forall j | i < j < |init|
          ensures init[j].id != init[i].id
        {
          assert init[j] == nodes[j];
        }
      }
      NodeMapLast(init, i);
    }
  }

  /** The root node: the first loaded node flagged root. */
  function FirstRoot(nodes: seq<StoryNode>): Option<nat>
  {
    FirstMatch(nodes, (n: StoryNode) => n.isRoot)
  }

  /** The ids of the nodes of story `storyId` in `table`. */
  function StoryNodeIds(table: seq<StoryNode>, storyId: int): set<int>
  {
    set n | n in table && n.storyId == storyId :: n.id
  }

  /** Loading keeps exactly the ids of the story's nodes. */
  lemma LoadedIds(table: seq<StoryNode>, storyId: int)
    ensures Ids(LoadNodes(table, storyId)) == StoryNodeIds(table, storyId)
  {
  }

  /** The loaded nodes hold no root exactly when none of the story's nodes
      is a root. */
  lemma LoadedRoots(table: seq<StoryNode>, storyId: int)
    ensures FirstRoot(LoadNodes(table, storyId)).None? <==>
      forall n :: n in table && n.storyId == storyId ==> !n.isRoot
  {
  }

  /** `root_node` is the `all_nodes` entry for the id of the first node
      of `nodes` flagged root. */
  ghost predicate RootIsFirstRoot(nodes: seq<StoryNode>, t: CompleteStory)
  {
    exists i :: 0 <= i < |nodes| && nodes[i].isRoot
      && (forall j :: 0 <= j < i ==> !nodes[j].isRoot)
      && nodes[i].id in t.allNodes && t.rootNode == t.allNodes[nodes[i].id]
  }

  /** The body of `build_complete_story_tree` after the nodes are loaded:
      map them by id, pick the first root and package everything with the
      story's metadata; no root is the 500 error. */
  function Assemble(nodes: seq<StoryNode>, story: Story): (r: Result<CompleteStory, HttpError>)
    ensures r.Err? ==> r.error == RootNodeNotFound
    ensures r.Err? <==> forall i :: 0 <= i < |nodes| ==> !nodes[i].isRoot
    ensures r.Ok? ==>
      && r.value.id == story.id && r.value.title == story.title
      && r.value.sessionId == story.sessionId && r.value.createdAt == story.createdAt
    ensures r.Ok? ==> r.value.allNodes.Keys == Ids(nodes) && r.value.allNodes == NodeMap(nodes)
    ensures r.Ok? ==> RootIsFirstRoot(nodes, r.value)
  {
    var all := NodeMap(nodes);
    match FirstRoot(nodes)
    case None => Err(RootNodeNotFound)
    case Some(i) =>
      assert nodes[i].id in Ids(nodes);
      Ok(CompleteStory(story.id, story.title, story.sessionId, story.createdAt, all[nodes[i].id], all))
  }

  /** `build_complete_story_tree`: assemble the story's nodes in load
      order; a story none of whose nodes is root is the 500 error. */
  function BuildCompleteStoryTree(table: seq<StoryNode>, story: Story): (r: Result<CompleteStory, HttpError>)
    ensures r.Err? ==> r.error == RootNodeNotFound
    ensures r.Err? <==> forall n :: n in table && n.storyId == story.id ==> !n.isRoot
    ensures r.Ok? ==>
      && r.value.id == story.id && r.value.title == story.title
      && r.value.sessionId == story.sessionId && r.value.createdAt == story.createdAt
    ensures r.Ok? ==> r.value.allNodes.Keys == StoryNodeIds(table, story.id)
    ensures r.Ok? ==> r.value.allNodes == NodeMap(LoadNodes(table, story.id))
    ensures r.Ok? ==> RootIsFirstRoot(LoadNodes(table, story.id), r.value)
  {
    LoadedIds(table, story.id);
    LoadedRoots(table, story.id);
    Assemble(LoadNodes(table, story.id), story)
  }

  /** `get_complete_story`: a story id with no story row is a 404, raised
      before any node is looked at; otherwise the first story row with
      that id is assembled, and a missing root is the distinct 500. */
  function GetCompleteStory(db: Db, storyId: int): (r: Result<CompleteStory, HttpError>)
    ensures r == Err(StoryNotFound) <==> forall k :: 0 <= k < |db.stories| ==> db.stories[k].id != storyId
    ensures r == Err(RootNodeNotFound) <==>
      (exists k :: 0 <= k < |db.stories| && db.stories[k].id == storyId)
      && forall n :: n in db.nodes && n.storyId == storyId ==> !n.isRoot
    ensures r.Ok? ==>
      exists k :: 0 <= k < |db.stories| && db.stories[k].id == storyId
        && r.value.title == db.stories[k].title && r.value.sessionId == db.stories[k].sessionId
        && r.value.createdAt == db.stories[k].createdAt
    ensures r.Ok? ==> r.value.id == storyId
    ensures r.Ok? ==> r.value.allNodes.Keys == StoryNodeIds(db.nodes, storyId)
    ensures r.Ok? ==> r.value.allNodes == NodeMap(LoadNodes(db.nodes, storyId))
    ensures r.Ok? ==> RootIsFirstRoot(LoadNodes(db.nodes, storyId), r.value)
  {
    match FirstMatch(db.stories, (s: Story) => s.id == storyId)
    case None => Err(StoryNotFound)
    case Some(k) => BuildCompleteStoryTree(db.nodes, db.stories[k])
  }

  /** No two nodes share an id. */
  ghost predicate DistinctIds(nodes: seq<StoryNode>)
  {
    forall i, j :: 0 <= i < j < |nodes| ==> nodes[i].id != nodes[j].id
  }

  /** With distinct ids there are as many ids as nodes. */
  lemma {:induction false} DistinctIdsCount(nodes: seq<StoryNode>)
    requires DistinctIds(nodes)
    ensures |Ids(nodes)| == |nodes|
    decreases |nodes|
  {
    if |nodes| > 0 {
      var init := nodes[..|nodes| - 1];
      assert DistinctIds(init) by {
        assert forall i :: 0 <= i < |init| ==> init[i] == nodes[i];
      }
      DistinctIdsCount(init);
      IdsSnoc(nodes);
      assert nodes[|nodes| - 1].id !in Ids(init);
    }
  }

  /** N loaded nodes with distinct ids, exactly one of them flagged root,
      assemble to a response with N entries whose root is that node. */
  lemma SingleRootTree(nodes: seq<StoryNode>, story: Story, root: int)
    requires DistinctIds(nodes)
    requires 0 <= root < |nodes|
    requires forall i :: 0 <= i < |nodes| ==> (nodes[i].isRoot <==> i == root)
    ensures Assemble(nodes, story).Ok?
    ensures |Assemble(nodes, story).value.allNodes| == |nodes|
    ensures Assemble(nodes, story).value.rootNode == Present(nodes[root])
  {
    DistinctIdsCount(nodes);
    var first := FirstRoot(nodes);
    assert nodes[root].isRoot;
    assert first.Some? && nodes[first.value].isRoot;
    NodeMapLast(nodes, root);
  }

  /** The worked example: story 7 with a root node 1 whose one option leads
      to node 2, a winning ending. */
  lemma WorkedExample()
    ensures var a := StoryNode(1, 7, "start", true, false, false, [StoryOption("go", Some(2))]);
      var b := StoryNode(2, 7, "end", false, true, true, []);
      var db := Db([Story(7, "tale", Some("s"), 0)], [a, b]);
      var r := GetCompleteStory(db, 7);
      && r.Ok?
      && r.value.rootNode == Present(a)
      && r.value.allNodes == map[1 := Present(a), 2 := Present(b)]
      && r.value.allNodes[r.value.rootNode.options[0].nodeId.value] == Present(b)
  {
  }

  /** A story that exists but has no nodes at all is the 500 error, not
      the 404. */
  lemma EmptyStoryIsRootError(db: Db, storyId: int)
    requires exists k :: 0 <= k < |db.stories| && db.stories[k].id == storyId
    requires forall n :: n in db.nodes ==> n.storyId != storyId
    ensures GetCompleteStory(db, storyId) == Err(RootNodeNotFound)
    ensures StatusCode(GetCompleteStory(db, storyId).error) == 500
  {
  }
}
