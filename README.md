# Unity3MXLoader streaming core, modelled in Dafny

Unity3MXLoader streams a 3MX scene (a tree of 3MXB tiles) into Unity. Every frame it
processes the scene's root nodes, nearest first. Each root node's child tiles load their
3MXB files in background tasks. Each tile node then decides whether to refine into its
child tiles, to show itself, or to wait for its tile's load. Nodes that have been replaced
by their children are unloaded at the end of the frame.

The project models that streaming engine, without rendering:

- `url_utils.dfy` (`UrlUtils`): URL legality, the base URL and file name of a URL, and the
  prefix rewrite a GET applies.
- `data_struct.dfy` (`DataStruct`): the header records `NodeInfo`, `ResourceInfo`,
  `HeaderInfo` and `MeshData`, with their JSON form as a parsed tree. The round-trip lemmas
  show that exactly the non-ignored fields survive serialization.
- `task_pool.dfy` (`TaskPool`): the four-state task life cycle (class `Task`) and the
  bounded pool (class `Pool`). The pool's tick drops finished and cancelled tasks and
  starts waiting ones, in order, up to `maxTasks`.
- `loader.dfy`:
  - `Loader`: a tile's loader handle, which holds at most one task.
  - `Decoder`: the body of a load task. It picks the route, then decodes the 3MXB stream:
    magic, header length, JSON header, resource payloads, node bounds and CTM meshes. It
    notifies `onError`/`onLoad` and observes cancellation at every checkpoint. The decoder
    methods are imperative, with loops over a read position and arrays. Each is proved
    equal to a specification function. The lemmas are stated about those functions.
- `tile.dfy` (`Tiles`): a tile's resource state machine (`Unloaded`, `Loading`,
  `Processing`, `Ready`, `Failed`) with its retry budget, its resource cache and its nodes.
  It also models the tile node's refine/show/wait rule, showing and unloading with the
  `readyNodes` bookkeeping, recursive unload and destroy, and the deferred-unload list with
  its ancestor walk.
- `root_node.dfy` (`RootNodes`): first-visit deferral, the visible and hidden branches, and
  destroy.
- `component.dfy` (`Component`): the per-frame update. It applies the interval check and
  the readiness guard, sorts the roots by camera distance, processes them and drains the
  deferred-unload list. It also models `Run`, loading the roots, `Clear`, and the routing
  of a finished task's notifications back to its tile.

The tile tree is a value. Each operation on a tile or node returns the new tile or node.
What an operation does outside its subtree is returned in a `Ctx`:

- the component's deferred-unload list, as `Ref`s naming nodes by their position in the
  tree;
- the name of the next load task;
- the `Submit`/`CancelTask` commands addressed to the task pool.

The camera is an input (`Camera`, `View`). So are the JSON text parser, the OpenCTM
decoder, the square root and the transport (`Env`, and `fetch`). Cancellation is a function
from checkpoint to flag (`Env.canceled`). The end of a background task is the explicit
event `TaskFinished`.

The model follows the code as written, including these points:

- An unsupported resource type or buffer format is reported through `onError`, and the
  resource loop `continue`s without reading its payload (Unity3MXBLoader.cs:199-218). The
  following resources are read from where that payload begins
  (`Decoder.UnsupportedResourceSkipped` states that nothing is consumed).
- That report sets the tile `Failed` (Unity3MXTile.cs:132-138). The header delivered after
  it is then dropped, because `onLoad` moves only a `Loading` tile on
  (Unity3MXTile.cs:141-158; `Decoder.UnsupportedThenLoaded` together with
  `Tiles.ErrorLeavesTileFailed`).
- Cancellation is checked before each resource and before each node, and once more before
  `onLoad` (Unity3MXBLoader.cs:187-247). Nothing is checked after a resource or a node.
- A texture takes `ReadBytes(size)` (Unity3MXBLoader.cs:197), which returns fewer bytes at
  the end of the stream. The model does the same.
- The roots are ordered by `List.Sort` with `compareRootNode`
  (Unity3MXComponent.cs:132, 159-166). That call does not fix the order of roots at equal
  distance. The model sorts with an insertion sort that keeps such roots in their input
  order (`Component.SortKeepsTies`).
- A failed tile within its retry budget counts a retry, logs "retry load" and calls
  `loadResource` again (Unity3MXTile.cs:225-230). As written, that call submits no task
  (see Findings).

There is one exception. A finished task is routed back to its tile
(`Tiles.TaskFinishedAt`, `RootNodes.TaskFinishedBelow`, `Component.RouteTask`,
`Component.Component.TaskFinished`) through the corrected loader of the Finding, which
forgets the finished task. The code as written is modelled beside it
(`Tiles.TaskFinishedAsWritten`).

Some names in the source files do not match each other, and are read as one member:
`bsRadius` is `NodeInfo.boundingSphereRadius`, `rootNode.Update` is
`Unity3MXRootNode.Process`, and `UrlUtils.GetBaseUrl` is `ExtractBaseUrl`.

## Model

| member | source | states |
|---|---|---|
| UrlUtils.IsLegalUrl | Assets/Unity3MXLoader/Utils.cs:16-21 | a URL is legal exactly when it is neither null nor empty |
| UrlUtils.CheckUrl | Assets/Unity3MXLoader/Utils.cs:23-33 | the verdict is the legality; the error callback gets the message "This url … is illeagl." once when the URL is illegal, and nothing otherwise |
| UrlUtils.ExtractBaseUrl | Assets/Unity3MXLoader/Utils.cs:35-49 | the loop yields the same URI with its path cut to all segments but the last; query and fragment are kept, and so is the trailing '/' |
| UrlUtils.BasePathThenLastSegment | Assets/Unity3MXLoader/Utils.cs:39-42 | the base path followed by the last segment is the whole path |
| UrlUtils.BasePathKeepsTrailingSlash | Assets/Unity3MXLoader/Utils.cs:43-45 | the discarded `TrimEnd` leaves the base path ending in '/' when its last kept segment does |
| UrlUtils.LastIndexOf | Assets/Unity3MXLoader/Utils.cs:55 | the result is -1 or a position of the character, and no occurrence follows it |
| UrlUtils.ExtractFileName | Assets/Unity3MXLoader/Utils.cs:51-62 | a name exists exactly when the URI has a segment; it is the unescaped last segment cut just before its last '?', or the whole segment when it has none |
| UrlUtils.Get | Assets/Unity3MXLoader/Utils.cs:67-80 | an illegal URL is never requested and reports the check's message; "file:///" + rest is sent as "file:///" + escape(rest), "file://" + rest as "file:////" + rest, and anything else unchanged |
| UrlUtils.ShareRewriteKeepsRest | Assets/Unity3MXLoader/Utils.cs:76-80 | a shared-folder URL keeps everything that followed "file://" |
| DataStruct.NewNodeInfo | Assets/Unity3MXLoader/DataStruct.cs:12-32 | a new node has a null id, empty box, child and resource lists, a zero diameter, and default bounds and radius |
| DataStruct.NewResourceInfo | Assets/Unity3MXLoader/DataStruct.cs:45-69 | a new resource has null strings, size 0, empty boxes and no payload |
| DataStruct.NewHeaderInfo | Assets/Unity3MXLoader/DataStruct.cs:82-91 | a new header has no url, version 0, and empty node and resource lists |
| DataStruct.EmptyObjectIsNewNode | Assets/Unity3MXLoader/DataStruct.cs:39-42 | reading an empty JSON object gives exactly a new node |
| DataStruct.DecodeFloatsRoundTrip | Assets/Unity3MXLoader/DataStruct.cs:17-20 | a float list reads back as written |
| DataStruct.DecodeStringsRoundTrip | Assets/Unity3MXLoader/DataStruct.cs:24-26 | a string list reads back as written |
| DataStruct.StringRoundTrip | Assets/Unity3MXLoader/DataStruct.cs:14 | a string member, null included, reads back as written |
| DataStruct.NodeMembersRead | Assets/Unity3MXLoader/DataStruct.cs:34-42 | each member written for a node is the one the reader finds under that name |
| DataStruct.NodeRoundTrip | Assets/Unity3MXLoader/DataStruct.cs:34-42 | FromJson(ToJson(node)) is the node with only `bounds` and `boundingSphereRadius` reset |
| DataStruct.ResourceMembersRead | Assets/Unity3MXLoader/DataStruct.cs:71-79 | each member written for a resource is the one the reader finds under that name |
| DataStruct.ResourceRoundTrip | Assets/Unity3MXLoader/DataStruct.cs:71-79 | FromJson(ToJson(resource)) is the resource with only `textureData` and `meshData` reset |
| DataStruct.DecodeNodesRoundTrip | Assets/Unity3MXLoader/DataStruct.cs:89 | a node list reads back as written, minus each node's ignored fields |
| DataStruct.DecodeResourcesRoundTrip | Assets/Unity3MXLoader/DataStruct.cs:91 | a resource list reads back as written, minus each resource's payload |
| DataStruct.HeaderRoundTrip | Assets/Unity3MXLoader/DataStruct.cs:93-101 | FromJson(ToJson(header)) keeps version, nodes and resources, and drops the url and the derived fields |
| DataStruct.NodeJsonDeterminedByFields | Assets/Unity3MXLoader/DataStruct.cs:28-32 | two nodes serialize alike exactly when they agree on every field but the two ignored ones |
| DataStruct.ResourceJsonDeterminedByFields | Assets/Unity3MXLoader/DataStruct.cs:65-69 | two resources serialize alike exactly when they agree on every field but the payloads |
| DataStruct.HeaderJsonDeterminedByFields | Assets/Unity3MXLoader/DataStruct.cs:84-85 | two headers serialize alike exactly when they agree on everything but the url and the derived fields |
| DataStruct.IgnoredNodeMembersNotRead | Assets/Unity3MXLoader/DataStruct.cs:28-32 | appending members named `bounds` or `boundingSphereRadius` to a document changes nothing that is read |
| DataStruct.SameMembersSameNode | Assets/Unity3MXLoader/DataStruct.cs:14-26 | a node is read from its six serialized members, under their exact names, and from nothing else (the serializer's looser matching is under Left out) |
| DataStruct.IgnoredResourceMembersNotRead | Assets/Unity3MXLoader/DataStruct.cs:65-69 | appending members named `textureData` or `meshData` to a document changes nothing that is read |
| DataStruct.SameMembersSameResource | Assets/Unity3MXLoader/DataStruct.cs:47-63 | a resource is read from its eight serialized members, under their exact names, and from nothing else (the serializer's looser matching is under Left out) |
| DataStruct.IgnoredHeaderUrlNotRead | Assets/Unity3MXLoader/DataStruct.cs:84-85 | appending a `url` member to a document changes nothing that is read |
| TaskPool.CancelState | Assets/Unity3MXLoader/TaskPool.cs:56-59 | cancelling gives CANCELED from any state |
| TaskPool.RunState | Assets/Unity3MXLoader/TaskPool.cs:61-65 | starting leaves a cancelled task cancelled and makes any other task RUNNING |
| TaskPool.FinishState | Assets/Unity3MXLoader/TaskPool.cs:66-77 | the end of the body, normal or by an exception, gives FINISHED |
| TaskPool.ResetState | Assets/Unity3MXLoader/TaskPool.cs:82-85 | a reset gives WAITING |
| TaskPool.CancelBeforeRunWins | Assets/Unity3MXLoader/TaskPool.cs:61-65 | a task cancelled before the pool starts it never runs, and the next tick drops it |
| TaskPool.FinishOverwritesCancel | Assets/Unity3MXLoader/TaskPool.cs:56-77 | a cancellation while the body runs is overwritten with FINISHED when it ends |
| TaskPool.Task.constructor | Assets/Unity3MXLoader/TaskPool.cs:26 | a new task is WAITING |
| TaskPool.Task.Cancel | Assets/Unity3MXLoader/TaskPool.cs:56-59 | the state becomes CANCELED |
| TaskPool.Task.Run | Assets/Unity3MXLoader/TaskPool.cs:61-78 | a cancelled task stays cancelled, any other becomes RUNNING |
| TaskPool.Task.Finish | Assets/Unity3MXLoader/TaskPool.cs:76 | the state becomes FINISHED |
| TaskPool.Task.Reset | Assets/Unity3MXLoader/TaskPool.cs:82-85 | the state becomes WAITING |
| TaskPool.StartCount | Assets/Unity3MXLoader/TaskPool.cs:174-190 | at most the waiting tasks are started; the running count is never pushed past `maxTasks`, and starting stops short only when that limit is reached |
| TaskPool.Promote | Assets/Unity3MXLoader/TaskPool.cs:174-190 | entry k is started exactly when it is waiting and its rank among the waiting entries is below the budget |
| TaskPool.FilterDistinct | Assets/Unity3MXLoader/TaskPool.cs:159-171 | removing entries from a list without repeats leaves a list without repeats |
| TaskPool.WaitingRank | Assets/Unity3MXLoader/TaskPool.cs:169-170 | the waiting list holds the waiting tasks in list order: the one at position k has the rank of k among them |
| TaskPool.SurvivorsCount | Assets/Unity3MXLoader/TaskPool.cs:163-164 | dropping FINISHED and CANCELED tasks keeps every WAITING and RUNNING one |
| TaskPool.SurvivorsLive | Assets/Unity3MXLoader/TaskPool.cs:163-164 | after the drop no FINISHED or CANCELED task remains |
| TaskPool.FilterCounts | Assets/Unity3MXLoader/TaskPool.cs:159-171 | the first pass keeps the running and waiting counts and leaves only live tasks |
| TaskPool.PromoteCounts | Assets/Unity3MXLoader/TaskPool.cs:174-190 | the second pass starts exactly min(budget, waiting) tasks, taking them from the waiting ones |
| TaskPool.PromoteNothing | Assets/Unity3MXLoader/TaskPool.cs:175 | with no room left, nothing is started |
| TaskPool.FilterAllKept | Assets/Unity3MXLoader/TaskPool.cs:159-171 | a list of live tasks loses nothing in the first pass |
| TaskPool.TickCounts | Assets/Unity3MXLoader/TaskPool.cs:149-196 | a tick leaves only live tasks and starts exactly `StartCount` of them; the running count stays within `maxTasks` unless it was already above |
| TaskPool.Tick | Assets/Unity3MXLoader/TaskPool.cs:149-196 | a tick never lengthens the task list |
| TaskPool.Filter | Assets/Unity3MXLoader/TaskPool.cs:159-171 | a filtered list is no longer than the list |
| TaskPool.Survivors | Assets/Unity3MXLoader/TaskPool.cs:163-164 | the live tasks in order; what they keep is stated by `SurvivorsCount` and `SurvivorsLive` |
| TaskPool.TickIdempotent | Assets/Unity3MXLoader/TaskPool.cs:149-196 | with no event in between, a second tick changes nothing |
| TaskPool.Pool.constructor | Assets/Unity3MXLoader/TaskPool.cs:111-115 | a new pool has the given limit and no task |
| TaskPool.Pool.Add | Assets/Unity3MXLoader/TaskPool.cs:131-139 | a task that is already listed or not WAITING is ignored; otherwise it is appended, so no task is listed twice |
| TaskPool.Pool.Clear | Assets/Unity3MXLoader/TaskPool.cs:141-147 | the list becomes empty |
| TaskPool.Pool.Process | Assets/Unity3MXLoader/TaskPool.cs:149-196 | the list keeps exactly its live tasks in order, their new states are one `Tick` of the old ones, and a dropped task keeps its state |
| TaskPool.FilterWithin | Assets/Unity3MXLoader/TaskPool.cs:159-171 | the first pass only keeps tasks of the list |
| TaskPool.Classify | Assets/Unity3MXLoader/TaskPool.cs:153-172 | the first pass yields the kept tasks, the waiting tasks in order, and the number running |
| TaskPool.StartWaiting | Assets/Unity3MXLoader/TaskPool.cs:174-190 | the loop starts the waiting tasks in order, exactly `StartCount` of them |
| TaskPool.Classified | Assets/Unity3MXLoader/TaskPool.cs:159-171 | the kept and waiting lists have no repeats and hold only tasks of the snapshot |
| TaskPool.KeptSnapshot | Assets/Unity3MXLoader/TaskPool.cs:163-164 | the kept tasks carry exactly the surviving states |
| TaskPool.WaitingOfKept | Assets/Unity3MXLoader/TaskPool.cs:159-171 | the waiting tasks of the kept list are the waiting tasks of the whole list |
| TaskPool.TaskOfRank | Assets/Unity3MXLoader/TaskPool.cs:177 | the waiting task of each rank sits at a waiting position of the list |
| TaskPool.RankIdentifies | Assets/Unity3MXLoader/TaskPool.cs:177-180 | in a list without repeats, the task of waiting rank i is at position k exactly when k is waiting with rank i |
| Loader.NewLoader | Assets/Unity3MXLoader/Unity3MXBLoader.cs:39-43 | a new loader has its url and holds no task |
| Loader.Load | Assets/Unity3MXLoader/Unity3MXBLoader.cs:56-65 | while a task is held nothing happens; otherwise one task is created for the url and submitted |
| Loader.Cancel | Assets/Unity3MXLoader/Unity3MXBLoader.cs:45-54 | with no task nothing happens; otherwise the held task is cancelled and forgotten |
| Loader.TaskEndedAsWritten | Assets/Unity3MXLoader/Unity3MXBLoader.cs:25-29 | as written, the end of a task leaves the loader loading exactly when it was before |
| Loader.TaskEnded | Assets/Unity3MXLoader/Unity3MXBLoader.cs:25-29 | corrected: the end of the held task forgets it |
| Loader.LoadIdempotent | Assets/Unity3MXLoader/Unity3MXBLoader.cs:58-62 | a second `Load` while the first task is held submits nothing |
| Loader.CancelUndoesLoad | Assets/Unity3MXLoader/Unity3MXBLoader.cs:45-65 | cancelling a task just started cancels exactly that task and restores the loader |
| Loader.LoadIgnoredAfterTaskEndedAsWritten | Assets/Unity3MXLoader/Unity3MXBLoader.cs:25-29 | as written, after a task has ended every later `Load` submits nothing |
| Loader.LoadAfterTaskEnded | Assets/Unity3MXLoader/Unity3MXBLoader.cs:56-65 | corrected: after the task ends, the next `Load` submits a new task |
| Decoder.FetchRoute | Assets/Unity3MXLoader/Unity3MXBLoader.cs:96-109 | "http…" is fetched over HTTP; otherwise "file:///" drops 8 characters and then "file://" drops 7, in that order; anything else is a path as is |
| Decoder.FileRouteRoundTrip | Assets/Unity3MXLoader/Unity3MXBLoader.cs:106-109 | a relative path prefixed with "file://" is routed back to that path |
| Decoder.MakeBounds | Assets/Unity3MXLoader/Unity3MXBLoader.cs:251-256 | the size is max − min |
| Decoder.MakeBoundsCorners | Assets/Unity3MXLoader/Unity3MXBLoader.cs:251-256 | the corners are recovered as center ∓ size/2 |
| Decoder.Axes | Assets/Unity3MXLoader/Unity3MXBLoader.cs:233-234 | a box corner is read as (x, z, y) |
| Decoder.RewindTriples | Assets/Unity3MXLoader/Unity3MXBLoader.cs:290-297 | each whole triple (a, b, c) becomes (a, c, b), and entries past the last whole triple are 0 |
| Decoder.RewindInvolution | Assets/Unity3MXLoader/Unity3MXBLoader.cs:290-297 | reversing the winding twice restores an index list of whole triangles |
| Decoder.SwapAxesInvolution | Assets/Unity3MXLoader/Unity3MXBLoader.cs:271-288 | swapping the axes of a vertex array twice restores it |
| Decoder.Flatten3 | Assets/Unity3MXLoader/Unity3MXBLoader.cs:273-275 | a flat array has three components per vertex |
| Decoder.UvPairs | Assets/Unity3MXLoader/Unity3MXBLoader.cs:276-280 | UVs are the pairs of the first channel, or zero pairs when there is no channel |
| Decoder.MeshOf | Assets/Unity3MXLoader/Unity3MXBLoader.cs:299-310 | the mesh has the decoder's vertex count, one vertex and one UV per vertex, as many indices as the decoder, normals only when there are any and at least one vertex, and the box's bounds |
| Decoder.ParseMeshSpec | Assets/Unity3MXLoader/Unity3MXBLoader.cs:258-264 | a successful geometry read consumes no more than the rest of the stream |
| Decoder.ParseMesh | Assets/Unity3MXLoader/Unity3MXBLoader.cs:258-313 | the array-filling conversion succeeds exactly when the decoded arrays are long enough, and then yields `MeshOf` |
| Decoder.ConvertVertices | Assets/Unity3MXLoader/Unity3MXBLoader.cs:266-289 | the loop swaps the axes of positions and normals and copies the UVs; normals exist only with at least one vertex |
| Decoder.ConvertIndices | Assets/Unity3MXLoader/Unity3MXBLoader.cs:290-297 | the loop yields the rewound index list |
| Decoder.U32LE | Assets/Unity3MXLoader/Unity3MXBLoader.cs:173 | the header length is an unsigned 32-bit value |
| Decoder.LE32 | Assets/Unity3MXLoader/Unity3MXBLoader.cs:173 | a 32-bit length is written as four bytes |
| Decoder.U32RoundTrip | Assets/Unity3MXLoader/Unity3MXBLoader.cs:173 | the length read is the length written |
| Decoder.ResourceStep | Assets/Unity3MXLoader/Unity3MXBLoader.cs:188-225 | one resource: a stopped run stays stopped, a run goes on only past an uncancelled checkpoint, and the read position stays within the stream |
| Decoder.ResourceStepConsistent | Assets/Unity3MXLoader/Unity3MXBLoader.cs:199-219 | a resource reports only soft errors unless it ends the run |
| Decoder.ResourceStepKeepsHeader | Assets/Unity3MXLoader/Unity3MXBLoader.cs:192-203 | a resource step attaches at most a payload, and the fields read from the header stay |
| Decoder.ResourceStepTouchesOne | Assets/Unity3MXLoader/Unity3MXBLoader.cs:192 | a resource step changes no other resource |
| Decoder.ScanResources | Assets/Unity3MXLoader/Unity3MXBLoader.cs:188-225 | the resource pass keeps the read position within the stream and leaves the nodes alone |
| Decoder.ScanResourcesConsistent | Assets/Unity3MXLoader/Unity3MXBLoader.cs:188-225 | the resource pass reports only soft errors while it goes on |
| Decoder.ResourcesScanned | Assets/Unity3MXLoader/Unity3MXBLoader.cs:188-225 | the resource pass goes on only past uncancelled checkpoints, keeps the header's fields, and leaves unreached resources alone |
| Decoder.ResourcesPassedUncanceled | Assets/Unity3MXLoader/Unity3MXBLoader.cs:190-191 | a resource pass that goes on saw every checkpoint it passed uncancelled |
| Decoder.ResourcesKeepHeaderFields | Assets/Unity3MXLoader/Unity3MXBLoader.cs:188-225 | the resource pass changes no field read from the header |
| Decoder.ResourcesAheadUntouched | Assets/Unity3MXLoader/Unity3MXBLoader.cs:188-225 | the resource pass does not touch resources it has not reached |
| Decoder.Placed | Assets/Unity3MXLoader/Unity3MXBLoader.cs:233-236 | a node's bounds come from its (x, z, y) box, its radius is half the box diagonal, and its serialized fields stay |
| Decoder.NodeStep | Assets/Unity3MXLoader/Unity3MXBLoader.cs:227-237 | one node: a run goes on only past an uncancelled checkpoint and a full box, and then places the node |
| Decoder.NodeStepConsistent | Assets/Unity3MXLoader/Unity3MXBLoader.cs:227-237 | a node step reports only an exception that ends the run |
| Decoder.NodeStepTouchesOne | Assets/Unity3MXLoader/Unity3MXBLoader.cs:231 | a node step changes no other node |
| Decoder.ScanNodes | Assets/Unity3MXLoader/Unity3MXBLoader.cs:227-237 | the node pass leaves the read position and the resources alone |
| Decoder.ScanNodesConsistent | Assets/Unity3MXLoader/Unity3MXBLoader.cs:227-237 | the node pass keeps the report list consistent |
| Decoder.NodesScanned | Assets/Unity3MXLoader/Unity3MXBLoader.cs:227-237 | the node pass goes on only past uncancelled checkpoints, places every node it passes, reports nothing, and leaves unreached nodes alone |
| Decoder.NodesPassedUncanceled | Assets/Unity3MXLoader/Unity3MXBLoader.cs:229-230 | a node pass that goes on saw every checkpoint it passed uncancelled and reported nothing |
| Decoder.NodesAheadUntouched | Assets/Unity3MXLoader/Unity3MXBLoader.cs:227-237 | the node pass does not touch nodes it has not reached |
| Decoder.NodesPassedPlaced | Assets/Unity3MXLoader/Unity3MXBLoader.cs:233-236 | a node pass that goes on has placed every node it passed |
| Decoder.HeaderEnd | Assets/Unity3MXLoader/Unity3MXBLoader.cs:184 | the header text ends within the stream, after the 9 bytes of magic and length |
| Decoder.ParseShape | Assets/Unity3MXLoader/Unity3MXBLoader.cs:155-249 | only a stream that passes the magic, the length and the cancellation checks, and has a readable header, gets its lists processed; any other stream reports at most one error, and that error is fatal |
| Decoder.Parse | Assets/Unity3MXLoader/Unity3MXBLoader.cs:155-249 | a delivered header carries the task's url, and the run was not cancelled before the magic or before delivery |
| Decoder.Deliver | Assets/Unity3MXLoader/Unity3MXBLoader.cs:186-247 | a delivered header carries the task's url, and the run was not cancelled before delivery |
| Decoder.RunTask | Assets/Unity3MXLoader/Unity3MXBLoader.cs:88-153 | a delivered header carries the task's url; the task was not cancelled at its start, and its fetch succeeded |
| Decoder.DeliverLoadedLast | Assets/Unity3MXLoader/Unity3MXBLoader.cs:188-247 | after the header is read, there are only errors before the last notification, and only soft ones when the header is delivered |
| Decoder.LoadedComesLast | Assets/Unity3MXLoader/Unity3MXBLoader.cs:155-249 | at most one header is delivered, as the last notification, after soft errors only |
| Decoder.DeliveredUncanceled | Assets/Unity3MXLoader/Unity3MXBLoader.cs:227-247 | a delivered header carries the task's url, was seen uncancelled at every list checkpoint and before delivery, and has each node placed from its own (x, z, y) box |
| Decoder.LoadedMeansUncanceled | Assets/Unity3MXLoader/Unity3MXBLoader.cs:159-247 | a delivered header was seen uncancelled at every checkpoint of the stream |
| Decoder.CanceledBeforeNotifyDeliversNothing | Assets/Unity3MXLoader/Unity3MXBLoader.cs:241-242 | a run cancelled before delivery reports errors only |
| Decoder.BadMagicReportsOnce | Assets/Unity3MXLoader/Unity3MXBLoader.cs:162-169 | a stream not starting with "3MXBO" gets exactly one error, naming the characters read, and no header |
| Decoder.ZeroLengthReportsOnce | Assets/Unity3MXLoader/Unity3MXBLoader.cs:173-180 | a header length of zero gets exactly one error and no header |
| Decoder.UnsupportedResourceSkipped | Assets/Unity3MXLoader/Unity3MXBLoader.cs:199-219 | an unsupported type or format appends one soft error, reads nothing, and does not stop the run |
| Decoder.EmptyResourceSkipped | Assets/Unity3MXLoader/Unity3MXBLoader.cs:193-224 | a resource of size 0 reads nothing and reports nothing |
| Decoder.UnsupportedThenLoaded | Assets/Unity3MXLoader/Unity3MXBLoader.cs:205-247 | a header whose only resource is unsupported is still delivered, right after the one soft error |
| Decoder.LoadedRunUncanceled | Assets/Unity3MXLoader/Unity3MXBLoader.cs:88-153 | a task that delivers a header was uncancelled at its start, while downloading, and at every checkpoint, and the header carries the task's url |
| Decoder.TextureStep | Assets/Unity3MXLoader/Unity3MXBLoader.cs:195-198 | a texture that fits in the stream takes exactly the next `size` bytes |
| Decoder.TextureScan | Assets/Unity3MXLoader/Unity3MXBLoader.cs:188-225 | texture resources sized to consecutive payloads take exactly those payloads, in order |
| Decoder.NodesPlaced | Assets/Unity3MXLoader/Unity3MXBLoader.cs:227-237 | nodes with full boxes are all placed when no node checkpoint is cancelled |
| Decoder.TexturesRoundTrip | Assets/Unity3MXLoader/Unity3MXBLoader.cs:155-249 | decoding inverts packing: a stream of texture payloads is delivered as its header, with each payload attached to its resource and each node placed, and nothing else is reported |
| Decoder.TexturesDelivered | Assets/Unity3MXLoader/Unity3MXBLoader.cs:188-247 | after the header, texture payloads are attached in order and the header is delivered alone |
| Decoder.ResourcesStayHalted | Assets/Unity3MXLoader/Unity3MXBLoader.cs:190-191 | once the resource pass has returned, later resources change nothing |
| Decoder.NodesStayHalted | Assets/Unity3MXLoader/Unity3MXBLoader.cs:229-230 | once the node pass has returned, later nodes change nothing |
| Decoder.Decode | Assets/Unity3MXLoader/Unity3MXBLoader.cs:155-249 | the step-by-step decoder, with its read position and early returns, reports exactly what `Parse` specifies |
| Decoder.ReadResources | Assets/Unity3MXLoader/Unity3MXBLoader.cs:188-225 | the resource loop computes the resource pass |
| Decoder.ReadResource | Assets/Unity3MXLoader/Unity3MXBLoader.cs:190-224 | one iteration computes one resource step |
| Decoder.ReadGeometry | Assets/Unity3MXLoader/Unity3MXBLoader.cs:258-313 | the geometry read computes `ParseMeshSpec` |
| Decoder.PlaceNodes | Assets/Unity3MXLoader/Unity3MXBLoader.cs:227-237 | the node loop computes the node pass |
| Decoder.Run | Assets/Unity3MXLoader/Unity3MXBLoader.cs:88-153 | the task body computes `RunTask` |
| Tiles.RemoveFirst | Assets/Unity3MXLoader/Unity3MXTile.cs:496 | removing a value that is present shortens the list by one and adds nothing; a value that is absent leaves the list as it is |
| Tiles.RemoveFirstDistinct | Assets/Unity3MXLoader/Unity3MXTile.cs:496 | removal from a list without repeats leaves the list without that value |
| Tiles.NewTile | Assets/Unity3MXLoader/Unity3MXTile.cs:111-129 | a new tile has its url, an idle loader, state UNLOADED, no retries, no cache and no nodes |
| Tiles.FreshTiles | Assets/Unity3MXLoader/Unity3MXTile.cs:393-402 | one new tile per child id, in order, at the base url followed by that id |
| Tiles.LoadResource | Assets/Unity3MXLoader/Unity3MXTile.cs:208-212 | the state becomes LOADING and the loader's `Load` is called |
| Tiles.StartResourceLoad | Assets/Unity3MXLoader/Unity3MXTile.cs:215-231 | UNLOADED starts a load; FAILED with retries left counts a retry and starts a load; anything else, or a destroyed tile, is unchanged |
| Tiles.RetryBounded | Assets/Unity3MXLoader/Unity3MXTile.cs:225-227 | the retry count never exceeds `failRetryCount` and grows by at most one per call |
| Tiles.OnError | Assets/Unity3MXLoader/Unity3MXTile.cs:132-138 | an error sets FAILED, unless the tile is destroyed |
| Tiles.OnLoad | Assets/Unity3MXLoader/Unity3MXTile.cs:141-159 | a header moves a LOADING tile to PROCESSING and is dropped in any other state or after destroy |
| Tiles.Notify | Assets/Unity3MXLoader/Unity3MXTile.cs:132-159 | the notifications of a run change only the resource state |
| Tiles.ErrorLeavesTileFailed | Assets/Unity3MXLoader/Unity3MXTile.cs:132-159 | a run that reports any error, soft ones included, leaves a tile that has started loading FAILED, whatever is delivered after |
| Tiles.FailedStaysFailed | Assets/Unity3MXLoader/Unity3MXTile.cs:141-159 | notifications never move a FAILED tile |
| Tiles.HeaderAloneStartsProcessing | Assets/Unity3MXLoader/Unity3MXTile.cs:147-151 | a run that delivers only a header moves a loading tile to processing it |
| Tiles.DestroyedIgnoresNotifications | Assets/Unity3MXLoader/Unity3MXTile.cs:134-144 | a destroyed tile is unchanged by any notifications |
| Tiles.TaskFinished | Assets/Unity3MXLoader/Unity3MXTile.cs:126-128 | corrected: only the held task's notifications reach the tile, and the loader then forgets that task |
| Tiles.TaskFinishedAsWritten | Assets/Unity3MXLoader/Unity3MXTile.cs:126-128 | as written: the notifications reach the tile, and the loader keeps the finished task |
| Tiles.RetryStuckAsWritten | Assets/Unity3MXLoader/Unity3MXTile.cs:225-230 | as written, a first load that fails is retried into LOADING, but no task is submitted |
| Tiles.RetrySubmits | Assets/Unity3MXLoader/Unity3MXTile.cs:225-230 | corrected: the retry submits a new task for the tile's url |
| Tiles.PartsAreCtmGeometry | Assets/Unity3MXLoader/Unity3MXTile.cs:419-464 | a node gets one mesh per CTM geometry buffer it names, textured from the image that buffer names, and nothing else |
| Tiles.PartsOf | Assets/Unity3MXLoader/Unity3MXTile.cs:419-464 | a node gets at most one mesh per resource it names |
| Tiles.ShowNode | Assets/Unity3MXLoader/Unity3MXTile.cs:405-471 | a shown node's object exists (built once from the cache) and is active, its tile is active, and its id is listed once among the ready nodes; a destroyed node is left alone |
| Tiles.ShowIdempotent | Assets/Unity3MXLoader/Unity3MXTile.cs:405-471 | showing twice is showing once |
| Tiles.ShowListsOnce | Assets/Unity3MXLoader/Unity3MXTile.cs:469-470 | the ready list never holds a node twice |
| Tiles.UnloadSelf | Assets/Unity3MXLoader/Unity3MXTile.cs:483-500 | unloading deactivates the node's object, removes it from the ready list, and deactivates the tile exactly when the list becomes empty |
| Tiles.ShowThenUnload | Assets/Unity3MXLoader/Unity3MXTile.cs:466-499 | unloading a node just shown restores the ready list and leaves the node hidden |
| Tiles.CacheHoldsResources | Assets/Unity3MXLoader/Unity3MXTile.cs:172-176 | the cache holds every header resource id, each entry under its own id |
| Tiles.CacheOf | Assets/Unity3MXLoader/Unity3MXTile.cs:172-176 | the cache has no more ids than the header has resources |
| Tiles.CacheKeepsLast | Assets/Unity3MXLoader/Unity3MXTile.cs:172-176 | a resource that no later resource shares an id with is the one cached |
| Tiles.Ids | Assets/Unity3MXLoader/Unity3MXTile.cs:95 | the ids of a tile's nodes, in order |
| Tiles.AddNodes | Assets/Unity3MXLoader/Unity3MXTile.cs:181-189 | adding header nodes keeps the old nodes in front and changes only the tile's ready list and activity |
| Tiles.AddNodesSpec | Assets/Unity3MXLoader/Unity3MXTile.cs:181-189 | the old nodes stay, each new node comes from the header, is shown and listed, and has an id no other node has; every header node id is present |
| Tiles.AddNodesDistinct | Assets/Unity3MXLoader/Unity3MXTile.cs:183-186 | node ids stay pairwise distinct |
| Tiles.AddNodesCover | Assets/Unity3MXLoader/Unity3MXTile.cs:181-189 | every header node's id is present afterwards |
| Tiles.AddNodesNew | Assets/Unity3MXLoader/Unity3MXTile.cs:185-187 | each added node is fresh from the header, shown, and listed as ready |
| Tiles.ProcessingStepSpec | Assets/Unity3MXLoader/Unity3MXTile.cs:169-195 | the processing step ends READY, with the header's resources as the whole cache, the old nodes kept, and one node per new header id |
| Tiles.ProcessingStep | Assets/Unity3MXLoader/Unity3MXTile.cs:169-195 | the processing step ends READY and keeps at least the old nodes |
| Tiles.ProcessHeader | Assets/Unity3MXLoader/Unity3MXTile.cs:169-195 | the two loops of the processing step compute `ProcessingStep` |
| Tiles.UnloadTile | Assets/Unity3MXLoader/Unity3MXTile.cs:263-273 | unloading a tile deactivates it and keeps its load state, cache and nodes |
| Tiles.UnloadNodes | Assets/Unity3MXLoader/Unity3MXTile.cs:266-269 | unloading the nodes changes only the tile's ready list and activity, and keeps every node |
| Tiles.UnloadNode | Assets/Unity3MXLoader/Unity3MXTile.cs:483-500 | a recursive unload keeps the node's header data |
| Tiles.UnloadTiles | Assets/Unity3MXLoader/Unity3MXTile.cs:474-480 | unloading child tiles keeps them all |
| Tiles.UnloadHides | Assets/Unity3MXLoader/Unity3MXTile.cs:263-273 | after a recursive unload nothing in the subtree is active |
| Tiles.UnloadNodesHide | Assets/Unity3MXLoader/Unity3MXTile.cs:266-269 | every unloaded node's subtree is inactive |
| Tiles.UnloadNodeHides | Assets/Unity3MXLoader/Unity3MXTile.cs:485-494 | an unloaded node and all below it are inactive |
| Tiles.UnloadTilesHide | Assets/Unity3MXLoader/Unity3MXTile.cs:474-480 | unloaded child tiles are all inactive |
| Tiles.DestroyTile | Assets/Unity3MXLoader/Unity3MXTile.cs:276-296 | destroying cancels the loader and forgets the nodes, ready list and cache, leaves the state UNLOADED, and is done once |
| Tiles.DestroyNode | Assets/Unity3MXLoader/Unity3MXTile.cs:513-527 | destroying a node empties its child tiles and drops its object, once |
| Tiles.DestroyChildren | Assets/Unity3MXLoader/Unity3MXTile.cs:503-510 | the child tile list is emptied and nothing else of the node changes |
| Tiles.DestroyIdempotent | Assets/Unity3MXLoader/Unity3MXTile.cs:278-279 | destroying twice is destroying once |
| Tiles.DestroyOnlyCancels | Assets/Unity3MXLoader/Unity3MXTile.cs:276-296 | destroying a subtree issues only cancellations, starting with the tile's own task |
| Tiles.DestroyNodesOnlyCancel | Assets/Unity3MXLoader/Unity3MXTile.cs:285-288 | destroying nodes issues only cancellations |
| Tiles.DestroyNodes | Assets/Unity3MXLoader/Unity3MXTile.cs:285-288 | the commands destroying nodes issues, node by node; that they only cancel is `DestroyNodesOnlyCancel` |
| Tiles.DestroyTiles | Assets/Unity3MXLoader/Unity3MXTile.cs:503-510 | the commands destroying child tiles issues, tile by tile; that they only cancel is `DestroyTilesOnlyCancel` |
| Tiles.DestroyTilesOnlyCancel | Assets/Unity3MXLoader/Unity3MXTile.cs:505-508 | destroying child tiles issues only cancellations |
| Tiles.CheckAndRemoveParent | Assets/Unity3MXLoader/Unity3MXComponent.cs:286-298 | the walk up the ancestors only removes entries from the unload list |
| Tiles.NearestReadyAncestorRemoved | Assets/Unity3MXLoader/Unity3MXComponent.cs:286-298 | exactly the first occurrence of the nearest ancestor whose object exists is removed; with no such ancestor, nothing is |
| Tiles.ProcessTile | Assets/Unity3MXLoader/Unity3MXTile.cs:161-206 | processing a destroyed tile does nothing; otherwise it keeps the url and keeps its nodes in front |
| Tiles.ProcessNodes | Assets/Unity3MXLoader/Unity3MXTile.cs:202-205 | processing the nodes keeps each node's header data and the tile's url |
| Tiles.ProcessNode | Assets/Unity3MXLoader/Unity3MXTile.cs:329-390 | processing a node keeps its header data and its tile's url |
| Tiles.ProcessTiles | Assets/Unity3MXLoader/Unity3MXTile.cs:345-349 | processing child tiles keeps them all at their urls |
| Tiles.ProcessNodeKeepsSettled | Assets/Unity3MXLoader/Unity3MXTile.cs:329-390 | on a tile that needs no load, processing a node changes only the tile's ready list and activity |
| Tiles.ProcessNodesKeepSettled | Assets/Unity3MXLoader/Unity3MXTile.cs:202-205 | on a tile that needs no load, processing its nodes changes only its ready list and activity |
| Tiles.TileLoadStep | Assets/Unity3MXLoader/Unity3MXTile.cs:161-206 | one frame moves the load on by one step: a new tile starts loading, a failed one is retried while retries are left and stays FAILED after, a delivered header is processed into READY with the header's cache, and LOADING or READY is kept |
| Tiles.FollowsTrans | Assets/Unity3MXLoader/Unity3MXComponent.cs:280-283 | what a frame does outside a subtree composes step by step |
| Tiles.ProcessTileFollows | Assets/Unity3MXLoader/Unity3MXTile.cs:161-206 | processing a tile adds to the unload list only nodes of its own subtree, only appends commands, and never reuses a task name |
| Tiles.ProcessNodesFollow | Assets/Unity3MXLoader/Unity3MXTile.cs:202-205 | processing a tile's nodes adds only nodes of that tile's subtree to the unload list |
| Tiles.ProcessNodeFollows | Assets/Unity3MXLoader/Unity3MXTile.cs:329-390 | processing a node adds to the unload list only itself and nodes below it |
| Tiles.LeafNodeFollows | Assets/Unity3MXLoader/Unity3MXTile.cs:363-389 | a node that does not refine adds to the unload list nothing outside its own subtree, only appends commands, and never reuses a task name |
| Tiles.ProcessTilesFollow | Assets/Unity3MXLoader/Unity3MXTile.cs:345-349 | processing child tiles adds only nodes below them to the unload list |
| Tiles.HiddenOnlyOverInitializedChildren | Assets/Unity3MXLoader/Unity3MXTile.cs:340-361 | a node is listed for unloading only when it refines and every child tile has nodes; while some child tile has none, the node stays shown |
| Tiles.ShownWhenTileReady | Assets/Unity3MXLoader/Unity3MXTile.cs:363-380 | a node that does not refine, on a READY tile, is shown; what is below it is destroyed, or with the memory cache unloaded and kept |
| Tiles.ChildTilesAtChildUrls | Assets/Unity3MXLoader/Unity3MXTile.cs:340-402 | a refining node creates its child tiles once, one per child id at the base url followed by the id, and keeps them afterwards |
| Tiles.WaitingNodeKeepsChildren | Assets/Unity3MXLoader/Unity3MXTile.cs:381-388 | a node that does not refine, on a tile that is not READY, stays as it is, starts its tile's load, and takes its nearest shown ancestor off the unload list |
| Tiles.UpdateTile | Assets/Unity3MXLoader/Unity3MXComponent.cs:149-153 | updating a tile below another keeps the top tile's own state and node count |
| Tiles.UpdateTileAt | Assets/Unity3MXLoader/Unity3MXComponent.cs:149-153 | the update is seen at its trail, and a trail that leads nowhere changes nothing |
| Tiles.UnloadNodeOf | Assets/Unity3MXLoader/Unity3MXTile.cs:483-500 | unloading node k of a tile unloads that node alone |
| Tiles.UnloadOfShown | Assets/Unity3MXLoader/Unity3MXTile.cs:483-500 | unloading node k of the tile at a trail quiets that node (inactive if its object exists) and leaves every other node showing what it showed |
| Tiles.UnloadNodeAt | Assets/Unity3MXLoader/Unity3MXComponent.cs:149-153 | the tile holding the node becomes that tile with the node unloaded by itself; a trail that leads to no tile changes nothing |
| Tiles.UnloadNodeAtShown | Assets/Unity3MXLoader/Unity3MXComponent.cs:149-153 | unloading the node at a trail quiets that node and no other |
| Tiles.TaskFinishedAt | Assets/Unity3MXLoader/Unity3MXTile.cs:126-128 | corrected loader: the tile the trail names receives the finished task (`TaskFinished`); a trail that leads to no tile changes nothing |
| RootNodes.NewRootNode | Assets/Unity3MXLoader/Unity3MXRootNode.cs:56-62 | a root node's base url is the base data url, its id, then "/" |
| RootNodes.ProcessRoot | Assets/Unity3MXLoader/Unity3MXRootNode.cs:64-117 | processing keeps the root's key and header data; a destroyed root, and the context, are left as they are |
| RootNodes.FirstVisitOnlyMeasures | Assets/Unity3MXLoader/Unity3MXRootNode.cs:69-86 | the first visit makes the object and measures the distance, and touches nothing else |
| RootNodes.VisibleRootProcessesTiles | Assets/Unity3MXLoader/Unity3MXRootNode.cs:87-129 | a visible root re-measures its distance, creates its child tiles once (one per child, at the base data url followed by the id), and adds only nodes below itself to the unload list |
| RootNodes.HiddenRootHidesTiles | Assets/Unity3MXLoader/Unity3MXRootNode.cs:104-158 | a hidden root destroys its child tiles, or with the memory cache unloads and keeps them all inactive |
| RootNodes.DestroyRoot | Assets/Unity3MXLoader/Unity3MXRootNode.cs:161-171 | destroy empties the child tiles, drops the object, issues only cancellations, and is done once |
| RootNodes.DestroyRootIdempotent | Assets/Unity3MXLoader/Unity3MXRootNode.cs:163-164 | destroying twice is destroying once |
| RootNodes.UnloadNodeBelow | Assets/Unity3MXLoader/Unity3MXComponent.cs:149-153 | the tile holding the listed node becomes that tile with the node unloaded by itself (`UnloadNodeOf`); a trail that leads to no tile changes nothing; only the root's child tiles change |
| RootNodes.UnloadNodeBelowShown | Assets/Unity3MXLoader/Unity3MXComponent.cs:149-153 | unloading a listed node makes it inactive if its object exists, and every other node below the root shows what it showed |
| RootNodes.TaskFinishedBelow | Assets/Unity3MXLoader/Unity3MXTile.cs:126-128 | corrected loader: the tile the trail names receives the finished task (`Tiles.TaskFinished`); a trail that leads to no tile changes nothing; only the root's child tiles change |
| Component.CeilToInt | Assets/Unity3MXLoader/Unity3MXComponent.cs:162 | rounding up gives the least integer not below the value |
| Component.CompareSign | Assets/Unity3MXLoader/Unity3MXComponent.cs:159-166 | the comparison is positive, negative or zero exactly as the distance difference, and swapping sides negates it |
| Component.CompareRootNode | Assets/Unity3MXLoader/Unity3MXComponent.cs:159-166 | the comparison has the sign of the distance difference, and a nonzero difference is rounded away from zero to the next integer |
| Component.Insert | Assets/Unity3MXLoader/Unity3MXComponent.cs:132 | insertion adds exactly the one root |
| Component.FirstIsNearest | Assets/Unity3MXLoader/Unity3MXComponent.cs:132 | the first root of a sorted list is the nearest |
| Component.ConsSorted | Assets/Unity3MXLoader/Unity3MXComponent.cs:132 | a root no farther than all the others can go first |
| Component.InsertSorted | Assets/Unity3MXLoader/Unity3MXComponent.cs:132 | insertion keeps a list sorted by distance |
| Component.SortByDistance | Assets/Unity3MXLoader/Unity3MXComponent.cs:132 | sorting keeps the same roots |
| Component.SortByDistanceSorted | Assets/Unity3MXLoader/Unity3MXComponent.cs:132 | the sorted roots are a permutation of the roots, nearest first |
| Component.InsertLast | Assets/Unity3MXLoader/Unity3MXComponent.cs:132 | a root at least as far as every sorted root is inserted at the end |
| Component.SortKeepsTies | Assets/Unity3MXLoader/Unity3MXComponent.cs:132 | roots all at the same distance stay in their input order |
| Component.ProcessRoots | Assets/Unity3MXLoader/Unity3MXComponent.cs:134-137 | processing keeps every root, in order |
| Component.UnloadQueued | Assets/Unity3MXLoader/Unity3MXComponent.cs:149-153 | in the root the reference names, the tile holding the listed node becomes that tile with the node unloaded by itself; a reference that leads to no tile, and every other root, change nothing |
| Component.Drain | Assets/Unity3MXLoader/Unity3MXComponent.cs:146-156 | draining the list keeps every root, its key and its header data |
| Component.DrainQuietsListed | Assets/Unity3MXLoader/Unity3MXComponent.cs:146-156 | after draining, every listed node whose object exists is inactive, and every unlisted node shows what it showed |
| Component.Frame | Assets/Unity3MXLoader/Unity3MXComponent.cs:131-156 | a frame keeps as many roots and leaves the unload list empty |
| Component.ProcessRootsFollow | Assets/Unity3MXLoader/Unity3MXComponent.cs:134-137 | processing the roots only appends commands and never reuses a task name |
| Component.FrameKeepsRoots | Assets/Unity3MXLoader/Unity3MXComponent.cs:132-156 | a frame keeps the same roots, in the order of their distances at its start |
| Component.FrameIssues | Assets/Unity3MXLoader/Unity3MXComponent.cs:146-156 | a frame ends with an empty unload list, only appends commands, and never reuses a task name |
| Component.DestroyAll | Assets/Unity3MXLoader/Unity3MXComponent.cs:270-273 | clearing the scene only cancels tasks |
| Component.NewRoots | Assets/Unity3MXLoader/Unity3MXComponent.cs:253-257 | one root node per header node, in order |
| Component.RouteTask | Assets/Unity3MXLoader/Unity3MXBLoader.cs:67-75 | corrected loader: in the root the reference names, the tile it names receives the finished task (`Tiles.TaskFinished`); a reference that leads to no tile, and every other root, change nothing |
| Component.ProcessInOrder | Assets/Unity3MXLoader/Unity3MXComponent.cs:134-137 | the loop over the roots computes `ProcessRoots` |
| Component.DrainInOrder | Assets/Unity3MXLoader/Unity3MXComponent.cs:146-156 | the loop over the unload list computes `Drain` |
| Component.RunFrame | Assets/Unity3MXLoader/Unity3MXComponent.cs:132-156 | the frame's statements compute `Frame` |
| Component.Advance | Assets/Unity3MXLoader/Unity3MXComponent.cs:109-157 | the update's statements compute `Tick` |
| Component.Tick | Assets/Unity3MXLoader/Unity3MXComponent.cs:109-157 | an update notes the time exactly when the interval has passed, keeps as many roots, and has a camera once one was present past the interval check |
| Component.TickTooSoon | Assets/Unity3MXLoader/Unity3MXComponent.cs:112-114 | within the update interval nothing changes |
| Component.TickNotesTime | Assets/Unity3MXLoader/Unity3MXComponent.cs:115-126 | past the interval the time is noted and a camera, once seen, stays; without readiness, a camera or roots nothing else changes |
| Component.TickRunsFrame | Assets/Unity3MXLoader/Unity3MXComponent.cs:125-156 | an update that runs keeps the roots, reorders them nearest first, empties the unload list, only appends commands, and never reuses a task name |
| Component.Component.constructor | Assets/Unity3MXLoader/Unity3MXComponent.cs:33-92 | a new component is neither loading nor ready and has no roots, camera or tasks |
| Component.Component.LateUpdate | Assets/Unity3MXLoader/Unity3MXComponent.cs:109-157 | the update performs one `Tick` of the scene |
| Component.Component.Run | Assets/Unity3MXLoader/Unity3MXComponent.cs:168-185 | nothing happens when the scene is ready, loading, or its url is illegal; otherwise the base url is set and loading starts |
| Component.Component.OnRootJson | Assets/Unity3MXLoader/Unity3MXComponent.cs:219-262 | the root data path is the base url plus the root path, its base url is recorded, and one task is submitted for it |
| Component.Component.OnRootLoaded | Assets/Unity3MXLoader/Unity3MXComponent.cs:250-261 | one root node per header node is appended, in order; then the scene is ready and not loading |
| Component.Component.Clear | Assets/Unity3MXLoader/Unity3MXComponent.cs:265-278 | nothing happens unless the scene is ready; otherwise every root is destroyed (only cancellations), both lists are emptied, and the scene is not ready |
| Component.Component.TaskFinished | Assets/Unity3MXLoader/Unity3MXBLoader.cs:67-75 | corrected loader: the scene's roots become those of `RouteTask`, so a finished task's notifications reach only the tile it was started for |

## Left out

- The tile tree (tiles, tile nodes and root nodes) is modelled as values, not as objects
  updated in place. The model does not capture aliasing or the parent links
  (`parentNode`, `mTile`, `mRootNode`): the ancestor walk gets its ancestors passed down,
  and node identity is a position in the tree (`Ref`).
- A tile's ready list holds node ids, not node objects. The ids are distinct within a tile,
  so membership by id is membership by object.
- `onLoad` on an UNLOADED tile also clears the stored header's resource list
  (Unity3MXTile.cs:153-158). The model keeps no stored header outside `Processing`, so the
  tile is simply unchanged.
- DataStruct.NodeFromJson, DataStruct.ResourceFromJson, DataStruct.HeaderFromJson,
  DataStruct.SameMembersSameNode and DataStruct.SameMembersSameResource: they read a member
  only under its field's exact name, with a value of the field's JSON type, and the last
  occurrence of a repeated member wins. `JsonConvert.DeserializeObject`
  (DataStruct.cs:39-42, 76-79, 98-101) differs in four ways that are not modelled:
  - A repeated list member is appended to the list already read, because each list field
    starts as `new()` and is reused (DataStruct.cs:17-26, 57-60, 89-91).
  - A name without an exact match is matched case-insensitively (`"ID"` sets `id`).
  - Primitive values are coerced (`"id": 5` reads "5", and `"size": "12"` reads 12), where
    the model rejects the header.
  - A `null` list sets the field to null, and the source fails only where that list is
    used, where the model rejects the header.
- Dictionaries are ordered sequences and maps. `mNodes.Values` is iterated in insertion
  order.
- The resource cache keeps the last resource of a repeated id. `Dictionary.Add` throws on a
  repeated or null id (Unity3MXTile.cs:175, 186). That throw happens before the tile leaves
  PROCESSING, so it aborts that frame and every later one: the roots after that tile are
  never processed again, and the unload list is never drained and keeps growing. A null node
  id is an `Option`.
- `Show` on a resource key that is missing from the cache throws (Unity3MXTile.cs:421). The
  model skips such a key.
- Tiles.TextureOf: builds an untextured part for a CTM geometry buffer that has no `texture`
  member. In the source, `ContainsKey(null)` throws `ArgumentNullException`
  (Unity3MXTile.cs:433), so `Show` aborts the frame for such a buffer.
- Exceptions thrown inside a frame's processing, which would abort the rest of the frame,
  are not modelled.
- Rendering is left out: GameObjects, meshes, materials, shaders, colliders and
  `MeshData.ConstructMesh`. A node's object is `parts` plus an `active` flag.
- The camera is left out: `CameraState`, the frustum test, pixel size and the diameter
  formula. Visibility, distances and projected diameters are inputs.
- The square root of the bounding-sphere radius is an input (`Env.magnitude`).
- Floats are `real`, so rounding is not modelled. Mesh components are 32-bit patterns that
  are only copied.
- HTTP and file I/O are the `fetch` parameter. The chunked download is one fetch followed by
  the cancellation check after a chunk.
- The OpenCTM decoder is an `Env` parameter, which gives no guarantee about the bytes it
  consumes.
- The JSON text parser is an `Env` parameter. JSON is modelled as a parsed tree.
- `ReadChars` is read as one byte per character (ASCII).
- Threads, the pool's timer and locks are left out. A task's end is the explicit event
  `Task.Finish` / `TaskFinished`.
- The pool's branch for a null waiting task (TaskPool.cs:178-188) is left out, because the
  list never holds null.
- `Task.url` exists only in the model. It names what a loader's task fetches.
- `Loader.Load` and `Loader.Cancel` return commands for the pool instead of calling it.
- The root JSON text, SRS, SRSOrigin and offset (Unity3MXComponent.cs:204-236) are left
  out. `OnRootJson` receives the layer's root path.
- The coroutines, `Time.time` and error handling of the root loads are left out.
- `updateIntervalTime` is a parameter of the component.
- The debug collider, logging and timings are left out.
- Component.SortByDistance: keeps roots at equal distance in their input order, an order
  `List.Sort` does not fix. Its other lemmas state ordering and permutation, which hold of
  both sorts.
- Tiles.TaskFinishedAt, RootNodes.TaskFinishedBelow, Component.RouteTask and
  Component.Component.TaskFinished: they route through the corrected `Tiles.TaskFinished`,
  which ends the loader's task. The code never clears `mTask` (Unity3MXBLoader.cs:25-65), so
  as written the tile's loader keeps the finished task; `Tiles.TaskFinishedAsWritten` models
  that.
- UrlUtils.ExtractBaseUrl, UrlUtils.ExtractFileName, Component.Component.Run and
  Component.Component.OnRootJson: their URI argument (`u` or `parsed`) stands for
  `new Uri(url)`, and nothing ties it to the url text. The `UriFormatException` that `new Uri` throws on a
  relative url (Utils.cs:37, 53) is not modelled. Neither is the normalisation of
  `builder.Uri.ToString()`, such as the "/" it adds after a bare host.
- Tiles.TileLoadStep: says nothing about an UNLOADED tile that still has nodes. The source
  never produces one: unload keeps the state, and destroy also drops the nodes.

## Findings

| source | as written | input that shows it | evidently intended | confidence | as-written member | corrected member |
|---|---|---|---|---|---|---|
| Assets/Unity3MXLoader/Unity3MXBLoader.cs:25-65 | `mTask` is never cleared when its task ends, so `isLoading` stays true. After `onError`, the retry (Unity3MXTile.cs:225-230) sets LOADING, but `Load` returns without submitting a task, and the tile waits forever | a tile whose first load fails, with `failRetryCount > 0` | a finished task is forgotten, so the retry submits a new task | not executed | Loader.LoadIgnoredAfterTaskEndedAsWritten, Tiles.RetryStuckAsWritten | Loader.LoadAfterTaskEnded, Tiles.RetrySubmits |
