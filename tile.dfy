/**
 * Tiles and tile nodes: the level-of-detail tree below each root node.
 *
 * A tile owns a loader, a resource state, the resource cache its header filled and the nodes
 * its header listed; a node owns the child tiles it refines into. The tree is modelled as a
 * value: every operation returns the new tile or node. What the source does to other objects
 * (the scene graph, the deferred-unload list of the component, the task pool) is returned
 * alongside, in a `Ctx`.
 *
 * Game objects are modelled by two facts: whether a node's object exists (`parts` is
 * `Some`, holding the meshes made for it) and whether a tile's or node's object is active.
 */
module Tiles {
  import opened Wrappers
  import opened DataStruct
  import L = Loader
  import D = Decoder

  /** Where a tile is in getting its header. The header travels with `Processing`. */
  datatype ResourceState = Unloaded | Loading | Processing(header: HeaderInfo) | Ready | Failed

  /** The component settings the tree consults. */
  datatype Settings = Settings(failRetryCount: nat, enableMemoryCache: bool)

  const DefaultSettings: Settings := Settings(5, false)

  /**
   * The camera, as the tree sees it: the projected diameter, in pixels, of a node's bounding
   * sphere (its radius over the pixel size at the node's world-space center, times the
   * component's diameter ratio).
   */
  datatype View = View(screenDiameter: NodeInfo -> real)

  /**
   * Names a tile or a node: the index of its root node, then alternately an index into a
   * list of child tiles and an index into a tile's nodes. A tile's trail has odd length, a
   * node's even length.
   */
  datatype Ref = Ref(root: nat, trail: seq<nat>)

  /** An ancestor node seen on the way down: where it is and whether its object exists. */
  datatype Anc = Anc(at: Ref, ready: bool)

  /**
   * What processing the tree does outside it: the component's list of nodes to unload at
   * the end of the frame, the name of the next load task, and the commands for the task pool.
   */
  datatype Ctx = Ctx(queue: seq<Ref>, nextTask: nat, commands: seq<L.Command>)

  /** One mesh object made for a node: the resource id, its mesh and its texture image. */
  datatype Part = Part(id: Option<string>, mesh: Option<MeshData>, texture: Option<seq<Byte>>)

  datatype Core = Core(
    url: string,
    loader: L.Loader,
    state: ResourceState,
    retryCount: nat,
    cache: map<Option<string>, ResourceInfo>,
    readyNodes: seq<Option<string>>,   // ids of the nodes shown, in the order shown
    active: bool,
    destroyed: bool)

  datatype Tile = Tile(core: Core, nodes: seq<TileNode>)

  datatype TileNode = TileNode(
    info: NodeInfo,
    parts: Option<seq<Part>>,   // Some once the node's object exists
    active: bool,
    childTiles: seq<Tile>,
    destroyed: bool)

  predicate Distinct<T(==)>(s: seq<T>) {
    forall i, j :: 0 <= i < j < |s| ==> s[i] != s[j]
  }

  /** Removes the first occurrence of `x`, if any. */
  function RemoveFirst<T(==)>(s: seq<T>, x: T): (r: seq<T>)
    ensures x !in s ==> r == s
    ensures x in s ==> |r| == |s| - 1
    ensures forall y :: y in r ==> y in s
  {
    if s == [] then []
    else if s[0] == x then s[1..]
    else [s[0]] + RemoveFirst(s[1..], x)
  }

  /** Removing from a list without repetitions removes every occurrence. */
  lemma {:induction false} RemoveFirstDistinct<T>(s: seq<T>, x: T)
    requires Distinct(s)
    ensures Distinct(RemoveFirst(s, x)) && x !in RemoveFirst(s, x)
  {
    if s != [] && s[0] != x {
      assert Distinct(s[1..]) by {
        forall i, j | 0 <= i < j < |s[1..]| ensures s[1..][i] != s[1..][j] {
          assert s[1..][i] == s[i + 1] && s[1..][j] == s[j + 1];
        }
      }
      RemoveFirstDistinct(s[1..], x);
      assert s[0] !in s[1..];
    }
  }

  /** A tile not yet loaded, at `url`. */
  function NewTile(url: string): (t: Tile)
    ensures t.core.url == url && t.core.loader.url == url && !L.IsLoading(t.core.loader)
    ensures t.core.state == Unloaded && t.core.retryCount == 0 && t.nodes == []
    ensures t.core.cache == map[] && t.core.readyNodes == [] && !t.core.active && !t.core.destroyed
  {
    Tile(Core(url, L.NewLoader(url), Unloaded, 0, map[], [], false, false), [])
  }

  /** A tile is uninitialized while it has no nodes. */
  predicate Uninitialized(t: Tile) {
    t.nodes == []
  }

  /** The child tiles a node creates for its children, each at `base` followed by its id. */
  function FreshTiles(base: string, ids: seq<string>): (ts: seq<Tile>)
    ensures |ts| == |ids|
    ensures forall i :: 0 <= i < |ts| ==> ts[i] == NewTile(base + ids[i])
  {
    seq(|ids|, i requires 0 <= i < |ids| => NewTile(base + ids[i]))
  }

  // ---------------------------------------------------------------------------------------
  // Resource state

  /** Sets the state to loading and asks the loader for a task named `ctx.nextTask`. */
  function LoadResource(c: Core, ctx: Ctx): (r: (Core, Ctx))
    ensures r.0.state == Loading && L.IsLoading(r.0.loader)
    ensures r.0 == c.(state := Loading, loader := r.0.loader)
    ensures r.1 == ctx.(nextTask := ctx.nextTask + 1, commands := ctx.commands + L.Load(c.loader, ctx.nextTask).1)
  {
    var (l, cmds) := L.Load(c.loader, ctx.nextTask);
    (c.(state := Loading, loader := l), ctx.(nextTask := ctx.nextTask + 1, commands := ctx.commands + cmds))
  }

  /**
   * Starts loading an unloaded tile, or retries a failed one while its retry count is below
   * the limit; does nothing otherwise, and nothing to a destroyed tile.
   */
  function StartResourceLoad(c: Core, s: Settings, ctx: Ctx): (r: (Core, Ctx))
    ensures !c.destroyed && c.state == Unloaded ==> r == LoadResource(c, ctx)
    ensures !c.destroyed && c.state == Failed && c.retryCount < s.failRetryCount ==>
      r == LoadResource(c.(retryCount := c.retryCount + 1), ctx)
    ensures c.destroyed || (c.state != Unloaded && (c.state != Failed || c.retryCount >= s.failRetryCount)) ==>
      r == (c, ctx)
  {
    if c.destroyed then (c, ctx)
    else if c.state == Unloaded then LoadResource(c, ctx)
    else if c.state == Failed && c.retryCount < s.failRetryCount then
      LoadResource(c.(retryCount := c.retryCount + 1), ctx)
    else (c, ctx)
  }

  /** A tile is retried at most `failRetryCount` times: starting a load keeps the count in bounds. */
  lemma RetryBounded(c: Core, s: Settings, ctx: Ctx)
    requires c.retryCount <= s.failRetryCount
    ensures StartResourceLoad(c, s, ctx).0.retryCount <= s.failRetryCount
    ensures StartResourceLoad(c, s, ctx).0.retryCount <= c.retryCount + 1
    ensures c.state == Failed && c.retryCount == s.failRetryCount ==> StartResourceLoad(c, s, ctx) == (c, ctx)
  {
  }

  /** The loader reported an error: the tile has failed, unless it was destroyed. */
  function OnError(c: Core): (r: Core)
    ensures c.destroyed ==> r == c
    ensures !c.destroyed ==> r == c.(state := Failed)
  {
    if c.destroyed then c else c.(state := Failed)
  }

  /**
   * The loader delivered a header: a loading tile goes on to processing it. In any other
   * state the header is dropped.
   */
  function OnLoad(c: Core, h: HeaderInfo): (r: Core)
    ensures !c.destroyed && c.state == Loading ==> r == c.(state := Processing(h))
    ensures c.destroyed || c.state != Loading ==> r == c
  {
    if c.destroyed then c
    else if c.state == Loading then c.(state := Processing(h))
    else c
  }

  /** The notifications of one task run, handled in order. */
  function Notify(c: Core, ev: seq<D.Notification>): (r: Core)
    decreases |ev|
    ensures r.(state := c.state) == c
  {
    if ev == [] then c
    else
      var c1 := match ev[0]
        case Error(_) => OnError(c)
        case Loaded(h) => OnLoad(c, h);
      Notify(c1, ev[1..])
  }

  /** A run that reports an error leaves the tile failed, whatever it reports after. */
  lemma {:induction false} ErrorLeavesTileFailed(c: Core, ev: seq<D.Notification>)
    decreases |ev|
    requires !c.destroyed && c.state != Unloaded
    requires exists k :: 0 <= k < |ev| && ev[k].Error?
    ensures Notify(c, ev).state == Failed
  {
    var c1 := match ev[0]
      case Error(_) => OnError(c)
      case Loaded(h) => OnLoad(c, h);
    if ev[0].Error? {
      FailedStaysFailed(c1, ev[1..]);
    } else {
      var k :| 0 <= k < |ev| && ev[k].Error?;
      assert ev[1..][k - 1] == ev[k];
      ErrorLeavesTileFailed(c1, ev[1..]);
    }
  }

  lemma {:induction false} FailedStaysFailed(c: Core, ev: seq<D.Notification>)
    decreases |ev|
    requires !c.destroyed && c.state == Failed
    ensures Notify(c, ev).state == Failed
  {
    if ev != [] {
      FailedStaysFailed(match ev[0] case Error(_) => OnError(c) case Loaded(h) => OnLoad(c, h), ev[1..]);
    }
  }

  /** A run that delivers only a header moves a loading tile to processing that header. */
  lemma HeaderAloneStartsProcessing(c: Core, h: HeaderInfo)
    requires !c.destroyed && c.state == Loading
    ensures Notify(c, [D.Loaded(h)]).state == Processing(h)
  {
  }

  /** Notifications reach a destroyed tile's handlers no more. */
  lemma {:induction false} DestroyedIgnoresNotifications(c: Core, ev: seq<D.Notification>)
    decreases |ev|
    requires c.destroyed
    ensures Notify(c, ev) == c
  {
    if ev != [] {
      DestroyedIgnoresNotifications(c, ev[1..]);
    }
  }

  /**
   * Task `id` has finished with notifications `ev`. They reach the tile only if the task is
   * the one its loader holds; the finished task is then forgotten.
   */
  function TaskFinished(t: Tile, id: nat, ev: seq<D.Notification>): (r: Tile)
    ensures t.core.loader.task != Some(id) ==> r == t
    ensures t.core.loader.task == Some(id) ==>
      r.nodes == t.nodes && r.core.state == Notify(t.core, ev).state && !L.IsLoading(r.core.loader)
  {
    if t.core.loader.task != Some(id) then t
    else t.(core := Notify(t.core, ev).(loader := L.TaskEnded(t.core.loader, id)))
  }

  /** As written: the loader keeps the finished task. */
  function TaskFinishedAsWritten(t: Tile, id: nat, ev: seq<D.Notification>): (r: Tile)
    ensures t.core.loader.task != Some(id) ==> r == t
    ensures t.core.loader.task == Some(id) ==>
      r.nodes == t.nodes && r.core.state == Notify(t.core, ev).state && r.core.loader == t.core.loader
  {
    if t.core.loader.task != Some(id) then t
    else t.(core := Notify(t.core, ev).(loader := L.TaskEndedAsWritten(t.core.loader, id)))
  }

  /**
   * As written, a failed load is never retried: the retry sets the tile loading, but the
   * loader still holds the finished task and submits nothing, so the tile waits in the
   * loading state for a task that has already ended.
   */
  lemma RetryStuckAsWritten(url: string, s: Settings, ctx: Ctx, f: D.Failure)
    requires s.failRetryCount > 0
    ensures var (c1, ctx1) := StartResourceLoad(NewTile(url).core, s, ctx);
      var t2 := TaskFinishedAsWritten(Tile(c1, []), ctx.nextTask, [D.Error(f)]);
      var (c3, ctx3) := StartResourceLoad(t2.core, s, ctx1);
      t2.core.state == Failed && c3.state == Loading && c3.retryCount == 1 &&
      ctx3.commands == ctx1.commands && c3.loader.task == Some(ctx.nextTask)
  {
    var (c1, ctx1) := StartResourceLoad(NewTile(url).core, s, ctx);
    assert c1.loader.task == Some(ctx.nextTask);
    assert [D.Error(f)][1..] == [];
    assert Notify(c1, [D.Error(f)]) == Notify(OnError(c1), []);
    var t2 := TaskFinishedAsWritten(Tile(c1, []), ctx.nextTask, [D.Error(f)]);
    assert t2.core == c1.(state := Failed);
  }

  /** Corrected: the retry of a failed load submits a new task for the tile's url. */
  lemma RetrySubmits(url: string, s: Settings, ctx: Ctx, f: D.Failure)
    requires s.failRetryCount > 0
    ensures var (c1, ctx1) := StartResourceLoad(NewTile(url).core, s, ctx);
      var t2 := TaskFinished(Tile(c1, []), ctx.nextTask, [D.Error(f)]);
      var (c3, ctx3) := StartResourceLoad(t2.core, s, ctx1);
      t2.core.state == Failed && c3.state == Loading && c3.retryCount == 1 &&
      ctx3.commands == ctx1.commands + [L.Submit(ctx1.nextTask, url)]
  {
    var (c1, ctx1) := StartResourceLoad(NewTile(url).core, s, ctx);
    assert c1.loader.task == Some(ctx.nextTask);
    assert [D.Error(f)][1..] == [];
    assert Notify(c1, [D.Error(f)]) == Notify(OnError(c1), []);
    var t2 := TaskFinished(Tile(c1, []), ctx.nextTask, [D.Error(f)]);
    assert t2.core == c1.(state := Failed, loader := L.Loader(url, None));
  }

  // ---------------------------------------------------------------------------------------
  // Showing and unloading one node

  /** A geometry buffer in the OpenCTM format: the only resource a node makes a mesh for. */
  predicate IsCtmGeometry(r: ResourceInfo) {
    r.kind == Some("geometryBuffer") && r.format == Some("ctm")
  }

  /** The image a mesh is textured with: that of the cached resource it names, if decoded. */
  function TextureOf(key: Option<string>, cache: map<Option<string>, ResourceInfo>): Option<seq<Byte>> {
    if key.Some? && key in cache then cache[key].textureData else None
  }

  function PartFrom(r: ResourceInfo, cache: map<Option<string>, ResourceInfo>): Part {
    Part(r.id, r.meshData, TextureOf(r.texture, cache))
  }

  /** The mesh objects made for a node that names the resources `keys`, in order. */
  function PartsOf(keys: seq<string>, cache: map<Option<string>, ResourceInfo>): (parts: seq<Part>)
    ensures |parts| <= |keys|
    decreases |keys|
  {
    if keys == [] then []
    else
      var before := PartsOf(keys[..|keys| - 1], cache);
      var k := Some(keys[|keys| - 1]);
      if k in cache && IsCtmGeometry(cache[k]) then before + [PartFrom(cache[k], cache)] else before
  }

  /**
   * A node gets one mesh per OpenCTM geometry buffer it names, textured with the decoded
   * image that buffer names, and nothing else.
   */
  lemma {:induction false} PartsAreCtmGeometry(keys: seq<string>, cache: map<Option<string>, ResourceInfo>)
    ensures forall p :: p in PartsOf(keys, cache) <==>
      exists k :: k in keys && Some(k) in cache && IsCtmGeometry(cache[Some(k)]) && p == PartFrom(cache[Some(k)], cache)
    decreases |keys|
  {
    if keys != [] {
      var init := keys[..|keys| - 1];
      PartsAreCtmGeometry(init, cache);
      assert keys == init + [keys[|keys| - 1]];
    }
  }

  /** A node whose object does not exist yet, as the processing step creates it. */
  function FreshNode(info: NodeInfo): TileNode {
    TileNode(info, None, false, [], false)
  }

  /**
   * Shows a node: makes its object (once), activates it and its tile, and lists it among the
   * tile's ready nodes unless already listed. A destroyed node is left alone.
   */
  function ShowNode(c: Core, n: TileNode): (r: (Core, TileNode))
    ensures n.destroyed ==> r == (c, n)
    ensures !n.destroyed ==> r.1.parts.Some? && r.1.active && r.0.active && n.info.id in r.0.readyNodes
    ensures r.1 == n.(parts := r.1.parts, active := r.1.active)
    ensures r.0 == c.(readyNodes := r.0.readyNodes, active := r.0.active)
    ensures n.parts.Some? ==> r.1.parts == n.parts
    ensures !n.destroyed && n.parts.None? ==> r.1.parts == Some(PartsOf(n.info.resources, c.cache))
    ensures n.info.id in c.readyNodes ==> r.0.readyNodes == c.readyNodes
    ensures !n.destroyed && n.info.id !in c.readyNodes ==> r.0.readyNodes == c.readyNodes + [n.info.id]
  {
    if n.destroyed then (c, n)
    else
      var parts := if n.parts.Some? then n.parts else Some(PartsOf(n.info.resources, c.cache));
      var ready := if n.info.id in c.readyNodes then c.readyNodes else c.readyNodes + [n.info.id];
      (c.(active := true, readyNodes := ready), n.(parts := parts, active := true))
  }

  /** Showing a node twice is showing it once. */
  lemma ShowIdempotent(c: Core, n: TileNode)
    ensures ShowNode(ShowNode(c, n).0, ShowNode(c, n).1) == ShowNode(c, n)
  {
  }

  /** A tile lists each shown node once. */
  lemma ShowListsOnce(c: Core, n: TileNode)
    requires Distinct(c.readyNodes)
    ensures Distinct(ShowNode(c, n).0.readyNodes)
  {
  }

  /**
   * Unloads a node itself (not its child tiles): deactivates its object, drops it from its
   * tile's ready nodes, and deactivates the tile once no node of it is ready.
   */
  function UnloadSelf(c: Core, n: TileNode): (r: (Core, TileNode))
    ensures r.1 == n.(active := r.1.active) && (n.parts.Some? ==> !r.1.active)
    ensures r.0 == c.(readyNodes := r.0.readyNodes, active := r.0.active)
    ensures r.0.readyNodes == RemoveFirst(c.readyNodes, n.info.id)
    ensures r.0.active <==> c.active && r.0.readyNodes != []
  {
    var ready := RemoveFirst(c.readyNodes, n.info.id);
    (c.(readyNodes := ready, active := if ready == [] then false else c.active),
     n.(active := if n.parts.Some? then false else n.active))
  }

  /** Unloading a node just shown takes it off its tile's list again. */
  lemma ShowThenUnload(c: Core, n: TileNode)
    requires !n.destroyed && n.info.id !in c.readyNodes
    ensures var (c1, n1) := ShowNode(c, n);
      var (c2, n2) := UnloadSelf(c1, n1);
      c2.readyNodes == c.readyNodes && !n2.active && n2.parts.Some? && (c.readyNodes == [] ==> !c2.active)
  {
    var (c1, n1) := ShowNode(c, n);
    RemoveLast(c.readyNodes, n.info.id);
  }

  lemma {:induction false} RemoveLast<T>(s: seq<T>, x: T)
    requires x !in s
    ensures RemoveFirst(s + [x], x) == s
  {
    if s != [] {
      assert (s + [x])[1..] == s[1..] + [x];
      RemoveLast(s[1..], x);
      assert s == [s[0]] + s[1..];
    }
  }

  // ---------------------------------------------------------------------------------------
  // Processing a delivered header

  /** The resource cache built from a header: each resource under its id. */
  function CacheOf(rs: seq<ResourceInfo>): (m: map<Option<string>, ResourceInfo>)
    ensures |m.Keys| <= |rs|
    decreases |rs|
  {
    if rs == [] then map[] else CacheOf(rs[..|rs| - 1])[rs[|rs| - 1].id := rs[|rs| - 1]]
  }

  /** The cache holds every resource id of the header, each under its own id. */
  lemma {:induction false} CacheHoldsResources(rs: seq<ResourceInfo>)
    ensures forall i :: 0 <= i < |rs| ==> rs[i].id in CacheOf(rs)
    ensures forall k :: k in CacheOf(rs) ==> CacheOf(rs)[k] in rs && CacheOf(rs)[k].id == k
    decreases |rs|
  {
    if rs != [] {
      var init := rs[..|rs| - 1];
      var last := rs[|rs| - 1];
      CacheHoldsResources(init);
      assert rs == init + [last];
      forall i | 0 <= i < |rs| ensures rs[i].id in CacheOf(rs) {
        if i < |init| { assert rs[i] == init[i]; }
      }
    }
  }

  /** A resource that no later one shares its id with is the one cached under that id. */
  lemma {:induction false} CacheKeepsLast(rs: seq<ResourceInfo>, i: nat)
    requires i < |rs| && forall j :: i < j < |rs| ==> rs[j].id != rs[i].id
    ensures rs[i].id in CacheOf(rs) && CacheOf(rs)[rs[i].id] == rs[i]
    decreases |rs|
  {
    if i < |rs| - 1 {
      var init := rs[..|rs| - 1];
      assert init[i] == rs[i];
      assert forall j :: i < j < |init| ==> init[j] == rs[j];
      CacheKeepsLast(init, i);
    }
  }

  /** The ids of a tile's nodes, in order. */
  function Ids(ns: seq<TileNode>): (ids: seq<Option<string>>)
    ensures |ids| == |ns| && forall i :: 0 <= i < |ns| ==> ids[i] == ns[i].info.id
  {
    seq(|ns|, i requires 0 <= i < |ns| => ns[i].info.id)
  }

  /** Adds, in header order, a shown node for each header node whose id no node has yet. */
  function AddNodes(c: Core, ns: seq<TileNode>, infos: seq<NodeInfo>): (r: (Core, seq<TileNode>))
    ensures r.0 == c.(readyNodes := r.0.readyNodes, active := r.0.active)
    ensures |r.1| >= |ns| && r.1[..|ns|] == ns
    decreases |infos|
  {
    if infos == [] then (c, ns)
    else
      var (c1, ns1) := AddNodes(c, ns, infos[..|infos| - 1]);
      var info := infos[|infos| - 1];
      if info.id in Ids(ns1) then (c1, ns1)
      else
        var (c2, n) := ShowNode(c1, FreshNode(info));
        (c2, ns1 + [n])
  }

  /**
   * What adding header nodes leaves: the old nodes first and unchanged, then new nodes, each
   * made from a header node, shown and listed as ready, with an id no other node has; every
   * header node's id is present. The tile's other state is untouched.
   */
  lemma AddNodesSpec(c: Core, ns: seq<TileNode>, infos: seq<NodeInfo>)
    requires Distinct(Ids(ns))
    ensures var (c1, ns1) := AddNodes(c, ns, infos);
      |ns1| >= |ns| && ns1[..|ns|] == ns && Distinct(Ids(ns1)) &&
      (forall info :: info in infos ==> info.id in Ids(ns1)) &&
      (forall k :: |ns| <= k < |ns1| ==> AddedNode(ns1[k], infos, c1.readyNodes)) &&
      c1 == c.(readyNodes := c1.readyNodes, active := c1.active)
  {
    AddNodesDistinct(c, ns, infos);
    AddNodesCover(c, ns, infos);
    AddNodesNew(c, ns, infos);
  }

  lemma {:induction false} AddNodesDistinct(c: Core, ns: seq<TileNode>, infos: seq<NodeInfo>)
    requires Distinct(Ids(ns))
    ensures Distinct(Ids(AddNodes(c, ns, infos).1))
    decreases |infos|
  {
    if infos != [] {
      var init := infos[..|infos| - 1];
      AddNodesDistinct(c, ns, init);
      var (c1, ns1) := AddNodes(c, ns, init);
      var info := infos[|infos| - 1];
      if info.id !in Ids(ns1) {
        var n := ShowNode(c1, FreshNode(info)).1;
        assert Ids(ns1 + [n]) == Ids(ns1) + [info.id];
      }
    }
  }

  lemma {:induction false} AddNodesCover(c: Core, ns: seq<TileNode>, infos: seq<NodeInfo>)
    ensures forall info :: info in infos ==> info.id in Ids(AddNodes(c, ns, infos).1)
    decreases |infos|
  {
    if infos != [] {
      var init := infos[..|infos| - 1];
      AddNodesCover(c, ns, init);
      var (c1, ns1) := AddNodes(c, ns, init);
      var info := infos[|infos| - 1];
      assert infos == init + [info];
      if info.id !in Ids(ns1) {
        var n := ShowNode(c1, FreshNode(info)).1;
        var ns2 := ns1 + [n];
        assert Ids(ns2) == Ids(ns1) + [info.id];
        forall x | x in infos ensures x.id in Ids(ns2) {
          if x != info {
            assert x in init;
          }
        }
      }
    }
  }

  /** A node added for one of `infos`: fresh from the header, shown, and listed in `ready`. */
  predicate AddedNode(n: TileNode, infos: seq<NodeInfo>, ready: seq<Option<string>>) {
    n.info in infos && n.childTiles == [] && !n.destroyed && n.parts.Some? && n.active && n.info.id in ready
  }

  /** The nodes of `ns` from position `from` on were all added for `infos`. */
  predicate AllAdded(ns: seq<TileNode>, from: nat, infos: seq<NodeInfo>, ready: seq<Option<string>>) {
    forall k :: from <= k < |ns| ==> AddedNode(ns[k], infos, ready)
  }

  lemma {:induction false} AddNodesNew(c: Core, ns: seq<TileNode>, infos: seq<NodeInfo>)
    ensures AllAdded(AddNodes(c, ns, infos).1, |ns|, infos, AddNodes(c, ns, infos).0.readyNodes)
    decreases |infos|
  {
    if infos != [] {
      var init := infos[..|infos| - 1];
      AddNodesNew(c, ns, init);
      var r1 := AddNodes(c, ns, init);
      assert AllAdded(r1.1, |ns|, init, r1.0.readyNodes);
      var info := infos[|infos| - 1];
      if info.id !in Ids(r1.1) {
        var (c2, n) := ShowNode(r1.0, FreshNode(info));
        var ns2 := r1.1 + [n];
        assert AddNodes(c, ns, infos) == (c2, ns2);
        forall k | |ns| <= k < |ns2|
          ensures AddedNode(ns2[k], infos, c2.readyNodes)
        {
          if k < |r1.1| {
            assert ns2[k] == r1.1[k] && AddedNode(r1.1[k], init, r1.0.readyNodes);
            assert ns2[k].info in init;
          }
        }
      } else {
        assert AddNodes(c, ns, infos) == r1;
        forall k | |ns| <= k < |r1.1|
          ensures AddedNode(r1.1[k], infos, r1.0.readyNodes)
        {
          assert AddedNode(r1.1[k], init, r1.0.readyNodes);
          assert r1.1[k].info in init;
        }
      }
    }
  }

  /** The processing step: cache the resources, add the new nodes, and become ready. */
  function ProcessingStep(c: Core, nodes: seq<TileNode>): (t: Tile)
    requires c.state.Processing?
    ensures t.core.state == Ready && |t.nodes| >= |nodes|
  {
    var h := c.state.header;
    var (c1, ns) := AddNodes(c.(cache := CacheOf(h.resources)), nodes, h.nodes);
    Tile(c1.(state := Ready), ns)
  }

  /**
   * After the processing step the tile is ready, its cache is that of the header, it keeps
   * its nodes and has one for every node id of the header, each id once.
   */
  lemma ProcessingStepSpec(c: Core, nodes: seq<TileNode>)
    requires c.state.Processing? && Distinct(Ids(nodes))
    ensures var t := ProcessingStep(c, nodes);
      t.core.state == Ready && t.core.cache == CacheOf(c.state.header.resources) &&
      t.core.url == c.url && t.core.loader == c.loader && t.core.retryCount == c.retryCount &&
      |t.nodes| >= |nodes| && t.nodes[..|nodes|] == nodes && Distinct(Ids(t.nodes)) &&
      (forall info :: info in c.state.header.nodes ==> info.id in Ids(t.nodes)) &&
      (forall k :: |nodes| <= k < |t.nodes| ==>
        t.nodes[k].info in c.state.header.nodes && t.nodes[k].parts.Some? && t.nodes[k].info.id in t.core.readyNodes)
  {
    var h := c.state.header;
    AddNodesSpec(c.(cache := CacheOf(h.resources)), nodes, h.nodes);
  }

  /** The processing step as the source runs it: one loop over the resources, one over the nodes. */
  method ProcessHeader(c: Core, nodes: seq<TileNode>) returns (t: Tile)
    requires c.state.Processing?
    ensures t == ProcessingStep(c, nodes)
  {
    var h := c.state.header;
    var cache: map<Option<string>, ResourceInfo> := map[];
    var i := 0;
    while i < |h.resources|
      invariant 0 <= i <= |h.resources|
      invariant cache == CacheOf(h.resources[..i])
    {
      assert h.resources[..i + 1][..i] == h.resources[..i];
      cache := cache[h.resources[i].id := h.resources[i]];
      i := i + 1;
    }
    assert h.resources[..i] == h.resources;
    var core := c.(cache := cache);
    var ns := nodes;
    var j := 0;
    while j < |h.nodes|
      invariant 0 <= j <= |h.nodes|
      invariant (core, ns) == AddNodes(c.(cache := cache), nodes, h.nodes[..j])
    {
      assert h.nodes[..j + 1][..j] == h.nodes[..j];
      var info := h.nodes[j];
      if info.id !in Ids(ns) {
        var (c2, n) := ShowNode(core, FreshNode(info));
        core, ns := c2, ns + [n];
      }
      j := j + 1;
    }
    assert h.nodes[..j] == h.nodes;
    t := Tile(core.(state := Ready), ns);
  }

  // ---------------------------------------------------------------------------------------
  // Unloading and destroying subtrees

  /** Unloads a tile and, below it, every tile and node; nothing loaded is dropped. */
  function UnloadTile(t: Tile): (r: Tile)
    ensures r.core == t.core.(readyNodes := r.core.readyNodes, active := false)
    ensures |r.nodes| == |t.nodes| && forall i :: 0 <= i < |t.nodes| ==> r.nodes[i].info == t.nodes[i].info
    decreases t
  {
    var (c, ns) := UnloadNodes(t.core, t.nodes);
    Tile(c.(active := false), ns)
  }

  function UnloadNodes(c: Core, ns: seq<TileNode>): (r: (Core, seq<TileNode>))
    ensures r.0 == c.(readyNodes := r.0.readyNodes, active := r.0.active)
    ensures |r.1| == |ns| && forall i :: 0 <= i < |ns| ==> r.1[i].info == ns[i].info
    decreases ns
  {
    if ns == [] then (c, [])
    else
      var (c1, n1) := UnloadNode(c, ns[0]);
      var (c2, rest) := UnloadNodes(c1, ns[1..]);
      (c2, [n1] + rest)
  }

  /** Unloads a node together with every tile below it. */
  function UnloadNode(c: Core, n: TileNode): (r: (Core, TileNode))
    ensures r.1.info == n.info
    decreases n
  {
    UnloadSelf(c, n.(childTiles := UnloadTiles(n.childTiles)))
  }

  function UnloadTiles(ts: seq<Tile>): (r: seq<Tile>)
    ensures |r| == |ts|
    decreases ts
  {
    if ts == [] then [] else [UnloadTile(ts[0])] + UnloadTiles(ts[1..])
  }

  /** No object of the tile, or of anything below it, is active. */
  predicate Hidden(t: Tile)
    decreases t
  {
    !t.core.active && forall i :: 0 <= i < |t.nodes| ==> NodeHidden(t.nodes[i])
  }

  predicate NodeHidden(n: TileNode)
    decreases n
  {
    (n.parts.None? || !n.active) && forall j :: 0 <= j < |n.childTiles| ==> Hidden(n.childTiles[j])
  }

  /** After unloading a tile, nothing at or below it is active. */
  lemma {:induction false} UnloadHides(t: Tile)
    ensures Hidden(UnloadTile(t))
    decreases t, 1
  {
    UnloadNodesHide(t.core, t.nodes);
  }

  lemma {:induction false} UnloadNodesHide(c: Core, ns: seq<TileNode>)
    ensures forall i :: 0 <= i < |ns| ==> NodeHidden(UnloadNodes(c, ns).1[i])
    decreases ns, 0
  {
    if ns != [] {
      UnloadNodeHides(c, ns[0]);
      var (c1, n1) := UnloadNode(c, ns[0]);
      UnloadNodesHide(c1, ns[1..]);
      var r := UnloadNodes(c, ns).1;
      assert r == [n1] + UnloadNodes(c1, ns[1..]).1;
      forall i | 0 <= i < |ns| ensures NodeHidden(r[i]) {
        if i > 0 { assert r[i] == UnloadNodes(c1, ns[1..]).1[i - 1]; }
      }
    }
  }

  lemma {:induction false} UnloadNodeHides(c: Core, n: TileNode)
    ensures NodeHidden(UnloadNode(c, n).1)
    decreases n, 1
  {
    UnloadTilesHide(n.childTiles);
  }

  lemma {:induction false} UnloadTilesHide(ts: seq<Tile>)
    ensures forall j :: 0 <= j < |ts| ==> Hidden(UnloadTiles(ts)[j])
    decreases ts, 0
  {
    if ts != [] {
      UnloadHides(ts[0]);
      UnloadTilesHide(ts[1..]);
      var r := UnloadTiles(ts);
      forall j | 0 <= j < |ts| ensures Hidden(r[j]) {
        if j > 0 { assert r[j] == UnloadTiles(ts[1..])[j - 1]; }
      }
    }
  }

  /**
   * Destroys a tile: cancels its task, destroys its nodes (and everything below), forgets
   * its nodes and resources and stops listening to its loader. Returns the cancel commands.
   */
  function DestroyTile(t: Tile): (r: (Tile, seq<L.Command>))
    ensures t.core.destroyed ==> r == (t, [])
    ensures !t.core.destroyed ==>
      r.0.core == t.core.(loader := r.0.core.loader, state := Unloaded, cache := map[], readyNodes := [],
                          active := false, destroyed := true) &&
      r.0.nodes == [] && !L.IsLoading(r.0.core.loader)
    decreases t
  {
    if t.core.destroyed then (t, [])
    else
      var (l, cancel) := L.Cancel(t.core.loader);
      (Tile(t.core.(loader := l, state := Unloaded, cache := map[], readyNodes := [], active := false, destroyed := true), []),
       cancel + DestroyNodes(t.nodes))
  }

  function DestroyNodes(ns: seq<TileNode>): seq<L.Command>
    decreases ns
  {
    if ns == [] then [] else DestroyNode(ns[0]).1 + DestroyNodes(ns[1..])
  }

  /** Destroys a node: its child tiles, then its object. */
  function DestroyNode(n: TileNode): (r: (TileNode, seq<L.Command>))
    ensures n.destroyed ==> r == (n, [])
    ensures r.0.destroyed && r.0.info == n.info
    ensures !n.destroyed ==> r.0.childTiles == [] && r.0.parts.None?
    decreases n
  {
    if n.destroyed then (n, [])
    else (n.(childTiles := [], parts := None, active := false, destroyed := true), DestroyTiles(n.childTiles))
  }

  function DestroyTiles(ts: seq<Tile>): seq<L.Command>
    decreases ts
  {
    if ts == [] then [] else DestroyTile(ts[0]).1 + DestroyTiles(ts[1..])
  }

  /** Destroys a node's child tiles and forgets them. */
  function DestroyChildren(n: TileNode): (r: (TileNode, seq<L.Command>))
    ensures r.0 == n.(childTiles := [])
  {
    (n.(childTiles := []), DestroyTiles(n.childTiles))
  }

  /** Destroying a second time does nothing. */
  lemma DestroyIdempotent(t: Tile)
    ensures DestroyTile(DestroyTile(t).0) == (DestroyTile(t).0, [])
  {
  }

  /** Destroying a subtree only ever cancels tasks, and cancels the task its tile holds. */
  lemma {:induction false} DestroyOnlyCancels(t: Tile)
    ensures forall k :: 0 <= k < |DestroyTile(t).1| ==> DestroyTile(t).1[k].CancelTask?
    ensures !t.core.destroyed && L.IsLoading(t.core.loader) ==>
      DestroyTile(t).1[0] == L.CancelTask(t.core.loader.task.value)
    decreases t, 1
  {
    if !t.core.destroyed {
      DestroyNodesOnlyCancel(t.nodes);
      var cancel := L.Cancel(t.core.loader).1;
      var rest := DestroyNodes(t.nodes);
      assert DestroyTile(t).1 == cancel + rest;
      assert forall k :: 0 <= k < |cancel| ==> cancel[k].CancelTask?;
    }
  }

  lemma {:induction false} DestroyNodesOnlyCancel(ns: seq<TileNode>)
    ensures forall k :: 0 <= k < |DestroyNodes(ns)| ==> DestroyNodes(ns)[k].CancelTask?
    decreases ns, 0
  {
    if ns != [] {
      if !ns[0].destroyed {
        DestroyTilesOnlyCancel(ns[0].childTiles);
        assert DestroyNode(ns[0]).1 == DestroyTiles(ns[0].childTiles);
      }
      DestroyNodesOnlyCancel(ns[1..]);
      var a: seq<L.Command> := DestroyNode(ns[0]).1;
      var b: seq<L.Command> := DestroyNodes(ns[1..]);
      assert DestroyNodes(ns) == a + b;
      forall k | 0 <= k < |a + b| ensures (a + b)[k].CancelTask? {
        if k >= |a| { assert (a + b)[k] == b[k - |a|]; }
      }
    }
  }

  lemma {:induction false} DestroyTilesOnlyCancel(ts: seq<Tile>)
    ensures forall k :: 0 <= k < |DestroyTiles(ts)| ==> DestroyTiles(ts)[k].CancelTask?
    decreases ts, 0
  {
    if ts != [] {
      DestroyOnlyCancels(ts[0]);
      DestroyTilesOnlyCancel(ts[1..]);
      var a: seq<L.Command> := DestroyTile(ts[0]).1;
      var b: seq<L.Command> := DestroyTiles(ts[1..]);
      assert DestroyTiles(ts) == a + b;
      forall k | 0 <= k < |a + b| ensures (a + b)[k].CancelTask? {
        if k >= |a| { assert (a + b)[k] == b[k - |a|]; }
      }
    }
  }

  // ---------------------------------------------------------------------------------------
  // The deferred-unload list

  /**
   * Walks up from the nearest ancestor to the first one whose object exists and takes it
   * off the list of nodes to unload (its first occurrence). `anc` lists the ancestors from
   * the top down.
   */
  function CheckAndRemoveParent(queue: seq<Ref>, anc: seq<Anc>): (q: seq<Ref>)
    ensures forall x :: x in q ==> x in queue
    decreases |anc|
  {
    if anc == [] then queue
    else if anc[|anc| - 1].ready then RemoveFirst(queue, anc[|anc| - 1].at)
    else CheckAndRemoveParent(queue, anc[..|anc| - 1])
  }

  /** Exactly the nearest ancestor whose object exists is taken off the list; with none, nothing. */
  lemma {:induction false} NearestReadyAncestorRemoved(queue: seq<Ref>, anc: seq<Anc>, i: int)
    requires -1 <= i < |anc|
    requires i >= 0 ==> anc[i].ready
    requires forall j :: i < j < |anc| ==> !anc[j].ready
    ensures i == -1 ==> CheckAndRemoveParent(queue, anc) == queue
    ensures i >= 0 ==> CheckAndRemoveParent(queue, anc) == RemoveFirst(queue, anc[i].at)
    decreases |anc|
  {
    if i < |anc| - 1 {
      var init := anc[..|anc| - 1];
      assert forall j :: 0 <= j < |init| ==> init[j] == anc[j];
      NearestReadyAncestorRemoved(queue, init, i);
    }
  }

  // ---------------------------------------------------------------------------------------
  // Processing the tree for one frame

  /**
   * Sizes that bound the processing recursion: a node counts its children (the tiles it may
   * still create), a tile the nodes of a header it has yet to process.
   */
  function TileSize(t: Tile): nat
    decreases t
  {
    1 + NodesSize(t.nodes) + (if t.core.state.Processing? then InfosWeight(t.core.state.header.nodes) else 0)
  }

  function NodesSize(ns: seq<TileNode>): nat
    decreases ns
  {
    if ns == [] then 0 else NodesSize(ns[..|ns| - 1]) + NodeSize(ns[|ns| - 1])
  }

  function NodeSize(n: TileNode): nat
    decreases n
  {
    1 + |n.info.children| + TilesSize(n.childTiles)
  }

  function TilesSize(ts: seq<Tile>): nat
    decreases ts
  {
    if ts == [] then 0 else TilesSize(ts[..|ts| - 1]) + TileSize(ts[|ts| - 1])
  }

  function InfosWeight(infos: seq<NodeInfo>): nat {
    if infos == [] then 0 else InfosWeight(infos[..|infos| - 1]) + 1 + |infos[|infos| - 1].children|
  }

  lemma {:induction false} AddNodesSize(c: Core, ns: seq<TileNode>, infos: seq<NodeInfo>)
    ensures NodesSize(AddNodes(c, ns, infos).1) <= NodesSize(ns) + InfosWeight(infos)
    decreases |infos|
  {
    if infos != [] {
      AddNodesSize(c, ns, infos[..|infos| - 1]);
      var (c1, ns1) := AddNodes(c, ns, infos[..|infos| - 1]);
      var info := infos[|infos| - 1];
      if info.id !in Ids(ns1) {
        var n := ShowNode(c1, FreshNode(info)).1;
        assert (ns1 + [n])[..|ns1|] == ns1;
        assert NodeSize(n) == 1 + |info.children| by { assert n.childTiles == []; }
        assert NodesSize(ns1 + [n]) == NodesSize(ns1) + NodeSize(n);
      }
    }
  }

  lemma {:induction false} FreshTilesSize(base: string, ids: seq<string>)
    ensures TilesSize(FreshTiles(base, ids)) == |ids|
    decreases |ids|
  {
    if ids != [] {
      FreshTilesSize(base, ids[..|ids| - 1]);
      var ts := FreshTiles(base, ids);
      assert ts[..|ids| - 1] == FreshTiles(base, ids[..|ids| - 1]);
      assert TileSize(ts[|ids| - 1]) == 1 by { assert ts[|ids| - 1].nodes == []; }
    }
  }

  /** Whether a node is to be refined: its projection is larger than allowed, and it has children. */
  predicate Refines(n: TileNode, v: View) {
    v.screenDiameter(n.info) > n.info.maxScreenDiameter && |n.info.children| > 0
  }

  predicate SomeUninitialized(ts: seq<Tile>) {
    exists i :: 0 <= i < |ts| && Uninitialized(ts[i])
  }

  /**
   * One frame's processing of a tile at `at`: load it if it has no nodes, process a
   * delivered header or retry a failure, then process its nodes in order. `base` is the
   * root node's base url; `anc` the ancestor nodes from the top down.
   */
  function ProcessTile(t: Tile, s: Settings, v: View, base: string, at: Ref, anc: seq<Anc>, ctx: Ctx): (r: (Tile, Ctx))
    ensures t.core.destroyed ==> r == (t, ctx)
    ensures r.0.core.url == t.core.url
    ensures |r.0.nodes| >= |t.nodes| && forall i :: 0 <= i < |t.nodes| ==> r.0.nodes[i].info == t.nodes[i].info
    decreases TileSize(t), 0
  {
    if t.core.destroyed then (t, ctx)
    else
      var (c1, ctx1) := if Uninitialized(t) then StartResourceLoad(t.core, s, ctx) else (t.core, ctx);
      var (t2, ctx2) :=
        if c1.state.Processing? then
          AddNodesSize(c1.(cache := CacheOf(c1.state.header.resources)), t.nodes, c1.state.header.nodes);
          (ProcessingStep(c1, t.nodes), ctx1)
        else if c1.state == Failed then
          var (c2, x) := StartResourceLoad(c1, s, ctx1);
          (Tile(c2, t.nodes), x)
        else (Tile(c1, t.nodes), ctx1);
      var (c3, ns, ctx3) := ProcessNodes(t2.core, t2.nodes, s, v, base, at, anc, ctx2);
      (Tile(c3, ns), ctx3)
  }

  /** Processes the nodes `ns` of the tile at `at`, in order, threading the tile's state. */
  function ProcessNodes(c: Core, ns: seq<TileNode>, s: Settings, v: View, base: string, at: Ref, anc: seq<Anc>, ctx: Ctx)
    : (r: (Core, seq<TileNode>, Ctx))
    ensures r.0.url == c.url
    ensures |r.1| == |ns| && forall i :: 0 <= i < |ns| ==> r.1[i].info == ns[i].info
    decreases NodesSize(ns), 1
  {
    if ns == [] then (c, [], ctx)
    else
      var k := |ns| - 1;
      assert NodesSize(ns) == NodesSize(ns[..k]) + NodeSize(ns[k]);
      var (c1, done, ctx1) := ProcessNodes(c, ns[..k], s, v, base, at, anc, ctx);
      var (c2, n, ctx2) := ProcessNode(c1, ns[k], s, v, base, Ref(at.root, at.trail + [k]), anc, ctx1);
      (c2, done + [n], ctx2)
  }

  /**
   * One frame's processing of the node at `at` of a tile with state `c`.
   *
   * A node that refines creates its child tiles once and processes them; it stays shown
   * while any of them has no nodes yet, and is listed for unloading at the end of the frame
   * otherwise. A node that does not refine is shown once its tile is ready, its child tiles
   * then unloaded (with the memory cache) or destroyed; before that its tile is (re)loaded
   * and its nearest shown ancestor is taken off the unload list, so that it stays.
   */
  function ProcessNode(c: Core, n: TileNode, s: Settings, v: View, base: string, at: Ref, anc: seq<Anc>, ctx: Ctx)
    : (r: (Core, TileNode, Ctx))
    ensures r.0.url == c.url && r.1.info == n.info
    decreases NodeSize(n), 0
  {
    if n.destroyed then (c, n, ctx)
    else if Refines(n, v) then
      var kids := if n.childTiles == [] then FreshTilesSize(base, n.info.children); FreshTiles(base, n.info.children)
                  else n.childTiles;
      var (kids2, ctx1) := ProcessTiles(kids, s, v, base, at, anc + [Anc(at, n.parts.Some?)], ctx);
      var n1 := n.(childTiles := kids2);
      if SomeUninitialized(kids2) then
        var (c2, n2) := ShowNode(c, n1);
        (c2, n2, ctx1)
      else (c, n1, ctx1.(queue := ctx1.queue + [at]))
    else if c.state == Ready then
      var (c2, n2) := ShowNode(c, n);
      if s.enableMemoryCache then (c2, n2.(childTiles := UnloadTiles(n2.childTiles)), ctx)
      else
        var (n3, cmds) := DestroyChildren(n2);
        (c2, n3, ctx.(commands := ctx.commands + cmds))
    else
      var (c2, ctx2) := StartResourceLoad(c, s, ctx);
      (c2, n, ctx2.(queue := CheckAndRemoveParent(ctx2.queue, anc)))
  }

  /** Processes the child tiles `ts` of the node at `at`, in order. */
  function ProcessTiles(ts: seq<Tile>, s: Settings, v: View, base: string, at: Ref, anc: seq<Anc>, ctx: Ctx)
    : (r: (seq<Tile>, Ctx))
    ensures |r.0| == |ts| && forall i :: 0 <= i < |ts| ==> r.0[i].core.url == ts[i].core.url
    decreases TilesSize(ts), 1
  {
    if ts == [] then ([], ctx)
    else
      var k := |ts| - 1;
      assert TilesSize(ts) == TilesSize(ts[..k]) + TileSize(ts[k]);
      var (done, ctx1) := ProcessTiles(ts[..k], s, v, base, at, anc, ctx);
      var (t, ctx2) := ProcessTile(ts[k], s, v, base, Ref(at.root, at.trail + [k]), anc, ctx1);
      (done + [t], ctx2)
  }

  // ---------------------------------------------------------------------------------------
  // The load state across a frame

  /** A tile whose load the frame will neither start nor retry. */
  predicate Settled(c: Core, s: Settings) {
    c.destroyed || (c.state != Unloaded && (c.state != Failed || c.retryCount >= s.failRetryCount))
  }

  /** Processing a node of a settled tile changes only which of the tile's nodes are shown. */
  lemma ProcessNodeKeepsSettled(c: Core, n: TileNode, s: Settings, v: View, base: string, at: Ref, anc: seq<Anc>, ctx: Ctx)
    requires Settled(c, s)
    ensures var r := ProcessNode(c, n, s, v, base, at, anc, ctx);
      r.0 == c.(readyNodes := r.0.readyNodes, active := r.0.active)
  {
  }

  /** Processing the nodes of a settled tile changes only which of its nodes are shown. */
  lemma {:induction false} ProcessNodesKeepSettled(c: Core, ns: seq<TileNode>, s: Settings, v: View, base: string, at: Ref, anc: seq<Anc>, ctx: Ctx)
    requires Settled(c, s)
    ensures var r := ProcessNodes(c, ns, s, v, base, at, anc, ctx);
      r.0 == c.(readyNodes := r.0.readyNodes, active := r.0.active)
    decreases |ns|
  {
    if ns != [] {
      var k := |ns| - 1;
      ProcessNodesKeepSettled(c, ns[..k], s, v, base, at, anc, ctx);
      var (c1, done, ctx1) := ProcessNodes(c, ns[..k], s, v, base, at, anc, ctx);
      ProcessNodeKeepsSettled(c1, ns[k], s, v, base, Ref(at.root, at.trail + [k]), anc, ctx1);
    }
  }

  /**
   * One frame moves a tile's load on by one step: an unloaded tile without nodes starts
   * loading, a failed one is retried while retries are left and stays failed after, a
   * delivered header is processed and the tile becomes ready with the header's resources
   * cached, and a loading or ready tile keeps its state.
   */
  lemma {:induction false} TileLoadStep(t: Tile, s: Settings, v: View, base: string, at: Ref, anc: seq<Anc>, ctx: Ctx)
    requires !t.core.destroyed
    ensures var r := ProcessTile(t, s, v, base, at, anc, ctx).0.core;
      && (Uninitialized(t) && t.core.state == Unloaded ==>
            r.state == Loading && L.IsLoading(r.loader) && r.retryCount == t.core.retryCount)
      && (t.core.state == Failed && t.core.retryCount < s.failRetryCount ==>
            r.state == Loading && L.IsLoading(r.loader) && r.retryCount == t.core.retryCount + 1)
      && (t.core.state == Failed && t.core.retryCount >= s.failRetryCount ==>
            r.state == Failed && r.loader == t.core.loader && r.retryCount == t.core.retryCount)
      && (t.core.state.Processing? ==>
            r.state == Ready && r.cache == CacheOf(t.core.state.header.resources) && r.loader == t.core.loader)
      && (t.core.state == Loading || t.core.state == Ready ==>
            r.state == t.core.state && r.loader == t.core.loader && r.cache == t.core.cache)
  {
    var c := t.core;
    var (c1, ctx1) := if Uninitialized(t) then StartResourceLoad(c, s, ctx) else (c, ctx);
    var (t2, ctx2) :=
      if c1.state.Processing? then (ProcessingStep(c1, t.nodes), ctx1)
      else if c1.state == Failed then
        var (c2, x) := StartResourceLoad(c1, s, ctx1);
        (Tile(c2, t.nodes), x)
      else (Tile(c1, t.nodes), ctx1);
    if c1.state.Processing? {
      var h := c1.state.header;
      var (c4, ns4) := AddNodes(c1.(cache := CacheOf(h.resources)), t.nodes, h.nodes);
      assert t2.core == c4.(state := Ready);
    }
    if c.state == Unloaded && Uninitialized(t) {
      assert t2 == Tile(c1, []);
    } else if c.state != Unloaded {
      assert Settled(t2.core, s);
      ProcessNodesKeepSettled(t2.core, t2.nodes, s, v, base, at, anc, ctx2);
    }
  }

  // ---------------------------------------------------------------------------------------
  // What a frame's processing does outside the subtree it processes

  /** `x` is `at` or lies below it, at least `extra` steps down. */
  predicate Below(x: Ref, at: Ref, extra: nat) {
    x.root == at.root && |x.trail| >= |at.trail| + extra && x.trail[..|at.trail|] == at.trail
  }

  /**
   * `after` extends `before`: task names only grow, commands are only appended, and the
   * unload list gains no entry but at least `extra` steps below `at`.
   */
  predicate Follows(before: Ctx, after: Ctx, at: Ref, extra: nat) {
    before.nextTask <= after.nextTask &&
    |before.commands| <= |after.commands| && after.commands[..|before.commands|] == before.commands &&
    forall x :: x in after.queue ==> x in before.queue || Below(x, at, extra)
  }

  lemma FollowsTrans(a: Ctx, b: Ctx, c: Ctx, at: Ref, extra: nat)
    requires Follows(a, b, at, extra) && Follows(b, c, at, extra)
    ensures Follows(a, c, at, extra)
  {
    assert c.commands[..|a.commands|] == c.commands[..|b.commands|][..|a.commands|];
  }

  lemma FollowsChild(a: Ctx, b: Ctx, at: Ref, k: nat, extra: nat)
    requires Follows(a, b, Ref(at.root, at.trail + [k]), extra)
    ensures Follows(a, b, at, extra + 1)
  {
    forall x | x in b.queue && x !in a.queue ensures Below(x, at, extra + 1) {
      assert x.trail[..|at.trail|] == x.trail[..|at.trail| + 1][..|at.trail|];
      assert (at.trail + [k])[..|at.trail|] == at.trail;
    }
  }

  lemma FollowsWeaken(a: Ctx, b: Ctx, at: Ref, more: nat, fewer: nat)
    requires Follows(a, b, at, more) && fewer <= more
    ensures Follows(a, b, at, fewer)
  {
  }

  lemma StartFollows(c: Core, s: Settings, ctx: Ctx, at: Ref, extra: nat)
    ensures Follows(ctx, StartResourceLoad(c, s, ctx).1, at, extra)
  {
    assert ctx.commands[..|ctx.commands|] == ctx.commands;
  }

  lemma FollowsItself(ctx: Ctx, at: Ref, extra: nat)
    ensures Follows(ctx, ctx, at, extra)
  {
    assert ctx.commands[..|ctx.commands|] == ctx.commands;
  }

  /** Processing a tile adds to the unload list only nodes of its own subtree. */
  lemma {:induction false} ProcessTileFollows(t: Tile, s: Settings, v: View, base: string, at: Ref, anc: seq<Anc>, ctx: Ctx)
    ensures Follows(ctx, ProcessTile(t, s, v, base, at, anc, ctx).1, at, 1)
    decreases TileSize(t), 0
  {
    if t.core.destroyed {
      FollowsItself(ctx, at, 1);
    } else {
      var (c1, ctx1) := if Uninitialized(t) then StartResourceLoad(t.core, s, ctx) else (t.core, ctx);
      if Uninitialized(t) { StartFollows(t.core, s, ctx, at, 1); } else { FollowsItself(ctx, at, 1); }
      var (t2, ctx2) :=
        if c1.state.Processing? then (ProcessingStep(c1, t.nodes), ctx1)
        else if c1.state == Failed then
          var (c2, x) := StartResourceLoad(c1, s, ctx1);
          (Tile(c2, t.nodes), x)
        else (Tile(c1, t.nodes), ctx1);
      if c1.state.Processing? {
        AddNodesSize(c1.(cache := CacheOf(c1.state.header.resources)), t.nodes, c1.state.header.nodes);
        FollowsItself(ctx1, at, 1);
      } else if c1.state == Failed {
        StartFollows(c1, s, ctx1, at, 1);
      } else {
        FollowsItself(ctx1, at, 1);
      }
      FollowsTrans(ctx, ctx1, ctx2, at, 1);
      ProcessNodesFollow(t2.core, t2.nodes, s, v, base, at, anc, ctx2);
      FollowsTrans(ctx, ctx2, ProcessNodes(t2.core, t2.nodes, s, v, base, at, anc, ctx2).2, at, 1);
    }
  }

  lemma {:induction false} ProcessNodesFollow(c: Core, ns: seq<TileNode>, s: Settings, v: View, base: string, at: Ref, anc: seq<Anc>, ctx: Ctx)
    ensures Follows(ctx, ProcessNodes(c, ns, s, v, base, at, anc, ctx).2, at, 1)
    decreases NodesSize(ns), 1
  {
    if ns == [] {
      FollowsItself(ctx, at, 1);
    } else {
      var k := |ns| - 1;
      assert NodesSize(ns) == NodesSize(ns[..k]) + NodeSize(ns[k]);
      ProcessNodesFollow(c, ns[..k], s, v, base, at, anc, ctx);
      var (c1, done, ctx1) := ProcessNodes(c, ns[..k], s, v, base, at, anc, ctx);
      var here := Ref(at.root, at.trail + [k]);
      ProcessNodeFollows(c1, ns[k], s, v, base, here, anc, ctx1);
      var ctx2 := ProcessNode(c1, ns[k], s, v, base, here, anc, ctx1).2;
      FollowsChild(ctx1, ctx2, at, k, 0);
      FollowsTrans(ctx, ctx1, ctx2, at, 1);
    }
  }

  /** Processing a node adds to the unload list only itself and nodes below it. */
  lemma {:induction false} ProcessNodeFollows(c: Core, n: TileNode, s: Settings, v: View, base: string, at: Ref, anc: seq<Anc>, ctx: Ctx)
    ensures Follows(ctx, ProcessNode(c, n, s, v, base, at, anc, ctx).2, at, 0)
    decreases NodeSize(n), 0
  {
    var r := ProcessNode(c, n, s, v, base, at, anc, ctx);
    if n.destroyed {
      FollowsItself(ctx, at, 0);
    } else if Refines(n, v) {
      if n.childTiles == [] { FreshTilesSize(base, n.info.children); }
      var kids := if n.childTiles == [] then FreshTiles(base, n.info.children) else n.childTiles;
      ProcessTilesFollow(kids, s, v, base, at, anc + [Anc(at, n.parts.Some?)], ctx);
      var ctx1 := ProcessTiles(kids, s, v, base, at, anc + [Anc(at, n.parts.Some?)], ctx).1;
      FollowsWeaken(ctx, ctx1, at, 1, 0);
      assert r.2 == ctx1 || r.2 == ctx1.(queue := ctx1.queue + [at]);
      QueueSelfFollows(ctx1, r.2, at);
      FollowsTrans(ctx, ctx1, r.2, at, 0);
    } else {
      LeafNodeFollows(c, n, s, v, base, at, anc, ctx);
    }
  }

  /** Queueing the node itself, or nothing, keeps to the node's subtree. */
  lemma QueueSelfFollows(ctx1: Ctx, ctx2: Ctx, at: Ref)
    requires ctx2 == ctx1 || ctx2 == ctx1.(queue := ctx1.queue + [at])
    ensures Follows(ctx1, ctx2, at, 0)
  {
    assert ctx1.commands[..|ctx1.commands|] == ctx1.commands;
  }

  /** A node that does not refine adds no entry to the unload list and only appends commands. */
  lemma LeafNodeFollows(c: Core, n: TileNode, s: Settings, v: View, base: string, at: Ref, anc: seq<Anc>, ctx: Ctx)
    requires !n.destroyed && !Refines(n, v)
    ensures Follows(ctx, ProcessNode(c, n, s, v, base, at, anc, ctx).2, at, 0)
  {
    var r := ProcessNode(c, n, s, v, base, at, anc, ctx);
    if c.state == Ready {
      assert ctx.commands[..|ctx.commands|] == ctx.commands;
      assert r.2.commands[..|ctx.commands|] == ctx.commands;
    } else {
      StartFollows(c, s, ctx, at, 0);
    }
  }

  lemma {:induction false} ProcessTilesFollow(ts: seq<Tile>, s: Settings, v: View, base: string, at: Ref, anc: seq<Anc>, ctx: Ctx)
    ensures Follows(ctx, ProcessTiles(ts, s, v, base, at, anc, ctx).1, at, 1)
    decreases TilesSize(ts), 1
  {
    if ts == [] {
      FollowsItself(ctx, at, 1);
    } else {
      var k := |ts| - 1;
      assert TilesSize(ts) == TilesSize(ts[..k]) + TileSize(ts[k]);
      ProcessTilesFollow(ts[..k], s, v, base, at, anc, ctx);
      var ctx1 := ProcessTiles(ts[..k], s, v, base, at, anc, ctx).1;
      var here := Ref(at.root, at.trail + [k]);
      ProcessTileFollows(ts[k], s, v, base, here, anc, ctx1);
      var ctx2 := ProcessTile(ts[k], s, v, base, here, anc, ctx1).1;
      FollowsChild(ctx1, ctx2, at, k, 1);
      FollowsWeaken(ctx1, ctx2, at, 2, 1);
      FollowsTrans(ctx, ctx1, ctx2, at, 1);
    }
  }

  /**
   * A node is listed for unloading only when it refines and every one of its child tiles
   * has nodes to show in its place; while some child tile has none, the node stays shown.
   */
  lemma HiddenOnlyOverInitializedChildren(c: Core, n: TileNode, s: Settings, v: View, base: string, at: Ref, anc: seq<Anc>, ctx: Ctx)
    requires at !in ctx.queue
    ensures var r := ProcessNode(c, n, s, v, base, at, anc, ctx);
      (at in r.2.queue ==> !n.destroyed && Refines(n, v) && |r.1.childTiles| > 0 && !SomeUninitialized(r.1.childTiles)) &&
      (!n.destroyed && Refines(n, v) && SomeUninitialized(r.1.childTiles) ==> r.1.parts.Some? && r.1.active)
  {
    if !n.destroyed && Refines(n, v) {
      if n.childTiles == [] { FreshTilesSize(base, n.info.children); }
      var kids := if n.childTiles == [] then FreshTiles(base, n.info.children) else n.childTiles;
      ProcessTilesFollow(kids, s, v, base, at, anc + [Anc(at, n.parts.Some?)], ctx);
    }
  }

  /**
   * A node that does not refine, once its tile is ready, is shown, and what lies below it is
   * destroyed, or with the memory cache unloaded and kept.
   */
  lemma ShownWhenTileReady(c: Core, n: TileNode, s: Settings, v: View, base: string, at: Ref, anc: seq<Anc>, ctx: Ctx)
    requires !n.destroyed && !Refines(n, v) && c.state == Ready
    ensures var r := ProcessNode(c, n, s, v, base, at, anc, ctx);
      r.1.parts.Some? && r.1.active && n.info.id in r.0.readyNodes && r.2.queue == ctx.queue &&
      (!s.enableMemoryCache ==> r.1.childTiles == []) &&
      (s.enableMemoryCache ==> |r.1.childTiles| == |n.childTiles| && forall j :: 0 <= j < |r.1.childTiles| ==> Hidden(r.1.childTiles[j]))
  {
    UnloadTilesHide(n.childTiles);
  }

  /**
   * A refining node's child tiles are created once, one per child id, at the root node's
   * base url followed by that id; later frames process the same tiles.
   */
  lemma ChildTilesAtChildUrls(c: Core, n: TileNode, s: Settings, v: View, base: string, at: Ref, anc: seq<Anc>, ctx: Ctx)
    requires !n.destroyed && Refines(n, v)
    ensures var kids := ProcessNode(c, n, s, v, base, at, anc, ctx).1.childTiles;
      (n.childTiles == [] ==> |kids| == |n.info.children| && forall i :: 0 <= i < |kids| ==> kids[i].core.url == base + n.info.children[i]) &&
      (n.childTiles != [] ==> |kids| == |n.childTiles| && forall i :: 0 <= i < |kids| ==> kids[i].core.url == n.childTiles[i].core.url)
  {
    if n.childTiles == [] { FreshTilesSize(base, n.info.children); }
  }

  /** A node that does not refine and whose tile is not ready keeps its child tiles and asks for its tile's load. */
  lemma WaitingNodeKeepsChildren(c: Core, n: TileNode, s: Settings, v: View, base: string, at: Ref, anc: seq<Anc>, ctx: Ctx)
    requires !n.destroyed && !Refines(n, v) && c.state != Ready
    ensures var r := ProcessNode(c, n, s, v, base, at, anc, ctx);
      r.1 == n && r.0 == StartResourceLoad(c, s, ctx).0 &&
      r.2.queue == CheckAndRemoveParent(ctx.queue, anc)
  {
  }

  // ---------------------------------------------------------------------------------------
  // Reaching a tile or a node by its trail

  /**
   * The tile at `trail` below `t`: `[]` is `t`; each step down is a node index followed by
   * an index into that node's child tiles. A trail that leads nowhere gives `None`.
   */
  function TileAt(t: Tile, trail: seq<nat>): Option<Tile>
    decreases |trail|
  {
    if trail == [] then Some(t)
    else if |trail| < 2 || trail[0] >= |t.nodes| || trail[1] >= |t.nodes[trail[0]].childTiles| then None
    else TileAt(t.nodes[trail[0]].childTiles[trail[1]], trail[2..])
  }

  /** Replaces the tile at `trail` below `t` by `f` of it; a trail that leads nowhere changes nothing. */
  function UpdateTile(t: Tile, trail: seq<nat>, f: Tile -> Tile): (r: Tile)
    ensures trail != [] ==> r.core == t.core && |r.nodes| == |t.nodes|
    decreases |trail|
  {
    if trail == [] then f(t)
    else if |trail| < 2 || trail[0] >= |t.nodes| || trail[1] >= |t.nodes[trail[0]].childTiles| then t
    else
      var n := t.nodes[trail[0]];
      var child := UpdateTile(n.childTiles[trail[1]], trail[2..], f);
      t.(nodes := t.nodes[trail[0] := n.(childTiles := n.childTiles[trail[1] := child])])
  }

  /** Updating at a trail is seen at that trail, and only there the update applies. */
  lemma {:induction false} UpdateTileAt(t: Tile, trail: seq<nat>, f: Tile -> Tile)
    ensures TileAt(t, trail).None? ==> UpdateTile(t, trail, f) == t
    ensures TileAt(t, trail).Some? ==> TileAt(UpdateTile(t, trail, f), trail) == Some(f(TileAt(t, trail).value))
    decreases |trail|
  {
    if |trail| >= 2 && trail[0] < |t.nodes| && trail[1] < |t.nodes[trail[0]].childTiles| {
      var n := t.nodes[trail[0]];
      UpdateTileAt(n.childTiles[trail[1]], trail[2..], f);
      if TileAt(t, trail).None? {
        assert n.childTiles[trail[1] := n.childTiles[trail[1]]] == n.childTiles;
        assert n.(childTiles := n.childTiles) == n;
        assert t.nodes[trail[0] := n] == t.nodes;
      }
    }
  }

  /** Unloads node `k` of a tile by itself, if there is such a node. */
  function UnloadNodeOf(t: Tile, k: nat): (r: Tile)
    ensures k >= |t.nodes| ==> r == t
    ensures k < |t.nodes| ==>
      |r.nodes| == |t.nodes| && (r.core, r.nodes[k]) == UnloadSelf(t.core, t.nodes[k]) &&
      r.nodes == t.nodes[k := r.nodes[k]]
  {
    if k >= |t.nodes| then t
    else
      var (c, n) := UnloadSelf(t.core, t.nodes[k]);
      Tile(c, t.nodes[k := n])
  }

  /**
   * The node at `trail` below `t` (a tile's trail followed by a node index): the first index
   * picks a node of `t`, then each further pair picks a child tile and a node of that tile.
   */
  function NodeAt(t: Tile, trail: seq<nat>): Option<TileNode>
    decreases |trail|
  {
    if trail == [] || trail[0] >= |t.nodes| then None
    else if |trail| == 1 then Some(t.nodes[trail[0]])
    else if trail[1] >= |t.nodes[trail[0]].childTiles| then None
    else NodeAt(t.nodes[trail[0]].childTiles[trail[1]], trail[2..])
  }

  /** What a node shows: whether its object exists, and whether it is active. */
  function Shown(n: Option<TileNode>): Option<(bool, bool)> {
    match n
    case None => None
    case Some(m) => Some((m.parts.Some?, m.active))
  }

  /** What a node shows once unloaded by itself: a node whose object exists is inactive. */
  function Quieted(f: Option<(bool, bool)>): Option<(bool, bool)> {
    match f
    case None => None
    case Some((made, active)) => Some((made, active && !made))
  }

  /**
   * Unloading node `k` of the tile at `p` quiets the node at `p + [k]` and leaves every other
   * node showing what it showed.
   */
  lemma {:induction false} UnloadOfShown(t: Tile, p: seq<nat>, k: nat, f: Tile -> Tile, q: seq<nat>)
    requires forall u :: f(u) == UnloadNodeOf(u, k)
    ensures Shown(NodeAt(UpdateTile(t, p, f), q)) ==
      if q == p + [k] then Quieted(Shown(NodeAt(t, q))) else Shown(NodeAt(t, q))
    decreases |p|
  {
    var t2 := UpdateTile(t, p, f);
    if p == [] {
      assert t2 == UnloadNodeOf(t, k);
      if k < |t.nodes| && q != [] && q[0] == k && |q| >= 2 {
        assert t2.nodes[k].childTiles == t.nodes[k].childTiles;
      }
    } else if |p| < 2 || p[0] >= |t.nodes| || p[1] >= |t.nodes[p[0]].childTiles| {
      assert t2 == t;
      if q == p + [k] {
        assert q[0] == p[0] && |q| >= 2 && q[1] == (if |p| == 1 then k else p[1]);
        if |p| == 1 && q[0] < |t.nodes| && q[1] < |t.nodes[q[0]].childTiles| {
          assert q[2..] == [];
        }
      }
    } else {
      var n := t.nodes[p[0]];
      var child := n.childTiles[p[1]];
      assert t2.nodes == t.nodes[p[0] := n.(childTiles := n.childTiles[p[1] := UpdateTile(child, p[2..], f)])];
      if q != [] && q[0] == p[0] && |q| >= 2 && q[1] == p[1] {
        UnloadOfShown(child, p[2..], k, f, q[2..]);
        assert q == p + [k] <==> q[2..] == p[2..] + [k] by {
          if q[2..] == p[2..] + [k] {
            assert q == q[..2] + q[2..] && p == p[..2] + p[2..] && q[..2] == p[..2];
          }
        }
      }
    }
  }

  /** Unloads by itself the node at `trail` (a tile's trail followed by a node index). */
  function UnloadNodeAt(t: Tile, trail: seq<nat>): (r: Tile)
    requires |trail| > 0
    ensures TileAt(t, trail[..|trail| - 1]).None? ==> r == t
    ensures TileAt(t, trail[..|trail| - 1]).Some? ==>
      TileAt(r, trail[..|trail| - 1]) == Some(UnloadNodeOf(TileAt(t, trail[..|trail| - 1]).value, trail[|trail| - 1]))
  {
    var f := u => UnloadNodeOf(u, trail[|trail| - 1]);
    UpdateTileAt(t, trail[..|trail| - 1], f);
    UpdateTile(t, trail[..|trail| - 1], f)
  }

  /** Unloading the node at `trail` quiets that node and no other. */
  lemma UnloadNodeAtShown(t: Tile, trail: seq<nat>, q: seq<nat>)
    requires |trail| > 0
    ensures Shown(NodeAt(UnloadNodeAt(t, trail), q)) ==
      if q == trail then Quieted(Shown(NodeAt(t, q))) else Shown(NodeAt(t, q))
  {
    var k := trail[|trail| - 1];
    UnloadOfShown(t, trail[..|trail| - 1], k, u => UnloadNodeOf(u, k), q);
    assert trail[..|trail| - 1] + [k] == trail;
  }

  /** Task `id` of the tile at `trail` has finished with notifications `ev`; it reaches that tile only. */
  function TaskFinishedAt(t: Tile, trail: seq<nat>, id: nat, ev: seq<D.Notification>): (r: Tile)
    ensures TileAt(t, trail).None? ==> r == t
    ensures TileAt(t, trail).Some? ==> TileAt(r, trail) == Some(TaskFinished(TileAt(t, trail).value, id, ev))
  {
    var f := u => TaskFinished(u, id, ev);
    UpdateTileAt(t, trail, f);
    UpdateTile(t, trail, f)
  }
}
