/**
 * Root nodes: the top-level nodes of a 3MX scene, one per node of the root data file.
 *
 * A root node is a value holding its child tiles. On its first visit it only makes its
 * object and measures its camera distance, so that the component can sort the roots the
 * next frame; afterwards it processes its child tiles while visible, and unloads or destroys
 * them while not.
 */
module RootNodes {
  import opened Wrappers
  import opened DataStruct
  import L = Loader
  import UrlUtils
  import opened Tiles
  import D = Decoder

  /**
   * The camera as a root node sees it: whether a node's world-space bounds are in view, the
   * distance from the camera to a node's local-space center (used on the first visit) and to
   * its world-space center, and what the tiles below see.
   */
  datatype Camera = Camera(
    visible: NodeInfo -> bool,
    firstDistance: NodeInfo -> real,
    distance: NodeInfo -> real,
    view: View)

  datatype RootNode = RootNode(
    key: nat,             // which root it is: its place in the root data file
    info: NodeInfo,
    dataUrl: string,      // the component's base data url
    baseUrl: string,      // where the tiles below its child tiles live
    childTiles: seq<Tile>,
    ready: bool,          // its object exists
    distance: real,
    destroyed: bool)

  /** The root node for `info`: its tiles live in a directory named after its id. */
  function NewRootNode(key: nat, info: NodeInfo, dataUrl: string): (r: RootNode)
    ensures r.baseUrl == dataUrl + UrlUtils.Text(info.id) + "/" && r.dataUrl == dataUrl
    ensures r.childTiles == [] && !r.ready && !r.destroyed && r.info == info && r.key == key
  {
    RootNode(key, info, dataUrl, dataUrl + UrlUtils.Text(info.id) + "/", [], false, 0.0, false)
  }

  /** One frame's processing of a root node. Refs below it start with its key. */
  function ProcessRoot(r: RootNode, s: Settings, cam: Camera, ctx: Ctx): (out: (RootNode, Ctx))
    ensures out.0.key == r.key && out.0.info == r.info
    ensures r.destroyed ==> out == (r, ctx)
  {
    if r.destroyed then (r, ctx)
    else if !r.ready then (r.(ready := true, distance := cam.firstDistance(r.info)), ctx)
    else
      var r1 := r.(distance := cam.distance(r.info));
      if cam.visible(r.info) then
        var kids := if r.childTiles == [] then FreshTiles(r.dataUrl, r.info.children) else r.childTiles;
        var (kids2, ctx1) := ProcessTiles(kids, s, cam.view, r.baseUrl, Ref(r.key, []), [], ctx);
        (r1.(childTiles := kids2), ctx1)
      else if s.enableMemoryCache then (r1.(childTiles := UnloadTiles(r.childTiles)), ctx)
      else (r1.(childTiles := []), ctx.(commands := ctx.commands + DestroyTiles(r.childTiles)))
  }

  /** The first visit makes the node's object and measures its distance, and touches nothing else. */
  lemma FirstVisitOnlyMeasures(r: RootNode, s: Settings, cam: Camera, ctx: Ctx)
    requires !r.destroyed && !r.ready
    ensures ProcessRoot(r, s, cam, ctx) == (r.(ready := true, distance := cam.firstDistance(r.info)), ctx)
  {
  }

  /**
   * A later visit re-measures the distance and, if the node is visible, creates its child
   * tiles once (one per child, at the base data url followed by the child's id) and
   * processes them; the unload list gains only nodes below this root.
   */
  lemma VisibleRootProcessesTiles(r: RootNode, s: Settings, cam: Camera, ctx: Ctx)
    requires !r.destroyed && r.ready && cam.visible(r.info)
    ensures var (r2, ctx2) := ProcessRoot(r, s, cam, ctx);
      r2.distance == cam.distance(r.info) && r2.ready &&
      Follows(ctx, ctx2, Ref(r.key, []), 1) &&
      (r.childTiles == [] ==>
        |r2.childTiles| == |r.info.children| &&
        forall i :: 0 <= i < |r2.childTiles| ==> r2.childTiles[i].core.url == r.dataUrl + r.info.children[i]) &&
      (r.childTiles != [] ==>
        |r2.childTiles| == |r.childTiles| &&
        forall i :: 0 <= i < |r2.childTiles| ==> r2.childTiles[i].core.url == r.childTiles[i].core.url)
  {
    var kids := if r.childTiles == [] then FreshTiles(r.dataUrl, r.info.children) else r.childTiles;
    ProcessTilesFollow(kids, s, cam.view, r.baseUrl, Ref(r.key, []), [], ctx);
  }

  /**
   * While out of view, a root node keeps no tile visible: it destroys its child tiles, or
   * with the memory cache unloads them and keeps them; the unload list is not touched.
   */
  lemma HiddenRootHidesTiles(r: RootNode, s: Settings, cam: Camera, ctx: Ctx)
    requires !r.destroyed && r.ready && !cam.visible(r.info)
    ensures var (r2, ctx2) := ProcessRoot(r, s, cam, ctx);
      ctx2.queue == ctx.queue && ctx2.nextTask == ctx.nextTask &&
      (!s.enableMemoryCache ==> r2.childTiles == []) &&
      (s.enableMemoryCache ==> |r2.childTiles| == |r.childTiles| && forall j :: 0 <= j < |r2.childTiles| ==> Hidden(r2.childTiles[j]))
  {
    UnloadTilesHide(r.childTiles);
  }

  /** Destroys a root node: its child tiles (returning their cancel commands), then its object. */
  function DestroyRoot(r: RootNode): (out: (RootNode, seq<L.Command>))
    ensures r.destroyed ==> out == (r, [])
    ensures !r.destroyed ==> out.0.destroyed && !out.0.ready && out.0.childTiles == []
    ensures forall k :: 0 <= k < |out.1| ==> out.1[k].CancelTask?
  {
    if r.destroyed then (r, [])
    else
      DestroyTilesOnlyCancel(r.childTiles);
      (r.(childTiles := [], ready := false, destroyed := true), DestroyTiles(r.childTiles))
  }

  /** Destroying a root node twice is destroying it once. */
  lemma DestroyRootIdempotent(r: RootNode)
    ensures DestroyRoot(DestroyRoot(r).0) == (DestroyRoot(r).0, [])
  {
  }

  /** The tile at `trail` below this root: the first index picks a child tile. */
  function TileBelow(r: RootNode, trail: seq<nat>): Option<Tile> {
    if trail == [] || trail[0] >= |r.childTiles| then None
    else TileAt(r.childTiles[trail[0]], trail[1..])
  }

  /** The node at `trail` below this root: the first index picks a child tile. */
  function NodeBelow(r: RootNode, trail: seq<nat>): Option<TileNode> {
    if trail == [] || trail[0] >= |r.childTiles| then None
    else NodeAt(r.childTiles[trail[0]], trail[1..])
  }

  /**
   * Unloads by itself the node at `trail` below this root (a tile's trail followed by a node
   * index): the tile holding it unloads that node, and a trail that leads to no tile changes
   * nothing.
   */
  function UnloadNodeBelow(r: RootNode, trail: seq<nat>): (out: RootNode)
    ensures out == r.(childTiles := out.childTiles) && |out.childTiles| == |r.childTiles|
    ensures |trail| < 2 || TileBelow(r, trail[..|trail| - 1]).None? ==> out == r
    ensures |trail| >= 2 && TileBelow(r, trail[..|trail| - 1]).Some? ==>
      TileBelow(out, trail[..|trail| - 1]) == Some(UnloadNodeOf(TileBelow(r, trail[..|trail| - 1]).value, trail[|trail| - 1]))
  {
    if |trail| < 2 || trail[0] >= |r.childTiles| then r
    else
      assert trail[..|trail| - 1][1..] == trail[1..][..|trail[1..]| - 1];
      r.(childTiles := r.childTiles[trail[0] := UnloadNodeAt(r.childTiles[trail[0]], trail[1..])])
  }

  /** Unloading the node at `trail` quiets that node and no other node below this root. */
  lemma UnloadNodeBelowShown(r: RootNode, trail: seq<nat>, q: seq<nat>)
    ensures Shown(NodeBelow(UnloadNodeBelow(r, trail), q)) ==
      if q == trail then Quieted(Shown(NodeBelow(r, q))) else Shown(NodeBelow(r, q))
  {
    var out := UnloadNodeBelow(r, trail);
    if |trail| >= 2 && trail[0] < |r.childTiles| && q != [] && q[0] == trail[0] {
      UnloadNodeAtShown(r.childTiles[trail[0]], trail[1..], q[1..]);
      assert q == trail <==> q[1..] == trail[1..] by {
        if q[1..] == trail[1..] {
          assert q == [q[0]] + q[1..] && trail == [trail[0]] + trail[1..];
        }
      }
    } else if |trail| == 1 && q == trail && trail[0] < |r.childTiles| {
      assert q[1..] == [];
    }
  }

  /** Task `id` of the tile at `trail` below this root has finished with notifications `ev`; it reaches that tile only. */
  function TaskFinishedBelow(r: RootNode, trail: seq<nat>, id: nat, ev: seq<D.Notification>): (out: RootNode)
    ensures out == r.(childTiles := out.childTiles) && |out.childTiles| == |r.childTiles|
    ensures TileBelow(r, trail).None? ==> out == r
    ensures TileBelow(r, trail).Some? ==> TileBelow(out, trail) == Some(TaskFinished(TileBelow(r, trail).value, id, ev))
  {
    if |trail| < 1 || trail[0] >= |r.childTiles| then r
    else r.(childTiles := r.childTiles[trail[0] := TaskFinishedAt(r.childTiles[trail[0]], trail[1..], id, ev)])
  }
}
