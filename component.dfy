/**
 * The scene component: loads the root JSON and the root data file, then, every frame that
 * its update interval allows, sorts the root nodes by camera distance, processes them and
 * unloads the nodes the frame listed for unloading.
 *
 * Time, the camera and the transport are inputs of the methods: `now` is the frame time, a
 * `Camera` is what the camera state answers, a parsed `Uri` is how the URI parser reads a
 * url, and the loaded root header is handed to `OnRootLoaded`. Load tasks are not run here:
 * the component issues `Submit`/`CancelTask` commands for the task pool, and a finished
 * task's notifications come back through `TaskFinished`.
 */
module Component {
  import opened Wrappers
  import opened DataStruct
  import L = Loader
  import D = Decoder
  import UrlUtils
  import opened Tiles
  import opened RootNodes

  // ---------------------------------------------------------------------------------------
  // Ordering the root nodes

  /** Rounds up to an integer. */
  function CeilToInt(x: real): (n: int)
    ensures x <= n as real < x + 1.0
  {
    -((-x).Floor)
  }

  /**
   * The root node comparison: the distance difference rounded away from zero, so that any
   * difference, however small, orders the two.
   */
  function CompareRootNode(left: RootNode, right: RootNode): (c: int)
    ensures c > 0 <==> left.distance > right.distance
    ensures c < 0 <==> left.distance < right.distance
    ensures c > 0 ==> left.distance - right.distance <= c as real < left.distance - right.distance + 1.0
    ensures c < 0 ==> c as real <= left.distance - right.distance < c as real + 1.0
  {
    var d := left.distance - right.distance;
    if d > 0.0 then CeilToInt(d)
    else if d < 0.0 then d.Floor
    else 0
  }

  /** The comparison has the sign of the distance difference, and swapping its sides negates it. */
  lemma CompareSign(a: RootNode, b: RootNode)
    ensures CompareRootNode(a, b) > 0 <==> a.distance > b.distance
    ensures CompareRootNode(a, b) < 0 <==> a.distance < b.distance
    ensures CompareRootNode(a, b) == -CompareRootNode(b, a)
  {
  }

  /** Ordered by the comparison: nearer roots first (see `CompareSign`). */
  predicate SortedByDistance(rs: seq<RootNode>) {
    forall i, j :: 0 <= i < j < |rs| ==> rs[i].distance <= rs[j].distance
  }

  /**
   * Inserts `x` before the first root it compares before; by `CompareSign`, comparing
   * before is being nearer. Roots as near as `x` stay in front of it.
   */
  function Insert(x: RootNode, sorted: seq<RootNode>): (r: seq<RootNode>)
    ensures |r| == |sorted| + 1
    ensures multiset(r) == multiset(sorted) + multiset{x}
  {
    if sorted == [] then [x]
    else if x.distance < sorted[0].distance then [x] + sorted
    else
      assert sorted == [sorted[0]] + sorted[1..];
      [sorted[0]] + Insert(x, sorted[1..])
  }

  /** Every root of a sorted sequence is at least as far as its first. */
  lemma FirstIsNearest(sorted: seq<RootNode>, y: RootNode)
    requires SortedByDistance(sorted) && y in multiset(sorted)
    ensures sorted[0].distance <= y.distance
  {
    var j :| 0 <= j < |sorted| && sorted[j] == y;
    if j > 0 {
      assert sorted[0].distance <= sorted[j].distance;
    }
  }

  /** A root no farther than every root of a sorted sequence can go in front of it. */
  lemma ConsSorted(head: RootNode, r: seq<RootNode>)
    requires SortedByDistance(r)
    requires forall y :: y in multiset(r) ==> head.distance <= y.distance
    ensures SortedByDistance([head] + r)
  {
    var out := [head] + r;
    forall i, j | 0 <= i < j < |out| ensures out[i].distance <= out[j].distance {
      assert out[j] == r[j - 1] && out[j] in multiset(r);
      if i > 0 {
        assert out[i] == r[i - 1];
      }
    }
  }

  lemma {:induction false} InsertSorted(x: RootNode, sorted: seq<RootNode>)
    requires SortedByDistance(sorted)
    ensures SortedByDistance(Insert(x, sorted))
    decreases |sorted|
  {
    if sorted == [] {
      assert Insert(x, sorted) == [x];
    } else if x.distance >= sorted[0].distance {
      var rest := sorted[1..];
      assert sorted == [sorted[0]] + rest;
      InsertSorted(x, rest);
      forall y | y in multiset(Insert(x, rest)) ensures sorted[0].distance <= y.distance {
        if y != x {
          FirstIsNearest(sorted, y);
        }
      }
      ConsSorted(sorted[0], Insert(x, rest));
    } else {
      forall y | y in multiset(sorted) ensures x.distance <= y.distance {
        FirstIsNearest(sorted, y);
      }
      ConsSorted(x, sorted);
    }
  }

  /** The roots, sorted by the comparison (an insertion sort: roots as near as each other keep their order). */
  function SortByDistance(rs: seq<RootNode>): (sorted: seq<RootNode>)
    ensures |sorted| == |rs| && multiset(sorted) == multiset(rs)
  {
    if rs == [] then []
    else
      assert rs == rs[..|rs| - 1] + [rs[|rs| - 1]];
      Insert(rs[|rs| - 1], SortByDistance(rs[..|rs| - 1]))
  }

  /** Sorting yields the same roots, nearest first. */
  lemma {:induction false} SortByDistanceSorted(rs: seq<RootNode>)
    ensures SortedByDistance(SortByDistance(rs)) && multiset(SortByDistance(rs)) == multiset(rs)
    decreases |rs|
  {
    if rs != [] {
      SortByDistanceSorted(rs[..|rs| - 1]);
      InsertSorted(rs[|rs| - 1], SortByDistance(rs[..|rs| - 1]));
    }
  }

  /** A root no nearer than every root of a sequence goes at its end. */
  lemma {:induction false} InsertLast(x: RootNode, sorted: seq<RootNode>)
    requires forall k :: 0 <= k < |sorted| ==> sorted[k].distance <= x.distance
    ensures Insert(x, sorted) == sorted + [x]
    decreases |sorted|
  {
    if sorted != [] {
      InsertLast(x, sorted[1..]);
      assert sorted == [sorted[0]] + sorted[1..];
    }
  }

  /** Roots all as near as each other keep their order. */
  lemma {:induction false} SortKeepsTies(rs: seq<RootNode>)
    requires forall i, j :: 0 <= i < |rs| && 0 <= j < |rs| ==> rs[i].distance == rs[j].distance
    ensures SortByDistance(rs) == rs
    decreases |rs|
  {
    if rs != [] {
      var init := rs[..|rs| - 1];
      SortKeepsTies(init);
      InsertLast(rs[|rs| - 1], init);
      assert init + [rs[|rs| - 1]] == rs;
    }
  }

  // ---------------------------------------------------------------------------------------
  // One frame

  /** Processes the roots in order, threading what they do outside their subtrees. */
  function ProcessRoots(rs: seq<RootNode>, s: Settings, cam: Camera, ctx: Ctx): (r: (seq<RootNode>, Ctx))
    ensures |r.0| == |rs| && forall i :: 0 <= i < |rs| ==> r.0[i].key == rs[i].key && r.0[i].info == rs[i].info
    decreases |rs|
  {
    if rs == [] then ([], ctx)
    else
      var (done, ctx1) := ProcessRoots(rs[..|rs| - 1], s, cam, ctx);
      var (last, ctx2) := ProcessRoot(rs[|rs| - 1], s, cam, ctx1);
      (done + [last], ctx2)
  }

  /**
   * Unloads by itself the node `at` names: the tile holding it unloads that node; roots other
   * than its own, and a reference that leads to no tile, change nothing.
   */
  function UnloadQueued(rs: seq<RootNode>, at: Ref): (r: seq<RootNode>)
    ensures |r| == |rs| && forall i :: 0 <= i < |rs| ==> r[i] == rs[i].(childTiles := r[i].childTiles)
    ensures forall i :: 0 <= i < |rs| && rs[i].key != at.root ==> r[i] == rs[i]
    ensures forall i :: 0 <= i < |rs| && rs[i].key == at.root ==>
      (|at.trail| < 2 || TileBelow(rs[i], at.trail[..|at.trail| - 1]).None? ==> r[i] == rs[i]) &&
      (|at.trail| >= 2 && TileBelow(rs[i], at.trail[..|at.trail| - 1]).Some? ==>
        TileBelow(r[i], at.trail[..|at.trail| - 1]) ==
          Some(UnloadNodeOf(TileBelow(rs[i], at.trail[..|at.trail| - 1]).value, at.trail[|at.trail| - 1])))
  {
    seq(|rs|, i requires 0 <= i < |rs| => if rs[i].key == at.root then UnloadNodeBelow(rs[i], at.trail) else rs[i])
  }

  /** Unloads, in order, each node of the list. */
  function Drain(rs: seq<RootNode>, queue: seq<Ref>): (r: seq<RootNode>)
    ensures |r| == |rs| && forall i :: 0 <= i < |rs| ==> r[i].key == rs[i].key && r[i].info == rs[i].info
    decreases |queue|
  {
    if queue == [] then rs else UnloadQueued(Drain(rs, queue[..|queue| - 1]), queue[|queue| - 1])
  }

  /**
   * After the list is drained, each node it names is quieted (a node whose object exists is
   * inactive), and every node it does not name shows what it showed before.
   */
  lemma {:induction false} DrainQuietsListed(rs: seq<RootNode>, queue: seq<Ref>, i: nat, q: seq<nat>)
    requires i < |rs|
    ensures Shown(NodeBelow(Drain(rs, queue)[i], q)) ==
      if Ref(rs[i].key, q) in queue then Quieted(Shown(NodeBelow(rs[i], q))) else Shown(NodeBelow(rs[i], q))
    decreases |queue|
  {
    if queue != [] {
      var init, at := queue[..|queue| - 1], queue[|queue| - 1];
      DrainQuietsListed(rs, init, i, q);
      var d := Drain(rs, init);
      if d[i].key == at.root {
        UnloadNodeBelowShown(d[i], at.trail, q);
      }
      assert queue == init + [at];
    }
  }

  /** A whole frame over the roots: sort, process, then unload the listed nodes and empty the list. */
  function Frame(rs: seq<RootNode>, s: Settings, cam: Camera, ctx: Ctx): (r: (seq<RootNode>, Ctx))
    ensures |r.0| == |rs| && r.1.queue == []
  {
    var (processed, ctx1) := ProcessRoots(SortByDistance(rs), s, cam, ctx);
    (Drain(processed, ctx1.queue), ctx1.(queue := []))
  }

  lemma {:induction false} ProcessRootsFollow(rs: seq<RootNode>, s: Settings, cam: Camera, ctx: Ctx)
    ensures var ctx2 := ProcessRoots(rs, s, cam, ctx).1;
      ctx.nextTask <= ctx2.nextTask && |ctx.commands| <= |ctx2.commands| &&
      ctx2.commands[..|ctx.commands|] == ctx.commands
    decreases |rs|
  {
    if rs != [] {
      ProcessRootsFollow(rs[..|rs| - 1], s, cam, ctx);
      var ctx1 := ProcessRoots(rs[..|rs| - 1], s, cam, ctx).1;
      var r := rs[|rs| - 1];
      var ctx2 := ProcessRoot(r, s, cam, ctx1).1;
      if !r.destroyed && r.ready && cam.visible(r.info) {
        VisibleRootProcessesTiles(r, s, cam, ctx1);
      } else {
        assert ctx1.commands[..|ctx1.commands|] == ctx1.commands;
      }
      assert ctx2.commands[..|ctx.commands|] == ctx2.commands[..|ctx1.commands|][..|ctx.commands|];
    }
  }

  /**
   * A frame keeps the same roots, now in the order of the distances they had when it
   * started (nearest first).
   */
  lemma FrameKeepsRoots(rs: seq<RootNode>, s: Settings, cam: Camera, ctx: Ctx)
    ensures var rs2 := Frame(rs, s, cam, ctx).0;
      var sorted := SortByDistance(rs);
      |rs2| == |rs| && forall i :: 0 <= i < |rs| ==> rs2[i].key == sorted[i].key && rs2[i].info == sorted[i].info
  {
    var sorted := SortByDistance(rs);
    var p := ProcessRoots(sorted, s, cam, ctx);
    var d := Drain(p.0, p.1.queue);
    assert Frame(rs, s, cam, ctx).0 == d;
    assert |d| == |p.0| == |sorted| == |rs|;
    forall i | 0 <= i < |rs| ensures d[i].key == sorted[i].key && d[i].info == sorted[i].info {
      assert d[i].key == p.0[i].key && d[i].info == p.0[i].info;
    }
  }

  /** A frame leaves the unload list empty, only appends commands, and never reuses a task name. */
  lemma FrameIssues(rs: seq<RootNode>, s: Settings, cam: Camera, ctx: Ctx)
    ensures var ctx2 := Frame(rs, s, cam, ctx).1;
      ctx2.queue == [] && ctx.nextTask <= ctx2.nextTask &&
      |ctx.commands| <= |ctx2.commands| && ctx2.commands[..|ctx.commands|] == ctx.commands
  {
    var sorted := SortByDistance(rs);
    ProcessRootsFollow(sorted, s, cam, ctx);
    var ctx1 := ProcessRoots(sorted, s, cam, ctx).1;
    assert Frame(rs, s, cam, ctx).1 == ctx1.(queue := []);
  }

  /** The commands destroying the roots issues, root by root: clearing the scene only cancels tasks. */
  function DestroyAll(rs: seq<RootNode>): (cmds: seq<L.Command>)
    ensures forall k :: 0 <= k < |cmds| ==> cmds[k].CancelTask?
    decreases |rs|
  {
    if rs == [] then []
    else
      var a := DestroyAll(rs[..|rs| - 1]);
      var b := DestroyRoot(rs[|rs| - 1]).1;
      assert forall k :: |a| <= k < |a + b| ==> (a + b)[k] == b[k - |a|];
      a + b
  }

  /** The root nodes of a root header, in order, keyed from `first`. */
  function NewRoots(infos: seq<NodeInfo>, dataUrl: string, first: nat): (rs: seq<RootNode>)
    ensures |rs| == |infos|
    ensures forall i :: 0 <= i < |infos| ==> rs[i] == NewRootNode(first + i, infos[i], dataUrl)
  {
    seq(|infos|, i requires 0 <= i < |infos| => NewRootNode(first + i, infos[i], dataUrl))
  }

  /**
   * Finished task `id` reaches the tile `at` names, if its root is still there and the tile
   * still exists; nothing else changes.
   */
  function RouteTask(rs: seq<RootNode>, at: Ref, id: nat, ev: seq<D.Notification>): (r: seq<RootNode>)
    ensures |r| == |rs| && forall i :: 0 <= i < |rs| ==> r[i] == rs[i].(childTiles := r[i].childTiles)
    ensures forall i :: 0 <= i < |rs| && rs[i].key != at.root ==> r[i] == rs[i]
    ensures forall i :: 0 <= i < |rs| && rs[i].key == at.root ==>
      (TileBelow(rs[i], at.trail).None? ==> r[i] == rs[i]) &&
      (TileBelow(rs[i], at.trail).Some? ==> TileBelow(r[i], at.trail) == Some(TaskFinished(TileBelow(rs[i], at.trail).value, id, ev)))
  {
    seq(|rs|, i requires 0 <= i < |rs| => if rs[i].key == at.root then TaskFinishedBelow(rs[i], at.trail, id, ev) else rs[i])
  }

  /** Processes the roots one after another. */
  method ProcessInOrder(rs: seq<RootNode>, s: Settings, cam: Camera, ctx0: Ctx) returns (done: seq<RootNode>, ctx: Ctx)
    ensures (done, ctx) == ProcessRoots(rs, s, cam, ctx0)
  {
    done, ctx := [], ctx0;
    var i := 0;
    while i < |rs|
      invariant 0 <= i <= |rs|
      invariant (done, ctx) == ProcessRoots(rs[..i], s, cam, ctx0)
    {
      assert rs[..i + 1][..i] == rs[..i];
      var (r, c) := ProcessRoot(rs[i], s, cam, ctx);
      done, ctx := done + [r], c;
      i := i + 1;
    }
    assert rs[..i] == rs;
  }

  /** Unloads the listed nodes one after another. */
  method DrainInOrder(rs0: seq<RootNode>, queue: seq<Ref>) returns (rs: seq<RootNode>)
    ensures rs == Drain(rs0, queue)
  {
    rs := rs0;
    var j := 0;
    while j < |queue|
      invariant 0 <= j <= |queue|
      invariant rs == Drain(rs0, queue[..j])
    {
      assert queue[..j + 1][..j] == queue[..j];
      rs := UnloadQueued(rs, queue[j]);
      j := j + 1;
    }
    assert queue[..j] == queue;
  }

  /** Runs a frame over the roots. */
  method RunFrame(rs0: seq<RootNode>, s: Settings, cam: Camera, ctx0: Ctx) returns (rs: seq<RootNode>, ctx: Ctx)
    ensures (rs, ctx) == Frame(rs0, s, cam, ctx0)
  {
    var sorted := SortByDistance(rs0);
    var done, ctx1 := ProcessInOrder(sorted, s, cam, ctx0);
    rs := DrainInOrder(done, ctx1.queue);
    ctx := ctx1.(queue := []);
  }

  /**
   * What a frame update reads and changes: the time of the last update that went past the
   * interval check, whether a camera state exists, the roots, the unload list, and the
   * task pool's side (the next task name and the commands issued so far).
   */
  datatype Scene = Scene(
    lastTime: real,
    hasCamera: bool,
    roots: seq<RootNode>,
    queue: seq<Ref>,
    nextTask: nat,
    commands: seq<L.Command>)

  /** Whether a frame update at `now` goes past the interval check and the readiness guard. */
  predicate Runs(sc: Scene, ready: bool, interval: real, now: real, cameraPresent: bool) {
    now - sc.lastTime >= interval && ready && (sc.hasCamera || cameraPresent) && sc.roots != []
  }

  /**
   * One frame update. Too soon after the last one it does nothing. Otherwise it notes the
   * time and the camera; then, once the scene is ready, a camera exists and there are roots,
   * it runs a `Frame`.
   */
  function Tick(sc: Scene, ready: bool, s: Settings, interval: real, now: real, cameraPresent: bool, cam: Camera): (next: Scene)
    ensures next.lastTime == if now - sc.lastTime < interval then sc.lastTime else now
    ensures |next.roots| == |sc.roots| && (next.hasCamera <==> sc.hasCamera || (now - sc.lastTime >= interval && cameraPresent))
  {
    if now - sc.lastTime < interval then sc
    else
      var seen := sc.hasCamera || cameraPresent;
      if ready && seen && sc.roots != [] then
        var (rs, ctx) := Frame(sc.roots, s, cam, Ctx(sc.queue, sc.nextTask, sc.commands));
        Scene(now, seen, rs, ctx.queue, ctx.nextTask, ctx.commands)
      else sc.(lastTime := now, hasCamera := seen)
  }

  /** The frame update, step by step. */
  method Advance(sc: Scene, ready: bool, s: Settings, interval: real, now: real, cameraPresent: bool, cam: Camera)
    returns (next: Scene)
    ensures next == Tick(sc, ready, s, interval, now, cameraPresent, cam)
  {
    if now - sc.lastTime < interval {
      return sc;
    }
    var seen := sc.hasCamera || cameraPresent;
    next := sc.(lastTime := now, hasCamera := seen);
    if ready && seen && sc.roots != [] {
      var rs, ctx := RunFrame(sc.roots, s, cam, Ctx(sc.queue, sc.nextTask, sc.commands));
      next := Scene(now, seen, rs, ctx.queue, ctx.nextTask, ctx.commands);
    }
  }

  /** Within the update interval nothing changes. */
  lemma TickTooSoon(sc: Scene, ready: bool, s: Settings, interval: real, now: real, cameraPresent: bool, cam: Camera)
    requires now - sc.lastTime < interval
    ensures Tick(sc, ready, s, interval, now, cameraPresent, cam) == sc
  {
  }

  /**
   * Past the interval, the time is noted and a camera, once seen, stays; if the update does
   * not run a frame, the roots, the unload list and the task side are untouched.
   */
  lemma TickNotesTime(sc: Scene, ready: bool, s: Settings, interval: real, now: real, cameraPresent: bool, cam: Camera)
    requires now - sc.lastTime >= interval
    ensures var next := Tick(sc, ready, s, interval, now, cameraPresent, cam);
      next.lastTime == now && next.hasCamera == (sc.hasCamera || cameraPresent) &&
      (!Runs(sc, ready, interval, now, cameraPresent) ==>
        next.roots == sc.roots && next.queue == sc.queue && next.nextTask == sc.nextTask && next.commands == sc.commands)
  {
  }

  /**
   * A frame update that runs keeps the same roots, reordered nearest first by the distances
   * they had; it leaves the unload list empty, only appends commands, and never reuses a
   * task name.
   */
  lemma TickRunsFrame(sc: Scene, ready: bool, s: Settings, interval: real, now: real, cameraPresent: bool, cam: Camera)
    requires Runs(sc, ready, interval, now, cameraPresent)
    ensures var next := Tick(sc, ready, s, interval, now, cameraPresent, cam);
      var sorted := SortByDistance(sc.roots);
      SortedByDistance(sorted) && multiset(sorted) == multiset(sc.roots) &&
      |next.roots| == |sc.roots| &&
      (forall i :: 0 <= i < |sorted| ==> next.roots[i].key == sorted[i].key && next.roots[i].info == sorted[i].info) &&
      next.queue == [] && sc.nextTask <= next.nextTask &&
      |sc.commands| <= |next.commands| && next.commands[..|sc.commands|] == sc.commands
  {
    SortByDistanceSorted(sc.roots);
    FrameKeepsRoots(sc.roots, s, cam, Ctx(sc.queue, sc.nextTask, sc.commands));
    FrameIssues(sc.roots, s, cam, Ctx(sc.queue, sc.nextTask, sc.commands));
  }

  // ---------------------------------------------------------------------------------------
  // The component

  class Component {
    var settings: Settings
    var updateInterval: real
    var url: Option<string>
    var baseUrl: string
    var rootDataPath: string
    var baseDataUrl: string
    var loading: bool
    var ready: bool
    var scene: Scene           // what a frame update reads and changes

    constructor(url: Option<string>, settings: Settings, updateInterval: real)
      ensures this.url == url && this.settings == settings && this.updateInterval == updateInterval
      ensures !loading && !ready && scene == Scene(0.0, false, [], [], 0, [])
    {
      this.url := url;
      this.settings := settings;
      this.updateInterval := updateInterval;
      baseUrl := "";
      rootDataPath := "";
      baseDataUrl := "";
      loading := false;
      ready := false;
      scene := Scene(0.0, false, [], [], 0, []);
    }

    /** The per-frame update: one `Tick` of the scene. */
    method LateUpdate(now: real, cameraPresent: bool, cam: Camera)
      modifies this`scene
      ensures scene == Tick(old(scene), ready, settings, updateInterval, now, cameraPresent, cam)
    {
      scene := Advance(scene, ready, settings, updateInterval, now, cameraPresent, cam);
    }

    /**
     * Starts loading the scene, unless it is loaded or loading, or its url is null or empty.
     * `parsed` is the url as the URI parser reads it; the base url is that URI without its
     * last path segment.
     */
    method Run(parsed: UrlUtils.Uri)
      modifies this`baseUrl, this`loading
      ensures old(ready) || old(loading) || !UrlUtils.IsLegalUrl(url) ==> baseUrl == old(baseUrl) && loading == old(loading)
      ensures !old(ready) && !old(loading) && UrlUtils.IsLegalUrl(url) ==>
        loading && baseUrl == UrlUtils.UriText(parsed.scheme, parsed.authority, UrlUtils.BasePath(parsed.segments), parsed.query, parsed.fragment)
    {
      if ready || loading {
        return;
      }
      var (legal, _) := UrlUtils.CheckUrl(url);
      if legal {
        baseUrl := UrlUtils.ExtractBaseUrl(parsed);
        loading := true;
      }
    }

    /**
     * The root JSON has been read: its layer names the root data file `rootPath`, relative
     * to the base url. Records that file's path and its base url (`parsed` is that path as
     * the URI parser reads it), and submits the task that loads it.
     */
    method OnRootJson(rootPath: Option<string>, parsed: UrlUtils.Uri)
      modifies this`rootDataPath, this`baseDataUrl, this`scene
      ensures rootDataPath == baseUrl + UrlUtils.Text(rootPath)
      ensures baseDataUrl == UrlUtils.UriText(parsed.scheme, parsed.authority, UrlUtils.BasePath(parsed.segments), parsed.query, parsed.fragment)
      ensures scene == old(scene).(nextTask := old(scene.nextTask) + 1,
                                   commands := old(scene.commands) + [L.Submit(old(scene.nextTask), rootDataPath)])
    {
      rootDataPath := baseUrl + UrlUtils.Text(rootPath);
      baseDataUrl := UrlUtils.ExtractBaseUrl(parsed);
      var (_, cmds) := L.Load(L.NewLoader(rootDataPath), scene.nextTask);
      scene := scene.(nextTask := scene.nextTask + 1, commands := scene.commands + cmds);
    }

    /** The root data file has been loaded: one root node per header node, and the scene is ready. */
    method OnRootLoaded(h: HeaderInfo)
      modifies this`scene, this`loading, this`ready
      ensures scene == old(scene).(roots := old(scene.roots) + NewRoots(h.nodes, baseDataUrl, |old(scene.roots)|))
      ensures !loading && ready
    {
      var i := 0;
      var first := |scene.roots|;
      while i < |h.nodes|
        invariant 0 <= i <= |h.nodes|
        invariant scene == old(scene).(roots := old(scene.roots) + NewRoots(h.nodes[..i], baseDataUrl, first))
      {
        assert NewRoots(h.nodes[..i + 1], baseDataUrl, first) == NewRoots(h.nodes[..i], baseDataUrl, first) + [NewRootNode(first + i, h.nodes[i], baseDataUrl)];
        scene := scene.(roots := scene.roots + [NewRootNode(first + i, h.nodes[i], baseDataUrl)]);
        i := i + 1;
      }
      assert h.nodes[..i] == h.nodes;
      loading := false;
      ready := true;
    }

    /** Clears a loaded scene: destroys every root node (cancelling their tasks) and forgets them. */
    method Clear()
      modifies this`scene, this`ready
      ensures !old(ready) ==> scene == old(scene) && !ready
      ensures old(ready) ==>
        && !ready
        && scene == old(scene).(roots := [], queue := [], commands := old(scene.commands) + DestroyAll(old(scene.roots)))
    {
      if !ready {
        return;
      }
      var rs, cmds := scene.roots, scene.commands;
      var i := 0;
      while i < |rs|
        invariant 0 <= i <= |rs|
        invariant cmds == old(scene.commands) + DestroyAll(rs[..i])
      {
        assert rs[..i + 1][..i] == rs[..i];
        cmds := cmds + DestroyRoot(rs[i]).1;
        i := i + 1;
      }
      assert rs[..i] == rs;
      scene := scene.(roots := [], queue := [], commands := cmds);
      ready := false;
    }

    /** Task `id`, started for the tile `at` names, has finished with notifications `ev`. */
    method TaskFinished(at: Ref, id: nat, ev: seq<D.Notification>)
      modifies this`scene
      ensures scene == old(scene).(roots := RouteTask(old(scene.roots), at, id, ev))
    {
      scene := scene.(roots := RouteTask(scene.roots, at, id, ev));
    }
  }
}
