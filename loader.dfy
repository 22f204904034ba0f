/**
 * The per-tile loader handle: at most one load task at a time.
 *
 * The handle is a value held by its tile. Starting or cancelling a task is returned as a
 * command for the task pool, and a task is named by a number the caller supplies.
 */
module Loader {
  import opened Wrappers

  datatype Loader = Loader(url: string, task: Option<nat>)

  /** What a loader asks of the task pool. */
  datatype Command = Submit(id: nat, url: string) | CancelTask(id: nat)

  function NewLoader(url: string): (l: Loader)
    ensures l.url == url && !IsLoading(l)
  {
    Loader(url, None)
  }

  /** A loader is loading while it holds a task. */
  predicate IsLoading(l: Loader) {
    l.task.Some?
  }

  /** Starts a task named `next`, unless a task is already held (then nothing happens). */
  function Load(l: Loader, next: nat): (r: (Loader, seq<Command>))
    ensures IsLoading(r.0) && r.0.url == l.url
    ensures IsLoading(l) ==> r == (l, [])
    ensures !IsLoading(l) ==> r.0.task == Some(next) && r.1 == [Submit(next, l.url)]
  {
    if IsLoading(l) then (l, []) else (l.(task := Some(next)), [Submit(next, l.url)])
  }

  /** Cancels and forgets the held task; with no task nothing happens. */
  function Cancel(l: Loader): (r: (Loader, seq<Command>))
    ensures !IsLoading(r.0) && r.0.url == l.url
    ensures !IsLoading(l) ==> r == (l, [])
    ensures IsLoading(l) ==> r.1 == [CancelTask(l.task.value)]
  {
    if !IsLoading(l) then (l, []) else (l.(task := None), [CancelTask(l.task.value)])
  }

  /**
   * The held task has finished (its body returned, with or without notifications). As
   * written, nothing forgets a finished task.
   */
  function TaskEndedAsWritten(l: Loader, id: nat): (r: Loader)
    ensures IsLoading(r) == IsLoading(l) && r.url == l.url
  {
    l
  }

  /** Corrected: a finished task is forgotten, so a later `Load` starts a new one. */
  function TaskEnded(l: Loader, id: nat): (r: Loader)
    ensures r.url == l.url
    ensures l.task == Some(id) ==> !IsLoading(r)
    ensures l.task != Some(id) ==> r == l
  {
    if l.task == Some(id) then l.(task := None) else l
  }

  /** A second `Load` while the first task is held is ignored: loading is idempotent. */
  lemma LoadIdempotent(l: Loader, next: nat, other: nat)
    ensures Load(Load(l, next).0, other) == (Load(l, next).0, [])
  {
  }

  /** Cancelling a task just started cancels exactly that task and restores the handle. */
  lemma CancelUndoesLoad(l: Loader, next: nat)
    requires !IsLoading(l)
    ensures Cancel(Load(l, next).0) == (l, [CancelTask(next)])
  {
  }

  /** As written, once a task has been started every later `Load` is ignored until `Cancel`. */
  lemma LoadIgnoredAfterTaskEndedAsWritten(l: Loader, next: nat, later: nat)
    ensures Load(TaskEndedAsWritten(Load(l, next).0, next), later).1 == []
  {
  }

  /** Corrected: after the task of a fresh load ends, the next `Load` submits a new task. */
  lemma LoadAfterTaskEnded(l: Loader, next: nat, later: nat)
    requires !IsLoading(l)
    ensures Load(TaskEnded(Load(l, next).0, next), later).1 == [Submit(later, l.url)]
  {
  }
}

/**
 * The body of a load task: fetching a 3MXB tile and decoding it.
 *
 * A 3MXB stream is the 5-character magic "3MXBO", a little-endian 32-bit header length, the
 * JSON header, then the payloads of the header's resources in order. Characters are single
 * bytes (ASCII). The JSON text parser, the OpenCTM decoder and the transport are parameters;
 * so is cancellation: `Env.canceled(c)` says whether the task is seen cancelled when the run
 * reaches checkpoint `c`.
 */
module Decoder {
  import opened Wrappers
  import opened DataStruct
  import UrlUtils

  /** "3MXBO" */
  const Magic: seq<Byte> := [0x33, 0x4D, 0x58, 0x42, 0x4F]

  /** The points at which a run looks at its cancellation flag. */
  datatype Checkpoint =
    | TaskStart
    | Downloading
    | BeforeMagic
    | BeforeHeaderLength
    | BeforeHeader
    | BeforeResource(i: nat)
    | BeforeNode(j: nat)
    | BeforeNotify

  /** Exceptions a run can raise; each is caught and reported once. */
  datatype Reason =
    | EndOfStream         // fewer than 4 bytes for the header length
    | NegativeLength      // a header length of 2^31 or more, cast to a negative int
    | HeaderUnreadable    // the JSON text does not give a header
    | ShortBounds         // a bounding box with fewer than 3 components
    | MeshUnreadable      // the mesh decoder failed, or its arrays are too short
    | FetchFailed         // the request or the file could not be read

  datatype Failure =
    | BadMagic(magic: seq<Byte>)
    | ZeroLengthHeader
    | BadFormat(format: Option<string>)
    | BadType(kind: Option<string>)
    | Thrown(reason: Reason)

  /** What the loader hears from a run, in order. */
  datatype Notification = Error(failure: Failure) | Loaded(header: HeaderInfo)

  /** The flat arrays the OpenCTM decoder yields. */
  datatype CtmMesh = CtmMesh(
    vertexCount: int,
    vertices: seq<Scalar>,
    texcoords: seq<seq<Scalar>>,
    hasNormals: bool,
    normals: seq<Scalar>,
    indices: seq<int>)

  /** The decoder's result on the rest of the stream: bytes it consumed, and a mesh unless it threw. */
  datatype CtmResult = CtmResult(consumed: nat, mesh: Option<CtmMesh>)

  /**
   * What a run depends on but the model does not compute: the cancellation flag at each
   * checkpoint, the JSON text parser, the OpenCTM decoder, and the Euclidean length of a
   * vector (a square root).
   */
  datatype Env = Env(
    canceled: Checkpoint -> bool,
    parseJson: seq<Byte> -> Option<Json>,
    ctm: seq<Byte> -> CtmResult,
    magnitude: Vec3 -> real)

  function Min(a: int, b: int): int {
    if a <= b then a else b
  }

  // ---------------------------------------------------------------------------------------
  // Where to fetch from

  datatype Route = Http(url: string) | File(path: string)

  /**
   * "http..." is fetched over HTTP; otherwise a "file:///" prefix drops 8 characters and a
   * "file://" prefix 7, tested in that order; anything else is a file path as is.
   */
  function FetchRoute(url: string): (r: Route)
    ensures UrlUtils.StartsWith(url, "http") <==> r.Http?
    ensures r.Http? ==> r.url == url
    ensures !UrlUtils.StartsWith(url, "http") && UrlUtils.StartsWith(url, "file:///") ==> r == File(url[8..])
    ensures (!UrlUtils.StartsWith(url, "http") && UrlUtils.StartsWith(url, "file://")
             && !UrlUtils.StartsWith(url, "file:///")) ==> r == File(url[7..])
    ensures !UrlUtils.StartsWith(url, "http") && !UrlUtils.StartsWith(url, "file://") ==> r == File(url)
  {
    if UrlUtils.StartsWith(url, "http") then Http(url)
    else if UrlUtils.StartsWith(url, "file:///") then
      assert url[..7] == url[..8][..7];
      File(url[8..])
    else if UrlUtils.StartsWith(url, "file://") then File(url[7..])
    else File(url)
  }

  /** A local path keeps everything after the scheme: prefixing "file://" gives the URL back. */
  lemma FileRouteRoundTrip(path: string)
    requires !UrlUtils.StartsWith(path, "/")
    ensures FetchRoute("file://" + path) == File(path)
  {
    var url := "file://" + path;
    assert url[..7] == "file://";
    assert url[..4][0] == 'f';
    assert url[7..] == path;
  }

  // ---------------------------------------------------------------------------------------
  // Bounds

  /** The bounds of a box given by its corners: center the midpoint, size the extent. */
  function MakeBounds(bbMin: Vec3, bbMax: Vec3): (b: Bounds)
    ensures b.size == Vec3(bbMax.x - bbMin.x, bbMax.y - bbMin.y, bbMax.z - bbMin.z)
  {
    Bounds(Vec3((bbMin.x + bbMax.x) / 2.0, (bbMin.y + bbMax.y) / 2.0, (bbMin.z + bbMax.z) / 2.0),
           Vec3(bbMax.x - bbMin.x, bbMax.y - bbMin.y, bbMax.z - bbMin.z))
  }

  /** The corners come back from the bounds: center -/+ half the size. */
  lemma MakeBoundsCorners(bbMin: Vec3, bbMax: Vec3)
    ensures var b := MakeBounds(bbMin, bbMax);
      && bbMin == Vec3(b.center.x - b.size.x / 2.0, b.center.y - b.size.y / 2.0, b.center.z - b.size.z / 2.0)
      && bbMax == Vec3(b.center.x + b.size.x / 2.0, b.center.y + b.size.y / 2.0, b.center.z + b.size.z / 2.0)
  {
  }

  /** A 3-component list read as (x, z, y): the file's second and third axes are swapped. */
  function Axes(v: seq<real>): (p: Vec3)
    requires |v| >= 3
    ensures p.x == v[0] && p.y == v[2] && p.z == v[1]
  {
    Vec3(v[0], v[2], v[1])
  }

  // ---------------------------------------------------------------------------------------
  // Meshes

  /** The vertices with their second and third components swapped. */
  function SwapAxes(flat: seq<Scalar>, n: nat): (vs: seq<MeshVec3>)
    requires 3 * n <= |flat|
    ensures |vs| == n
    ensures forall i :: 0 <= i < n ==> vs[i] == MeshVec3(flat[3 * i], flat[3 * i + 2], flat[3 * i + 1])
  {
    seq(n, i requires 0 <= i < n => MeshVec3(flat[3 * i], flat[3 * i + 2], flat[3 * i + 1]))
  }

  function Coord(v: MeshVec3, c: int): Scalar {
    if c == 0 then v.x else if c == 1 then v.y else v.z
  }

  /** The vertices laid out flat, three components each, as the decoder delivers them. */
  function Flatten3(vs: seq<MeshVec3>): (flat: seq<Scalar>)
    ensures |flat| == 3 * |vs|
  {
    seq(3 * |vs|, k requires 0 <= k < 3 * |vs| => Coord(vs[k / 3], k % 3))
  }

  /**
   * The index triples (a, b, c) become (a, c, b); entries past the last whole triple stay 0,
   * since the output has the input's length but only whole triples are copied.
   */
  function Rewind(idx: seq<int>): (t: seq<int>)
    ensures |t| == |idx|
  {
    var whole := |idx| / 3 * 3;
    seq(|idx|, k requires 0 <= k < |idx| =>
      if k >= whole then 0
      else if k % 3 == 0 then idx[k]
      else if k % 3 == 1 then idx[k + 1]
      else idx[k - 1])
  }

  /** Every whole triple has its winding reversed. */
  lemma RewindTriples(idx: seq<int>)
    ensures forall j :: 0 <= j < |idx| / 3 ==>
      Rewind(idx)[3 * j..3 * j + 3] == [idx[3 * j], idx[3 * j + 2], idx[3 * j + 1]]
    ensures forall k :: |idx| / 3 * 3 <= k < |idx| ==> Rewind(idx)[k] == 0
  {
    forall j | 0 <= j < |idx| / 3
      ensures Rewind(idx)[3 * j..3 * j + 3] == [idx[3 * j], idx[3 * j + 2], idx[3 * j + 1]]
    {
      assert (3 * j) % 3 == 0 && (3 * j + 1) % 3 == 1 && (3 * j + 2) % 3 == 2;
      assert 3 * j + 2 < |idx| / 3 * 3;
    }
  }

  /** Reversing the winding twice restores an index list made of whole triangles. */
  lemma RewindInvolution(idx: seq<int>)
    requires |idx| % 3 == 0
    ensures Rewind(Rewind(idx)) == idx
  {
    var t := Rewind(idx);
    forall k | 0 <= k < |idx| ensures Rewind(t)[k] == idx[k] {
      var j := k / 3;
      assert k == 3 * j + k % 3;
      assert (3 * j) % 3 == 0 && (3 * j + 1) % 3 == 1 && (3 * j + 2) % 3 == 2;
    }
  }

  /** Swapping the axes of a vertex array twice gives the original array back. */
  lemma SwapAxesInvolution(vs: seq<MeshVec3>)
    ensures SwapAxes(Flatten3(SwapAxes(Flatten3(vs), |vs|)), |vs|) == vs
  {
    var n := |vs|;
    var once := SwapAxes(Flatten3(vs), n);
    var twice := SwapAxes(Flatten3(once), n);
    forall i | 0 <= i < n ensures twice[i] == vs[i] {
      FlattenAt(vs, i);
      FlattenAt(once, i);
    }
  }

  lemma FlattenAt(vs: seq<MeshVec3>, i: nat)
    requires i < |vs|
    ensures Flatten3(vs)[3 * i] == vs[i].x
    ensures Flatten3(vs)[3 * i + 1] == vs[i].y
    ensures Flatten3(vs)[3 * i + 2] == vs[i].z
  {
    assert (3 * i) / 3 == i && (3 * i + 1) / 3 == i && (3 * i + 2) / 3 == i;
    assert (3 * i) % 3 == 0 && (3 * i + 1) % 3 == 1 && (3 * i + 2) % 3 == 2;
  }

  /** Texture coordinates of the first channel, or zero pairs when there is no channel. */
  function UvPairs(texcoords: seq<seq<Scalar>>, n: nat): (uv: seq<MeshVec2>)
    requires texcoords != [] ==> 2 * n <= |texcoords[0]|
    ensures |uv| == n
    ensures texcoords == [] ==> forall i :: 0 <= i < n ==> uv[i] == MeshVec2(0, 0)
    ensures texcoords != [] ==> forall i :: 0 <= i < n ==> uv[i] == MeshVec2(texcoords[0][2 * i], texcoords[0][2 * i + 1])
  {
    seq(n, i requires 0 <= i < n =>
      if texcoords == [] then MeshVec2(0, 0) else MeshVec2(texcoords[0][2 * i], texcoords[0][2 * i + 1]))
  }

  /** The decoded arrays are long enough for every index the conversion reads. */
  predicate MeshReadable(m: CtmMesh) {
    && m.vertexCount >= 0
    && 3 * m.vertexCount <= |m.vertices|
    && (m.texcoords != [] ==> 2 * m.vertexCount <= |m.texcoords[0]|)
    && (m.hasNormals ==> 3 * m.vertexCount <= |m.normals|)
  }

  /**
   * The mesh data built from the decoded arrays. The normal array is created on the first
   * vertex, so a mesh with normals but no vertices has none.
   */
  function MeshOf(m: CtmMesh, bbMin: Vec3, bbMax: Vec3): (md: MeshData)
    requires MeshReadable(m)
    ensures md.vertexCount == m.vertexCount && md.hasNormals == m.hasNormals
    ensures md.normals.Some? <==> m.hasNormals && m.vertexCount > 0
    ensures |md.vertices| == |md.uv| == m.vertexCount && |md.triangles| == |m.indices|
    ensures md.bounds == MakeBounds(bbMin, bbMax)
  {
    var n := m.vertexCount;
    MeshData(
      n,
      SwapAxes(m.vertices, n),
      UvPairs(m.texcoords, n),
      m.hasNormals,
      if m.hasNormals && n > 0 then Some(SwapAxes(m.normals, n)) else None,
      Rewind(m.indices),
      bbMin, bbMax, MakeBounds(bbMin, bbMax))
  }

  datatype MeshOutcome = MeshFailed(reason: Reason) | MeshDone(consumed: nat, mesh: MeshData)

  /**
   * A geometry resource: its bounding box read as (x, z, y), then the decoder run on the rest
   * of the stream. A short box, a decoder failure, a decoder that claims more bytes than there
   * are, or arrays too short for the vertex count are exceptions.
   */
  function ParseMeshSpec(rest: seq<Byte>, res: ResourceInfo, ctm: seq<Byte> -> CtmResult): (o: MeshOutcome)
    ensures o.MeshDone? ==> o.consumed <= |rest|
  {
    if |res.bbMin| < 3 || |res.bbMax| < 3 then MeshFailed(ShortBounds)
    else
      var c := ctm(rest);
      if c.mesh.None? || c.consumed > |rest| || !MeshReadable(c.mesh.value) then MeshFailed(MeshUnreadable)
      else MeshDone(c.consumed, MeshOf(c.mesh.value, Axes(res.bbMin), Axes(res.bbMax)))
  }

  /**
   * The mesh conversion as the loader performs it: arrays allocated for the vertex count and
   * filled in one pass, then the index array filled triangle by triangle.
   */
  method ParseMesh(m: CtmMesh, bbMin: Vec3, bbMax: Vec3) returns (md: Option<MeshData>)
    ensures MeshReadable(m) <==> md.Some?
    ensures md.Some? ==> md.value == MeshOf(m, bbMin, bbMax)
  {
    if !MeshReadable(m) {
      return None;
    }
    var vertices, uv, normals := ConvertVertices(m);
    var triangles := ConvertIndices(m.indices);
    md := Some(MeshData(m.vertexCount, vertices, uv, m.hasNormals, normals, triangles,
                        bbMin, bbMax, MakeBounds(bbMin, bbMax)));
  }

  /** The per-vertex pass: positions and normals with their axes swapped, texture coordinates copied. */
  method ConvertVertices(m: CtmMesh) returns (vs: seq<MeshVec3>, uvs: seq<MeshVec2>, ns: Option<seq<MeshVec3>>)
    requires MeshReadable(m)
    ensures vs == SwapAxes(m.vertices, m.vertexCount)
    ensures uvs == UvPairs(m.texcoords, m.vertexCount)
    ensures ns == if m.hasNormals && m.vertexCount > 0 then Some(SwapAxes(m.normals, m.vertexCount)) else None
  {
    var n := m.vertexCount;
    var flat, coords, flatNormals := m.vertices, m.texcoords, m.normals;
    var vertices := new MeshVec3[n](_ => MeshVec3(0, 0, 0));
    var uv := new MeshVec2[n](_ => MeshVec2(0, 0));
    var normals: array?<MeshVec3> := null;
    var i := 0;
    while i < n
      invariant 0 <= i <= n
      invariant forall k :: 0 <= k < i ==> vertices[k] == MeshVec3(flat[3 * k], flat[3 * k + 2], flat[3 * k + 1])
      invariant coords != [] ==> forall k :: 0 <= k < i ==> uv[k] == MeshVec2(coords[0][2 * k], coords[0][2 * k + 1])
      invariant coords == [] ==> forall k :: 0 <= k < n ==> uv[k] == MeshVec2(0, 0)
      invariant normals == null <==> !(m.hasNormals && i > 0)
      invariant normals != null ==> normals.Length == n && fresh(normals) && normals != vertices
      invariant vertices.Length == n && uv.Length == n
      invariant normals != null ==> forall k :: 0 <= k < i ==>
                  normals[k] == MeshVec3(flatNormals[3 * k], flatNormals[3 * k + 2], flatNormals[3 * k + 1])
    {
      vertices[i] := MeshVec3(flat[3 * i], flat[3 * i + 2], flat[3 * i + 1]);
      assert forall k :: 0 <= k < i + 1 ==> vertices[k] == MeshVec3(flat[3 * k], flat[3 * k + 2], flat[3 * k + 1]);
      if |coords| > 0 {
        uv[i] := MeshVec2(coords[0][2 * i], coords[0][2 * i + 1]);
      }
      if m.hasNormals {
        if normals == null {
          normals := new MeshVec3[n](_ => MeshVec3(0, 0, 0));
        }
        normals[i] := MeshVec3(flatNormals[3 * i], flatNormals[3 * i + 2], flatNormals[3 * i + 1]);
      }
      i := i + 1;
    }
    vs := vertices[..];
    uvs := uv[..];
    if normals == null {
      ns := None;
    } else {
      assert normals[..] == SwapAxes(flatNormals, n);
      ns := Some(normals[..]);
    }
  }

  /** The index pass: each whole triangle copied with its last two corners swapped. */
  method ConvertIndices(indices: seq<int>) returns (ts: seq<int>)
    ensures ts == Rewind(indices)
  {
    var triangles := new int[|indices|](_ => 0);
    var length := |indices| / 3;
    var j := 0;
    while j < length
      invariant 0 <= j <= length
      invariant forall k :: 0 <= k < 3 * j ==> triangles[k] == Rewind(indices)[k]
      invariant forall k :: 3 * j <= k < triangles.Length ==> triangles[k] == 0
    {
      triangles[3 * j] := indices[3 * j];
      triangles[3 * j + 1] := indices[3 * j + 2];
      triangles[3 * j + 2] := indices[3 * j + 1];
      assert (3 * j) % 3 == 0 && (3 * j + 1) % 3 == 1 && (3 * j + 2) % 3 == 2;
      j := j + 1;
    }
    ts := triangles[..];
  }

  // ---------------------------------------------------------------------------------------
  // The stream

  /** A little-endian unsigned 32-bit integer. */
  function U32LE(b: seq<Byte>): (n: nat)
    requires |b| == 4
    ensures n < 0x1_0000_0000
  {
    b[0] as int + 0x100 * b[1] as int + 0x1_0000 * b[2] as int + 0x100_0000 * b[3] as int
  }

  /** The four little-endian bytes of an unsigned 32-bit integer. */
  function LE32(n: nat): (b: seq<Byte>)
    requires n < 0x1_0000_0000
    ensures |b| == 4
  {
    [n % 0x100, n / 0x100 % 0x100, n / 0x1_0000 % 0x100, n / 0x100_0000]
  }

  lemma {:induction false} U32RoundTrip(n: nat)
    requires n < 0x1_0000_0000
    ensures U32LE(LE32(n)) == n
  {
    var b := LE32(n);
    assert n / 0x100 == n / 0x100 % 0x100 + 0x100 * (n / 0x1_0000);
    assert n / 0x1_0000 == n / 0x1_0000 % 0x100 + 0x100 * (n / 0x100_0000);
  }

  /** The payloads laid end to end. */
  function Joined(parts: seq<seq<Byte>>): seq<Byte> {
    if parts == [] then [] else Joined(parts[..|parts| - 1]) + parts[|parts| - 1]
  }

  /** A 3MXB stream: magic, header length, header text, payloads. */
  function Pack(json: seq<Byte>, payloads: seq<seq<Byte>>): (data: seq<Byte>)
    requires |json| < 0x1_0000_0000
    ensures |data| == 9 + |json| + |Joined(payloads)|
    ensures data[..5] == Magic && data[5..9] == LE32(|json|) && data[9..9 + |json|] == json
    ensures data[9 + |json|..] == Joined(payloads)
  {
    Magic + LE32(|json|) + json + Joined(payloads)
  }

  // ---------------------------------------------------------------------------------------
  // Decoding

  /** The decoder's progress through the header's lists. */
  datatype Scan = Scan(pos: nat, resources: seq<ResourceInfo>, nodes: seq<NodeInfo>, events: seq<Notification>, halted: bool)

  /** A reported problem that does not stop the run. */
  predicate Soft(e: Notification) {
    e.Error? && (e.failure.BadFormat? || e.failure.BadType?)
  }

  /** Only errors so far, and only soft ones while the run goes on. */
  predicate Consistent(s: Scan) {
    && (forall k :: 0 <= k < |s.events| ==> s.events[k].Error?)
    && (!s.halted ==> forall k :: 0 <= k < |s.events| ==> Soft(s.events[k]))
  }

  /** The run ends with an exception, which is reported. */
  function Raise(s: Scan, reason: Reason): Scan {
    s.(events := s.events + [Error(Thrown(reason))], halted := true)
  }

  /**
   * Resource `i`: a cancelled run stops; an empty resource is skipped; a texture takes the
   * next `size` bytes (fewer at the end of the stream); a CTM geometry buffer is decoded from
   * the rest of the stream; any other format or type is reported and skipped.
   */
  function ResourceStep(data: seq<Byte>, env: Env, s: Scan, i: nat): (t: Scan)
    requires s.pos <= |data| && i < |s.resources|
    ensures t.pos <= |data| && |t.resources| == |s.resources| && t.nodes == s.nodes
    ensures s.halted ==> t == s
    ensures !t.halted ==> !s.halted && !env.canceled(BeforeResource(i))
  {
    if s.halted then s
    else if env.canceled(BeforeResource(i)) then s.(halted := true)
    else
      var r := s.resources[i];
      if r.size <= 0 then s
      else if r.kind == Some("textureBuffer") then
        var end := Min(s.pos + r.size, |data|);
        s.(pos := end, resources := s.resources[i := r.(textureData := Some(data[s.pos..end]))])
      else if r.kind == Some("geometryBuffer") then
        if r.format == Some("ctm") then
          match ParseMeshSpec(data[s.pos..], r, env.ctm)
          case MeshFailed(reason) => Raise(s, reason)
          case MeshDone(consumed, md) =>
            s.(pos := s.pos + consumed, resources := s.resources[i := r.(meshData := Some(md))])
        else s.(events := s.events + [Error(BadFormat(r.format))])
      else s.(events := s.events + [Error(BadType(r.kind))])
  }

  /** A resource step reports only soft problems unless it stops the run. */
  lemma ResourceStepConsistent(data: seq<Byte>, env: Env, s: Scan, i: nat)
    requires s.pos <= |data| && i < |s.resources| && Consistent(s)
    ensures Consistent(ResourceStep(data, env, s, i))
  {
  }

  /** A resource step attaches at most a payload: the header fields stay. */
  lemma ResourceStepKeepsHeader(data: seq<Byte>, env: Env, s: Scan, i: nat, k: nat)
    requires s.pos <= |data| && i < |s.resources| && k < |s.resources|
    ensures StripResource(ResourceStep(data, env, s, i).resources[k]) == StripResource(s.resources[k])
  {
  }

  /** A resource step touches no resource but its own. */
  lemma ResourceStepTouchesOne(data: seq<Byte>, env: Env, s: Scan, i: nat, k: nat)
    requires s.pos <= |data| && i < |s.resources| && k < |s.resources| && k != i
    ensures ResourceStep(data, env, s, i).resources[k] == s.resources[k]
  {
  }

  /** The first `n` resources processed, starting from `s0`. */
  function ScanResources(data: seq<Byte>, env: Env, s0: Scan, n: nat): (s: Scan)
    requires s0.pos <= |data| && n <= |s0.resources|
    ensures s.pos <= |data| && |s.resources| == |s0.resources| && s.nodes == s0.nodes
    ensures s0.halted ==> s == s0
    decreases n
  {
    if n == 0 then s0 else ResourceStep(data, env, ScanResources(data, env, s0, n - 1), n - 1)
  }

  lemma {:induction false} ScanResourcesConsistent(data: seq<Byte>, env: Env, s0: Scan, n: nat)
    requires s0.pos <= |data| && n <= |s0.resources| && Consistent(s0)
    ensures Consistent(ScanResources(data, env, s0, n))
    decreases n
  {
    if n > 0 {
      ScanResourcesConsistent(data, env, s0, n - 1);
      ResourceStepConsistent(data, env, ScanResources(data, env, s0, n - 1), n - 1);
    }
  }

  /**
   * The resource pass goes on only past uncancelled checkpoints, attaches payloads without
   * touching the fields read from the header, and leaves the resources it has not reached.
   */
  lemma ResourcesScanned(data: seq<Byte>, env: Env, s0: Scan, n: nat)
    requires s0.pos <= |data| && n <= |s0.resources|
    ensures var s := ScanResources(data, env, s0, n);
      && (!s.halted ==> forall i :: 0 <= i < n ==> !env.canceled(BeforeResource(i)))
      && (forall k :: 0 <= k < |s0.resources| ==> StripResource(s.resources[k]) == StripResource(s0.resources[k]))
      && (forall k :: n <= k < |s0.resources| ==> s.resources[k] == s0.resources[k])
  {
    ResourcesPassedUncanceled(data, env, s0, n);
    ResourcesKeepHeaderFields(data, env, s0, n);
    ResourcesAheadUntouched(data, env, s0, n);
  }

  lemma {:induction false} ResourcesPassedUncanceled(data: seq<Byte>, env: Env, s0: Scan, n: nat)
    requires s0.pos <= |data| && n <= |s0.resources|
    ensures !ScanResources(data, env, s0, n).halted ==> forall i :: 0 <= i < n ==> !env.canceled(BeforeResource(i))
    decreases n
  {
    if n > 0 {
      ResourcesPassedUncanceled(data, env, s0, n - 1);
    }
  }

  lemma {:induction false} ResourcesKeepHeaderFields(data: seq<Byte>, env: Env, s0: Scan, n: nat)
    requires s0.pos <= |data| && n <= |s0.resources|
    ensures var s := ScanResources(data, env, s0, n);
      forall k :: 0 <= k < |s0.resources| ==> StripResource(s.resources[k]) == StripResource(s0.resources[k])
    decreases n
  {
    if n > 0 {
      ResourcesKeepHeaderFields(data, env, s0, n - 1);
      var prev := ScanResources(data, env, s0, n - 1);
      var s := ResourceStep(data, env, prev, n - 1);
      assert ScanResources(data, env, s0, n) == s;
      forall k | 0 <= k < |s0.resources|
        ensures StripResource(s.resources[k]) == StripResource(s0.resources[k])
      {
        ResourceStepKeepsHeader(data, env, prev, n - 1, k);
        assert StripResource(s.resources[k]) == StripResource(prev.resources[k]);
      }
    }
  }

  lemma {:induction false} ResourcesAheadUntouched(data: seq<Byte>, env: Env, s0: Scan, n: nat)
    requires s0.pos <= |data| && n <= |s0.resources|
    ensures var s := ScanResources(data, env, s0, n);
      forall k :: n <= k < |s0.resources| ==> s.resources[k] == s0.resources[k]
    decreases n
  {
    if n > 0 {
      ResourcesAheadUntouched(data, env, s0, n - 1);
      var prev := ScanResources(data, env, s0, n - 1);
      var s := ResourceStep(data, env, prev, n - 1);
      assert ScanResources(data, env, s0, n) == s;
      forall k | n <= k < |s0.resources|
        ensures s.resources[k] == s0.resources[k]
      {
        ResourceStepTouchesOne(data, env, prev, n - 1, k);
        assert s.resources[k] == prev.resources[k];
      }
    }
  }

  /**
   * A node with its bounds derived from its box, read as (x, z, y), and its bounding-sphere
   * radius half the length of the box's diagonal.
   */
  function Placed(n: NodeInfo, magnitude: Vec3 -> real): (p: NodeInfo)
    requires Placeable(n)
    ensures p.bounds.size == Vec3(n.bbMax[0] - n.bbMin[0], n.bbMax[2] - n.bbMin[2], n.bbMax[1] - n.bbMin[1])
    ensures p.boundingSphereRadius == magnitude(p.bounds.size) / 2.0
    ensures StripNode(p) == StripNode(n)
  {
    var b := MakeBounds(Axes(n.bbMin), Axes(n.bbMax));
    n.(bounds := b, boundingSphereRadius := magnitude(b.size) / 2.0)
  }

  predicate Placeable(n: NodeInfo) {
    |n.bbMin| >= 3 && |n.bbMax| >= 3
  }

  /** Node `j`: a cancelled run stops; a box with fewer than 3 components is an exception. */
  function NodeStep(env: Env, s: Scan, j: nat): (t: Scan)
    requires j < |s.nodes|
    ensures t.pos == s.pos && t.resources == s.resources && |t.nodes| == |s.nodes|
    ensures s.halted ==> t == s
    ensures !t.halted ==> !s.halted && !env.canceled(BeforeNode(j)) && t.events == s.events
    ensures !t.halted ==> Placeable(s.nodes[j]) && t.nodes[j] == Placed(s.nodes[j], env.magnitude)
  {
    if s.halted then s
    else if env.canceled(BeforeNode(j)) then s.(halted := true)
    else if !Placeable(s.nodes[j]) then Raise(s, ShortBounds)
    else s.(nodes := s.nodes[j := Placed(s.nodes[j], env.magnitude)])
  }

  /** A node step reports only an exception that stops the run. */
  lemma NodeStepConsistent(env: Env, s: Scan, j: nat)
    requires j < |s.nodes| && Consistent(s)
    ensures Consistent(NodeStep(env, s, j))
  {
  }

  /** A node step touches no node but its own. */
  lemma NodeStepTouchesOne(env: Env, s: Scan, j: nat, k: nat)
    requires j < |s.nodes| && k < |s.nodes| && k != j
    ensures NodeStep(env, s, j).nodes[k] == s.nodes[k]
  {
  }

  /** The first `n` nodes processed, starting from `s0`. */
  function ScanNodes(env: Env, s0: Scan, n: nat): (s: Scan)
    requires n <= |s0.nodes|
    ensures s.pos == s0.pos && s.resources == s0.resources && |s.nodes| == |s0.nodes|
    ensures s0.halted ==> s == s0
    decreases n
  {
    if n == 0 then s0 else NodeStep(env, ScanNodes(env, s0, n - 1), n - 1)
  }

  lemma {:induction false} ScanNodesConsistent(env: Env, s0: Scan, n: nat)
    requires n <= |s0.nodes| && Consistent(s0)
    ensures Consistent(ScanNodes(env, s0, n))
    decreases n
  {
    if n > 0 {
      ScanNodesConsistent(env, s0, n - 1);
      NodeStepConsistent(env, ScanNodes(env, s0, n - 1), n - 1);
    }
  }

  /**
   * The node pass goes on only past uncancelled checkpoints and full boxes, places every node
   * it has passed, reports nothing while it goes on, and leaves the nodes it has not reached.
   */
  lemma NodesScanned(env: Env, s0: Scan, n: nat)
    requires n <= |s0.nodes|
    ensures var s := ScanNodes(env, s0, n);
      && (!s.halted ==> s.events == s0.events && forall j :: 0 <= j < n ==> !env.canceled(BeforeNode(j)))
      && (!s.halted ==> forall j :: 0 <= j < n ==>
            Placeable(s0.nodes[j]) && s.nodes[j] == Placed(s0.nodes[j], env.magnitude))
      && (forall k :: n <= k < |s0.nodes| ==> s.nodes[k] == s0.nodes[k])
  {
    NodesPassedUncanceled(env, s0, n);
    NodesAheadUntouched(env, s0, n);
    NodesPassedPlaced(env, s0, n);
  }

  lemma {:induction false} NodesPassedUncanceled(env: Env, s0: Scan, n: nat)
    requires n <= |s0.nodes|
    ensures var s := ScanNodes(env, s0, n);
      !s.halted ==> s.events == s0.events && forall j :: 0 <= j < n ==> !env.canceled(BeforeNode(j))
    decreases n
  {
    if n > 0 {
      NodesPassedUncanceled(env, s0, n - 1);
    }
  }

  lemma {:induction false} NodesAheadUntouched(env: Env, s0: Scan, n: nat)
    requires n <= |s0.nodes|
    ensures var s := ScanNodes(env, s0, n);
      forall k :: n <= k < |s0.nodes| ==> s.nodes[k] == s0.nodes[k]
    decreases n
  {
    if n > 0 {
      NodesAheadUntouched(env, s0, n - 1);
      var prev := ScanNodes(env, s0, n - 1);
      var s := NodeStep(env, prev, n - 1);
      assert ScanNodes(env, s0, n) == s;
      forall k | n <= k < |s0.nodes|
        ensures s.nodes[k] == s0.nodes[k]
      {
        NodeStepTouchesOne(env, prev, n - 1, k);
      }
    }
  }

  lemma {:induction false} NodesPassedPlaced(env: Env, s0: Scan, n: nat)
    requires n <= |s0.nodes|
    ensures var s := ScanNodes(env, s0, n);
      !s.halted ==> forall j :: 0 <= j < n ==>
        Placeable(s0.nodes[j]) && s.nodes[j] == Placed(s0.nodes[j], env.magnitude)
    decreases n
  {
    if n > 0 {
      var m := n - 1;
      NodesPassedPlaced(env, s0, m);
      NodesAheadUntouched(env, s0, m);
      var prev := ScanNodes(env, s0, m);
      var s := NodeStep(env, prev, m);
      assert ScanNodes(env, s0, n) == s;
      assert prev.nodes[m] == s0.nodes[m];
      if !s.halted {
        forall j | 0 <= j < n
          ensures Placeable(s0.nodes[j]) && s.nodes[j] == Placed(s0.nodes[j], env.magnitude)
        {
          if j < m {
            NodeStepTouchesOne(env, prev, m, j);
          }
        }
      }
    }
  }

  /** The header text read as a header, if it is one. */
  function ReadHeader(env: Env, text: seq<Byte>): Option<HeaderInfo> {
    match env.parseJson(text)
    case None => None
    case Some(j) => HeaderFromJson(j)
  }

  /** What a run over a fetched stream reports to the loader, in order. */
  function Parse(data: seq<Byte>, url: string, env: Env): (ev: seq<Notification>)
    ensures ev != [] && ev[|ev| - 1].Loaded? ==>
      ev[|ev| - 1].header.url == Some(url) && !env.canceled(BeforeMagic) && !env.canceled(BeforeNotify)
  {
    if env.canceled(BeforeMagic) then []
    else
      var magic := data[..Min(5, |data|)];
      if magic != Magic then [Error(BadMagic(magic))]
      else if env.canceled(BeforeHeaderLength) then []
      else if |data| < 9 then [Error(Thrown(EndOfStream))]
      else
        var size := U32LE(data[5..9]);
        if size == 0 then [Error(ZeroLengthHeader)]
        else if env.canceled(BeforeHeader) then []
        else if size >= 0x8000_0000 then [Error(Thrown(NegativeLength))]
        else
          var end := Min(9 + size, |data|);
          match ReadHeader(env, data[9..end])
          case None => [Error(Thrown(HeaderUnreadable))]
          case Some(header) => Deliver(data, url, env, header, end)
  }

  /**
   * The header's resources then its nodes processed, the payloads starting at `start`; the
   * header is delivered unless the run stopped or is cancelled before delivery.
   */
  function Deliver(data: seq<Byte>, url: string, env: Env, header: HeaderInfo, start: nat): (ev: seq<Notification>)
    requires start <= |data|
    ensures ev != [] && ev[|ev| - 1].Loaded? ==> ev[|ev| - 1].header.url == Some(url) && !env.canceled(BeforeNotify)
  {
    var s0 := Scan(start, header.resources, header.nodes, [], false);
    var s1 := ScanResources(data, env, s0, |header.resources|);
    var s2 := ScanNodes(env, s1, |header.nodes|);
    ScanResourcesConsistent(data, env, s0, |header.resources|);
    ScanNodesConsistent(env, s1, |header.nodes|);
    if s2.halted || env.canceled(BeforeNotify) then s2.events
    else s2.events + [Loaded(header.(url := Some(url), resources := s2.resources, nodes := s2.nodes))]
  }

  /**
   * A whole task: unless cancelled at the start, the stream is fetched from the URL's route
   * and decoded. A fetch that fails is an exception; a download cancelled after a chunk has
   * arrived ends the run silently.
   */
  function RunTask(url: string, env: Env, fetch: Route -> Option<seq<Byte>>): (ev: seq<Notification>)
    ensures ev != [] && ev[|ev| - 1].Loaded? ==>
      ev[|ev| - 1].header.url == Some(url) && !env.canceled(TaskStart) && fetch(FetchRoute(url)).Some?
  {
    if env.canceled(TaskStart) then []
    else
      var route := FetchRoute(url);
      match fetch(route)
      case None => [Error(Thrown(FetchFailed))]
      case Some(data) =>
        if route.Http? && |data| > 0 && env.canceled(Downloading) then []
        else Parse(data, url, env)
  }

  // ---------------------------------------------------------------------------------------
  // What a run promises

  /** How a stream that reaches its header is handled. */
  predicate ReachesHeader(data: seq<Byte>, env: Env) {
    && !env.canceled(BeforeMagic) && data[..Min(5, |data|)] == Magic && !env.canceled(BeforeHeaderLength)
    && |data| >= 9 && U32LE(data[5..9]) != 0 && !env.canceled(BeforeHeader) && U32LE(data[5..9]) < 0x8000_0000
  }

  function HeaderEnd(data: seq<Byte>): (end: nat)
    requires |data| >= 9
    ensures 9 <= end <= |data|
  {
    Min(9 + U32LE(data[5..9]), |data|)
  }

  /** Only a stream that reaches a readable header gets its lists processed. */
  lemma ParseShape(data: seq<Byte>, url: string, env: Env)
    ensures var ev := Parse(data, url, env);
      if ReachesHeader(data, env) && ReadHeader(env, data[9..HeaderEnd(data)]).Some? then
        ev == Deliver(data, url, env, ReadHeader(env, data[9..HeaderEnd(data)]).value, HeaderEnd(data))
      else |ev| <= 1 && forall k :: 0 <= k < |ev| ==> ev[k].Error? && !Soft(ev[k])
  {
  }

  /** Delivery reports only errors, soft ones before the header, which comes last if at all. */
  lemma {:induction false} DeliverLoadedLast(data: seq<Byte>, url: string, env: Env, header: HeaderInfo, start: nat)
    requires start <= |data|
    ensures var ev := Deliver(data, url, env, header, start);
      && (forall k :: 0 <= k < |ev| - 1 ==> ev[k].Error?)
      && (ev != [] && ev[|ev| - 1].Loaded? ==> forall k :: 0 <= k < |ev| - 1 ==> Soft(ev[k]))
  {
    var s0 := Scan(start, header.resources, header.nodes, [], false);
    assert Consistent(s0);
    ScanResourcesConsistent(data, env, s0, |header.resources|);
    ScanNodesConsistent(env, ScanResources(data, env, s0, |header.resources|), |header.nodes|);
  }

  /** At most one header is delivered, as the last notification; before it only soft errors. */
  lemma {:induction false} LoadedComesLast(data: seq<Byte>, url: string, env: Env)
    ensures var ev := Parse(data, url, env);
      && (forall k :: 0 <= k < |ev| - 1 ==> ev[k].Error?)
      && (ev != [] && ev[|ev| - 1].Loaded? ==> forall k :: 0 <= k < |ev| - 1 ==> Soft(ev[k]))
  {
    ParseShape(data, url, env);
    if ReachesHeader(data, env) && ReadHeader(env, data[9..HeaderEnd(data)]).Some? {
      DeliverLoadedLast(data, url, env, ReadHeader(env, data[9..HeaderEnd(data)]).value, HeaderEnd(data));
    }
  }

  /**
   * A delivered header was seen uncancelled at every checkpoint of the lists and before
   * delivery, carries the task's URL, and every node in it has its bounds and radius derived
   * from its own box, read as (x, z, y).
   */
  lemma {:induction false} DeliveredUncanceled(data: seq<Byte>, url: string, env: Env, header: HeaderInfo, start: nat)
    requires start <= |data|
    requires var ev := Deliver(data, url, env, header, start); ev != [] && ev[|ev| - 1].Loaded?
    ensures !env.canceled(BeforeNotify)
    ensures var ev := Deliver(data, url, env, header, start); var h := ev[|ev| - 1].header;
      && h.url == Some(url)
      && |h.resources| == |header.resources| && |h.nodes| == |header.nodes|
      && (forall i :: 0 <= i < |h.resources| ==> !env.canceled(BeforeResource(i)))
      && (forall j :: 0 <= j < |h.nodes| ==> !env.canceled(BeforeNode(j)))
      && (forall j :: 0 <= j < |h.nodes| ==>
            Placeable(h.nodes[j]) && h.nodes[j].bounds == MakeBounds(Axes(h.nodes[j].bbMin), Axes(h.nodes[j].bbMax))
            && h.nodes[j].boundingSphereRadius == env.magnitude(h.nodes[j].bounds.size) / 2.0)
  {
    var s0 := Scan(start, header.resources, header.nodes, [], false);
    var s1 := ScanResources(data, env, s0, |header.resources|);
    var s2 := ScanNodes(env, s1, |header.nodes|);
    ResourcesScanned(data, env, s0, |header.resources|);
    NodesScanned(env, s1, |header.nodes|);
    ScanResourcesConsistent(data, env, s0, |header.resources|);
    ScanNodesConsistent(env, s1, |header.nodes|);
    assert !s2.halted && !s1.halted;
    forall j | 0 <= j < |s2.nodes|
      ensures Placeable(s2.nodes[j]) && s2.nodes[j].bounds == MakeBounds(Axes(s2.nodes[j].bbMin), Axes(s2.nodes[j].bbMax))
    {
      assert s2.nodes[j] == Placed(s1.nodes[j], env.magnitude);
    }
  }

  /** A delivered header was seen uncancelled at every checkpoint of the stream. */
  lemma {:induction false} LoadedMeansUncanceled(data: seq<Byte>, url: string, env: Env)
    requires var ev := Parse(data, url, env); ev != [] && ev[|ev| - 1].Loaded?
    ensures !env.canceled(BeforeMagic) && !env.canceled(BeforeHeaderLength)
    ensures !env.canceled(BeforeHeader) && !env.canceled(BeforeNotify)
    ensures var ev := Parse(data, url, env); var h := ev[|ev| - 1].header;
      && h.url == Some(url)
      && (forall i :: 0 <= i < |h.resources| ==> !env.canceled(BeforeResource(i)))
      && (forall j :: 0 <= j < |h.nodes| ==> !env.canceled(BeforeNode(j)))
  {
    ParseShape(data, url, env);
    DeliveredUncanceled(data, url, env, ReadHeader(env, data[9..HeaderEnd(data)]).value, HeaderEnd(data));
  }

  /** A run cancelled just before it would deliver the header reports errors only. */
  lemma {:induction false} CanceledBeforeNotifyDeliversNothing(data: seq<Byte>, url: string, env: Env)
    requires env.canceled(BeforeNotify)
    ensures forall k :: 0 <= k < |Parse(data, url, env)| ==> Parse(data, url, env)[k].Error?
  {
    var ev := Parse(data, url, env);
    LoadedComesLast(data, url, env);
    if ev != [] && ev[|ev| - 1].Loaded? {
      LoadedMeansUncanceled(data, url, env);
    }
  }

  /** A stream without the magic gets exactly one error, and no header. */
  lemma BadMagicReportsOnce(data: seq<Byte>, url: string, env: Env)
    requires !env.canceled(BeforeMagic) && data[..Min(5, |data|)] != Magic
    ensures Parse(data, url, env) == [Error(BadMagic(data[..Min(5, |data|)]))]
  {
  }

  /** A header length of zero gets exactly one error, and no header. */
  lemma ZeroLengthReportsOnce(data: seq<Byte>, url: string, env: Env)
    requires !env.canceled(BeforeMagic) && !env.canceled(BeforeHeaderLength)
    requires |data| >= 9 && data[..5] == Magic && U32LE(data[5..9]) == 0
    ensures Parse(data, url, env) == [Error(ZeroLengthHeader)]
  {
  }

  /** A resource of an unsupported type or format is reported and skipped: nothing is read. */
  lemma UnsupportedResourceSkipped(data: seq<Byte>, env: Env, s: Scan, i: nat)
    requires s.pos <= |data| && i < |s.resources| && !s.halted && !env.canceled(BeforeResource(i))
    requires s.resources[i].size > 0 && s.resources[i].kind != Some("textureBuffer")
    requires s.resources[i].kind != Some("geometryBuffer") || s.resources[i].format != Some("ctm")
    ensures var t := ResourceStep(data, env, s, i);
      && !t.halted && t.pos == s.pos && t.resources == s.resources
      && |t.events| == |s.events| + 1 && t.events[..|s.events|] == s.events && Soft(t.events[|s.events|])
  {
  }

  /** An empty resource is passed over without a read or a report. */
  lemma EmptyResourceSkipped(data: seq<Byte>, env: Env, s: Scan, i: nat)
    requires s.pos <= |data| && i < |s.resources| && !env.canceled(BeforeResource(i))
    requires s.resources[i].size <= 0
    ensures ResourceStep(data, env, s, i) == s
  {
  }

  /**
   * A reported unsupported resource does not stop the run: with nothing cancelled, a header
   * whose only resource is unsupported is still delivered, right after the report.
   */
  lemma {:induction false} UnsupportedThenLoaded(data: seq<Byte>, url: string, env: Env, header: HeaderInfo, start: nat)
    requires start <= |data| && forall c :: !env.canceled(c)
    requires |header.resources| == 1 && header.nodes == []
    requires var r := header.resources[0];
      r.size > 0 && r.kind != Some("textureBuffer") && (r.kind != Some("geometryBuffer") || r.format != Some("ctm"))
    ensures var r := header.resources[0];
      var report := if r.kind == Some("geometryBuffer") then BadFormat(r.format) else BadType(r.kind);
      Deliver(data, url, env, header, start) == [Error(report), Loaded(header.(url := Some(url)))]
  {
    var s0 := Scan(start, header.resources, header.nodes, [], false);
    assert ScanResources(data, env, s0, 0) == s0;
    var s1 := ScanResources(data, env, s0, 1);
    assert s1 == ResourceStep(data, env, s0, 0);
    assert ScanNodes(env, s1, 0) == s1;
  }

  /**
   * A whole task that delivers a header was seen uncancelled at its start, while downloading,
   * and at every checkpoint of the stream; the header carries the task's URL.
   */
  lemma {:induction false} LoadedRunUncanceled(url: string, env: Env, fetch: Route -> Option<seq<Byte>>)
    requires var ev := RunTask(url, env, fetch); ev != [] && ev[|ev| - 1].Loaded?
    ensures !env.canceled(TaskStart) && (FetchRoute(url).Http? ==> !env.canceled(Downloading))
    ensures !env.canceled(BeforeMagic) && !env.canceled(BeforeHeaderLength)
    ensures !env.canceled(BeforeHeader) && !env.canceled(BeforeNotify)
    ensures var ev := RunTask(url, env, fetch); var h := ev[|ev| - 1].header;
      && h.url == Some(url)
      && (forall i :: 0 <= i < |h.resources| ==> !env.canceled(BeforeResource(i)))
      && (forall j :: 0 <= j < |h.nodes| ==> !env.canceled(BeforeNode(j)))
  {
    var data := fetch(FetchRoute(url)).value;
    assert RunTask(url, env, fetch) == Parse(data, url, env);
    ParseShape(data, url, env);
    LoadedMeansUncanceled(data, url, env);
  }

  lemma {:induction false} JoinedAppend(a: seq<seq<Byte>>, b: seq<seq<Byte>>)
    ensures Joined(a + b) == Joined(a) + Joined(b)
    decreases |b|
  {
    if b != [] {
      var init := b[..|b| - 1];
      assert (a + b)[..|a + b| - 1] == a + init;
      JoinedAppend(a, init);
    } else {
      assert a + b == a;
    }
  }

  /** Payload `n` sits right after the payloads before it. */
  lemma {:induction false} JoinedAt(payloads: seq<seq<Byte>>, n: nat)
    requires n < |payloads|
    ensures var before := |Joined(payloads[..n])|;
      && |Joined(payloads[..n + 1])| == before + |payloads[n]|
      && before + |payloads[n]| <= |Joined(payloads)|
      && Joined(payloads)[before..before + |payloads[n]|] == payloads[n]
  {
    var before := Joined(payloads[..n]);
    assert payloads[..n + 1] == payloads[..n] + [payloads[n]];
    JoinedAppend(payloads[..n], [payloads[n]]);
    assert payloads == payloads[..n + 1] + payloads[n + 1..];
    JoinedAppend(payloads[..n + 1], payloads[n + 1..]);
    var one: seq<seq<Byte>> := [payloads[n]];
    assert one[..0] == [];
    assert Joined(payloads) == before + payloads[n] + Joined(payloads[n + 1..]);
  }

  /** A texture resource that fits in the stream takes the next `size` bytes. */
  lemma TextureStep(data: seq<Byte>, env: Env, s: Scan, i: nat)
    requires s.pos <= |data| && i < |s.resources| && !s.halted && !env.canceled(BeforeResource(i))
    requires s.resources[i].kind == Some("textureBuffer") && 0 < s.resources[i].size
    requires s.pos + s.resources[i].size <= |data|
    ensures var t := ResourceStep(data, env, s, i);
      && !t.halted && t.events == s.events && t.pos == s.pos + s.resources[i].size
      && t.resources[i] == s.resources[i].(textureData := Some(data[s.pos..s.pos + s.resources[i].size]))
  {
  }

  /**
   * Resources that are all textures, sized to consecutive payloads, take exactly those
   * payloads, in order.
   */
  lemma {:induction false} TextureScan(data: seq<Byte>, env: Env, s0: Scan, payloads: seq<seq<Byte>>, n: nat)
    requires s0.pos + |Joined(payloads)| == |data| && data[s0.pos..] == Joined(payloads)
    requires !s0.halted && s0.events == []
    requires |payloads| == |s0.resources| && n <= |payloads|
    requires forall i :: 0 <= i < n ==> !env.canceled(BeforeResource(i))
    requires forall i :: 0 <= i < |s0.resources| ==>
      s0.resources[i].kind == Some("textureBuffer") && s0.resources[i].size == |payloads[i]| > 0
    ensures var s := ScanResources(data, env, s0, n);
      && !s.halted && s.events == [] && s.pos == s0.pos + |Joined(payloads[..n])|
      && forall i :: 0 <= i < n ==> s.resources[i] == s0.resources[i].(textureData := Some(payloads[i]))
  {
    if n > 0 {
      var m := n - 1;
      TextureScan(data, env, s0, payloads, m);
      ResourcesScanned(data, env, s0, m);
      TextureAdvance(data, env, s0, ScanResources(data, env, s0, m), payloads, m);
    } else {
      assert payloads[..0] == [];
    }
  }

  /** One step of `TextureScan`. */
  lemma TextureAdvance(data: seq<Byte>, env: Env, s0: Scan, s: Scan, payloads: seq<seq<Byte>>, m: nat)
    requires s0.pos + |Joined(payloads)| == |data| && data[s0.pos..] == Joined(payloads)
    requires |payloads| == |s0.resources| == |s.resources| && m < |payloads|
    requires !env.canceled(BeforeResource(m))
    requires forall i :: 0 <= i < |s0.resources| ==>
      s0.resources[i].kind == Some("textureBuffer") && s0.resources[i].size == |payloads[i]| > 0
    requires s.pos <= |data| && !s.halted && s.events == [] && s.pos == s0.pos + |Joined(payloads[..m])|
    requires forall i :: 0 <= i < m ==> s.resources[i] == s0.resources[i].(textureData := Some(payloads[i]))
    requires s.resources[m] == s0.resources[m]
    ensures var t := ResourceStep(data, env, s, m);
      && !t.halted && t.events == [] && t.pos == s0.pos + |Joined(payloads[..m + 1])|
      && forall i :: 0 <= i < m + 1 ==> t.resources[i] == s0.resources[i].(textureData := Some(payloads[i]))
  {
    JoinedAt(payloads, m);
    var k := |Joined(payloads[..m])|;
    SliceOfSuffix(data, s0.pos, Joined(payloads), k, payloads[m]);
    TextureStep(data, env, s, m);
    var t := ResourceStep(data, env, s, m);
    forall i | 0 <= i < m + 1
      ensures t.resources[i] == s0.resources[i].(textureData := Some(payloads[i]))
    {
      if i < m {
        assert t.resources[i] == s.resources[i];
      }
    }
  }

  lemma SliceOfSuffix(data: seq<Byte>, base: nat, whole: seq<Byte>, k: nat, part: seq<Byte>)
    requires base + |whole| == |data| && data[base..] == whole
    requires k + |part| <= |whole| && whole[k..k + |part|] == part
    ensures data[base + k..base + k + |part|] == part
  {
    assert data[base + k..base + k + |part|] == whole[k..k + |part|];
  }

  /** Nodes that all have full boxes are all placed when no node checkpoint is cancelled. */
  lemma {:induction false} NodesPlaced(env: Env, s0: Scan, n: nat)
    requires n <= |s0.nodes| && !s0.halted
    requires forall j :: 0 <= j < n ==> !env.canceled(BeforeNode(j)) && Placeable(s0.nodes[j])
    ensures !ScanNodes(env, s0, n).halted
  {
    if n > 0 {
      NodesPlaced(env, s0, n - 1);
      NodesScanned(env, s0, n - 1);
      assert ScanNodes(env, s0, n - 1).nodes[n - 1] == s0.nodes[n - 1];
    }
  }

  /**
   * Exactly one notification, the header `h` delivered from `url` with payload `i` attached to
   * resource `i` and every node placed.
   */
  predicate TexturesLoaded(ev: seq<Notification>, h: HeaderInfo, payloads: seq<seq<Byte>>, url: string, magnitude: Vec3 -> real)
    requires |payloads| == |h.resources|
    requires forall j :: 0 <= j < |h.nodes| ==> Placeable(h.nodes[j])
  {
    && |ev| == 1 && ev[0].Loaded?
    && ev[0].header == h.(url := Some(url), resources := ev[0].header.resources, nodes := ev[0].header.nodes)
    && |ev[0].header.resources| == |h.resources| && |ev[0].header.nodes| == |h.nodes|
    && (forall i :: 0 <= i < |h.resources| ==>
          ev[0].header.resources[i] == h.resources[i].(textureData := Some(payloads[i])))
    && (forall j :: 0 <= j < |h.nodes| ==> ev[0].header.nodes[j] == Placed(h.nodes[j], magnitude))
  }

  /**
   * Decoding inverts packing: a stream whose header lists only texture resources, sized to
   * the payloads that follow, is delivered as that header with each payload attached to its
   * resource and each node placed, and nothing else is reported.
   */
  lemma {:induction false} TexturesRoundTrip(json: seq<Byte>, payloads: seq<seq<Byte>>, h: HeaderInfo, url: string, env: Env)
    requires 0 < |json| < 0x8000_0000
    requires forall c :: !env.canceled(c)
    requires ReadHeader(env, json) == Some(h)
    requires |payloads| == |h.resources|
    requires forall i :: 0 <= i < |h.resources| ==>
      h.resources[i].kind == Some("textureBuffer") && h.resources[i].size == |payloads[i]| > 0
    requires forall j :: 0 <= j < |h.nodes| ==> Placeable(h.nodes[j])
    ensures TexturesLoaded(Parse(Pack(json, payloads), url, env), h, payloads, url, env.magnitude)
  {
    var data := Pack(json, payloads);
    U32RoundTrip(|json|);
    assert data[..Min(5, |data|)] == Magic;
    assert U32LE(data[5..9]) == |json|;
    assert HeaderEnd(data) == 9 + |json|;
    assert ReachesHeader(data, env);
    assert data[9..HeaderEnd(data)] == json;
    ParseShape(data, url, env);
    assert Parse(data, url, env) == Deliver(data, url, env, h, 9 + |json|);
    TexturesDelivered(data, payloads, h, url, env, 9 + |json|);
  }

  lemma {:induction false} TexturesDelivered(data: seq<Byte>, payloads: seq<seq<Byte>>, h: HeaderInfo, url: string, env: Env, start: nat)
    requires start + |Joined(payloads)| == |data| && data[start..] == Joined(payloads)
    requires forall c :: !env.canceled(c)
    requires |payloads| == |h.resources|
    requires forall i :: 0 <= i < |h.resources| ==>
      h.resources[i].kind == Some("textureBuffer") && h.resources[i].size == |payloads[i]| > 0
    requires forall j :: 0 <= j < |h.nodes| ==> Placeable(h.nodes[j])
    ensures TexturesLoaded(Deliver(data, url, env, h, start), h, payloads, url, env.magnitude)
  {
    var s0 := Scan(start, h.resources, h.nodes, [], false);
    TextureScan(data, env, s0, payloads, |payloads|);
    var s1 := ScanResources(data, env, s0, |h.resources|);
    NodesPlaced(env, s1, |h.nodes|);
    NodesScanned(env, s1, |h.nodes|);
  }

  // ---------------------------------------------------------------------------------------
  // The decoder as it runs

  /** Once the resource pass has stopped, later resources change nothing. */
  lemma {:induction false} ResourcesStayHalted(data: seq<Byte>, env: Env, s0: Scan, i: nat, n: nat)
    requires s0.pos <= |data| && i <= n <= |s0.resources|
    requires i == n || ScanResources(data, env, s0, i).halted
    ensures ScanResources(data, env, s0, n) == ScanResources(data, env, s0, i)
    decreases n
  {
    if n > i {
      ResourcesStayHalted(data, env, s0, i, n - 1);
      var prev := ScanResources(data, env, s0, n - 1);
      assert prev.halted;
      assert ScanResources(data, env, s0, n) == ResourceStep(data, env, prev, n - 1);
    }
  }

  /** Once the node pass has stopped, later nodes change nothing. */
  lemma {:induction false} NodesStayHalted(env: Env, s0: Scan, j: nat, n: nat)
    requires j <= n <= |s0.nodes|
    requires ScanNodes(env, s0, j).halted
    ensures ScanNodes(env, s0, n) == ScanNodes(env, s0, j)
    decreases n
  {
    if n > j {
      NodesStayHalted(env, s0, j, n - 1);
      var prev := ScanNodes(env, s0, n - 1);
      assert prev.halted;
      assert ScanNodes(env, s0, n) == NodeStep(env, prev, n - 1);
    }
  }

  /**
   * The decoder as the task runs it: a read position advanced through the stream, the
   * header's lists updated entry by entry, notifications sent as they are raised, and an
   * early return wherever the task sees itself cancelled or an exception ends it.
   */
  method Decode(data: seq<Byte>, url: string, env: Env) returns (events: seq<Notification>)
    ensures events == Parse(data, url, env)
  {
    ParseShape(data, url, env);
    events := [];
    if env.canceled(BeforeMagic) {
      return;
    }
    var magic := data[..Min(5, |data|)];
    if magic != Magic {
      events := [Error(BadMagic(magic))];
      return;
    }
    if env.canceled(BeforeHeaderLength) {
      return;
    }
    if |data| < 9 {
      events := [Error(Thrown(EndOfStream))];
      return;
    }
    var size := U32LE(data[5..9]);
    if size == 0 {
      events := [Error(ZeroLengthHeader)];
      return;
    }
    if env.canceled(BeforeHeader) {
      return;
    }
    if size >= 0x8000_0000 {
      events := [Error(Thrown(NegativeLength))];
      return;
    }
    var pos: nat := Min(9 + size, |data|);
    var read := ReadHeader(env, data[9..pos]);
    if read.None? {
      events := [Error(Thrown(HeaderUnreadable))];
      return;
    }
    var header := read.value;
    assert Parse(data, url, env) == Deliver(data, url, env, header, pos);
    var s1 := ReadResources(data, env, Scan(pos, header.resources, header.nodes, [], false));
    if s1.halted {
      events := s1.events;
      return;
    }
    var s2 := PlaceNodes(env, s1);
    events := s2.events;
    if s2.halted || env.canceled(BeforeNotify) {
      return;
    }
    events := events + [Loaded(header.(url := Some(url), resources := s2.resources, nodes := s2.nodes))];
  }

  /** The resource loop: each resource's payload read in turn from the read position. */
  method ReadResources(data: seq<Byte>, env: Env, s0: Scan) returns (s: Scan)
    requires s0.pos <= |data| && !s0.halted
    ensures s == ScanResources(data, env, s0, |s0.resources|)
  {
    s := s0;
    var i := 0;
    while i < |s0.resources| && !s.halted
      invariant 0 <= i <= |s0.resources| && s == ScanResources(data, env, s0, i)
    {
      s := ReadResource(data, env, s, i);
      i := i + 1;
    }
    ResourcesStayHalted(data, env, s0, i, |s0.resources|);
  }

  /** One resource: its payload read from the read position, or the problem reported. */
  method ReadResource(data: seq<Byte>, env: Env, s: Scan, i: nat) returns (t: Scan)
    requires s.pos <= |data| && i < |s.resources| && !s.halted
    ensures t == ResourceStep(data, env, s, i)
  {
    if env.canceled(BeforeResource(i)) {
      return s.(halted := true);
    }
    var r := s.resources[i];
    t := s;
    if r.size > 0 {
      if r.kind == Some("textureBuffer") {
        var end: nat := Min(s.pos + r.size, |data|);
        t := s.(pos := end, resources := s.resources[i := r.(textureData := Some(data[s.pos..end]))]);
      } else if r.kind == Some("geometryBuffer") {
        if r.format == Some("ctm") {
          var o := ReadGeometry(data[s.pos..], r, env.ctm);
          if o.MeshFailed? {
            return Raise(s, o.reason);
          }
          t := s.(pos := s.pos + o.consumed, resources := s.resources[i := r.(meshData := Some(o.mesh))]);
        } else {
          t := s.(events := s.events + [Error(BadFormat(r.format))]);
        }
      } else {
        t := s.(events := s.events + [Error(BadType(r.kind))]);
      }
    }
  }

  /** A CTM geometry buffer: the box checked, the decoder run, its arrays converted. */
  method ReadGeometry(rest: seq<Byte>, r: ResourceInfo, ctm: seq<Byte> -> CtmResult) returns (o: MeshOutcome)
    ensures o == ParseMeshSpec(rest, r, ctm)
  {
    if |r.bbMin| < 3 || |r.bbMax| < 3 {
      return MeshFailed(ShortBounds);
    }
    var c := ctm(rest);
    if c.mesh.None? || c.consumed > |rest| {
      return MeshFailed(MeshUnreadable);
    }
    var md := ParseMesh(c.mesh.value, Axes(r.bbMin), Axes(r.bbMax));
    if md.None? {
      return MeshFailed(MeshUnreadable);
    }
    o := MeshDone(c.consumed, md.value);
  }

  lemma NodePlacedStep(env: Env, s1: Scan, j: nat, nodes: seq<NodeInfo>)
    requires j < |nodes| == |s1.nodes| && !s1.halted && ScanNodes(env, s1, j) == s1.(nodes := nodes)
    requires !env.canceled(BeforeNode(j)) && Placeable(nodes[j])
    ensures ScanNodes(env, s1, j + 1) == s1.(nodes := nodes[j := Placed(nodes[j], env.magnitude)])
  {
  }

  /** The node loop: each node's bounds and radius derived from its box. */
  method PlaceNodes(env: Env, s1: Scan) returns (s: Scan)
    requires !s1.halted
    ensures s == ScanNodes(env, s1, |s1.nodes|)
  {
    var nodes := s1.nodes;
    var j := 0;
    while j < |nodes|
      invariant |nodes| == |s1.nodes| && 0 <= j <= |nodes|
      invariant ScanNodes(env, s1, j) == s1.(nodes := nodes)
    {
      if env.canceled(BeforeNode(j)) {
        NodesStayHalted(env, s1, j + 1, |nodes|);
        return s1.(nodes := nodes, halted := true);
      }
      var node := nodes[j];
      if |node.bbMin| < 3 || |node.bbMax| < 3 {
        NodesStayHalted(env, s1, j + 1, |nodes|);
        return s1.(nodes := nodes, events := s1.events + [Error(Thrown(ShortBounds))], halted := true);
      }
      var bounds := MakeBounds(Axes(node.bbMin), Axes(node.bbMax));
      NodePlacedStep(env, s1, j, nodes);
      nodes := nodes[j := node.(bounds := bounds, boundingSphereRadius := env.magnitude(bounds.size) / 2.0)];
      j := j + 1;
    }
    s := s1.(nodes := nodes);
  }

  /**
   * A whole task as it runs: cancelled at the start it does nothing; otherwise the stream is
   * fetched and decoded.
   */
  method Run(url: string, env: Env, fetch: Route -> Option<seq<Byte>>) returns (events: seq<Notification>)
    ensures events == RunTask(url, env, fetch)
  {
    if env.canceled(TaskStart) {
      return [];
    }
    var route := FetchRoute(url);
    var fetched := fetch(route);
    if fetched.None? {
      return [Error(Thrown(FetchFailed))];
    }
    var data := fetched.value;
    if route.Http? && |data| > 0 && env.canceled(Downloading) {
      return [];
    }
    events := Decode(data, url, env);
  }
}
