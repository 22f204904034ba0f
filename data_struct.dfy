/**
 * The records a 3MXB tile header is made of (NodeInfo, ResourceInfo, HeaderInfo, MeshData),
 * and their JSON form.
 *
 * JSON is modelled as a parsed tree (`Json`), not as text: `ToJson` builds the tree the
 * serializer writes and `FromJson` reads one back the way the deserializer populates a fresh
 * object, in a simplified form: a member is bound only under its field's exact name and with
 * a value of the field's JSON type, and a member given twice is read from its last
 * occurrence, for list fields too. A member missing from the document keeps the default of a
 * new object, and a member that is not a field (or is a field marked as ignored) is not read.
 * The serializer's case-insensitive name match, its coercion of primitive values, its
 * appending of a repeated list member to the list already there, and a `null` list are not
 * modelled: a header using them is read differently or not at all.
 */
module DataStruct {
  import opened Wrappers

  /** One byte of a tile payload. */
  type Byte = b: int | 0 <= b < 256

  /** A C# `int`. */
  type Int32 = i: int | -0x8000_0000 <= i < 0x8000_0000

  /**
   * One 32-bit float component of a decoded mesh, kept as its bit pattern: the decoder only
   * copies and permutes such values, it never computes with them.
   */
  type Scalar = bv32

  /** A point or extent in tile space; float rounding is not modelled. */
  datatype Vec3 = Vec3(x: real, y: real, z: real)

  /** An axis-aligned box given by its center and its size. */
  datatype Bounds = Bounds(center: Vec3, size: Vec3)

  const ZeroVec: Vec3 := Vec3(0.0, 0.0, 0.0)
  const DefaultBounds: Bounds := Bounds(ZeroVec, ZeroVec)

  /** One level-of-detail node of a tile header. */
  datatype NodeInfo = NodeInfo(
    id: Option<string>,
    bbMin: seq<real>,
    bbMax: seq<real>,
    maxScreenDiameter: real,
    children: seq<string>,
    resources: seq<string>,
    // Derived at decode time; never serialized.
    bounds: Bounds,
    boundingSphereRadius: real)

  /** A mesh vertex or normal as decoded: three float components. */
  datatype MeshVec3 = MeshVec3(x: Scalar, y: Scalar, z: Scalar)

  /** A texture coordinate pair. */
  datatype MeshVec2 = MeshVec2(u: Scalar, v: Scalar)

  /** The arrays a decoded geometry buffer yields. */
  datatype MeshData = MeshData(
    vertexCount: int,
    vertices: seq<MeshVec3>,
    uv: seq<MeshVec2>,
    hasNormals: bool,
    normals: Option<seq<MeshVec3>>,
    triangles: seq<int>,
    bbMin: Vec3,
    bbMax: Vec3,
    bounds: Bounds)

  /** One geometry or texture resource of a tile header. */
  datatype ResourceInfo = ResourceInfo(
    id: Option<string>,
    kind: Option<string>,   // the `type` member
    format: Option<string>,
    size: Int32,
    file: Option<string>,
    bbMin: seq<real>,
    bbMax: seq<real>,
    texture: Option<string>,
    // Decoded payload; never serialized.
    textureData: Option<seq<Byte>>,
    meshData: Option<MeshData>)

  /** The JSON header of one 3MXB tile. */
  datatype HeaderInfo = HeaderInfo(
    url: Option<string>,    // set by the decoder; never serialized
    version: Int32,
    nodes: seq<NodeInfo>,
    resources: seq<ResourceInfo>)

  /** A record as a new object starts out: null strings, zero numbers, empty lists. */
  function NewNodeInfo(): (n: NodeInfo)
    ensures n.id == None && n.bbMin == [] && n.bbMax == [] && n.children == [] && n.resources == []
    ensures n.maxScreenDiameter == 0.0 && n.bounds == DefaultBounds && n.boundingSphereRadius == 0.0
  {
    NodeInfo(None, [], [], 0.0, [], [], DefaultBounds, 0.0)
  }

  function NewResourceInfo(): (r: ResourceInfo)
    ensures r.id == None && r.kind == None && r.format == None && r.file == None && r.texture == None
    ensures r.size == 0 && r.bbMin == [] && r.bbMax == []
    ensures r.textureData == None && r.meshData == None
  {
    ResourceInfo(None, None, None, 0, None, [], [], None, None, None)
  }

  function NewHeaderInfo(): (h: HeaderInfo)
    ensures h.url == None && h.version == 0 && h.nodes == [] && h.resources == []
  {
    HeaderInfo(None, 0, [], [])
  }

  // ---------------------------------------------------------------------------------------
  // The JSON tree

  datatype Json =
    | JNull
    | JBool(b: bool)
    | JInt(i: int)
    | JFloat(r: real)
    | JString(s: string)
    | JArray(items: seq<Json>)
    | JObject(members: seq<Member>)

  datatype Member = Member(name: string, value: Json)

  /**
   * The value of the last member called exactly `name`: the member a deserializer that
   * overwrites each field binds (names compared exactly, repeated lists not appended).
   */
  function Get(ms: seq<Member>, name: string): Option<Json> {
    if ms == [] then None
    else if ms[|ms| - 1].name == name then Some(ms[|ms| - 1].value)
    else Get(ms[..|ms| - 1], name)
  }

  function StringJson(s: Option<string>): Json {
    match s
    case None => JNull
    case Some(v) => JString(v)
  }

  function FloatsJson(rs: seq<real>): (j: Json)
    ensures j.JArray? && |j.items| == |rs|
    ensures forall k :: 0 <= k < |rs| ==> j.items[k] == JFloat(rs[k])
  {
    JArray(seq(|rs|, k requires 0 <= k < |rs| => JFloat(rs[k])))
  }

  function StringsJson(ss: seq<string>): (j: Json)
    ensures j.JArray? && |j.items| == |ss|
    ensures forall k :: 0 <= k < |ss| ==> j.items[k] == JString(ss[k])
  {
    JArray(seq(|ss|, k requires 0 <= k < |ss| => JString(ss[k])))
  }

  /** A string member: absent keeps `dflt`, null gives a null string, anything else fails. */
  function ReadString(ms: seq<Member>, name: string, dflt: Option<string>): Option<Option<string>> {
    match Get(ms, name)
    case None => Some(dflt)
    case Some(JNull) => Some(None)
    case Some(JString(s)) => Some(Some(s))
    case Some(_) => None
  }

  /** A float member; an integer literal is accepted as a float. */
  function ReadFloat(ms: seq<Member>, name: string, dflt: real): Option<real> {
    match Get(ms, name)
    case None => Some(dflt)
    case Some(JFloat(r)) => Some(r)
    case Some(JInt(i)) => Some(i as real)
    case Some(_) => None
  }

  /** An `int` member: an integer literal within the 32-bit range. */
  function ReadInt(ms: seq<Member>, name: string, dflt: Int32): Option<Int32> {
    match Get(ms, name)
    case None => Some(dflt)
    case Some(JInt(i)) => if -0x8000_0000 <= i < 0x8000_0000 then Some(i as Int32) else None
    case Some(_) => None
  }

  function DecodeFloats(items: seq<Json>): Option<seq<real>> {
    if items == [] then Some([])
    else
      var init :- DecodeFloats(items[..|items| - 1]);
      match items[|items| - 1]
      case JFloat(r) => Some(init + [r])
      case JInt(i) => Some(init + [i as real])
      case _ => None
  }

  function DecodeStrings(items: seq<Json>): Option<seq<string>> {
    if items == [] then Some([])
    else
      var init :- DecodeStrings(items[..|items| - 1]);
      match items[|items| - 1]
      case JString(s) => Some(init + [s])
      case _ => None
  }

  function ReadFloats(ms: seq<Member>, name: string, dflt: seq<real>): Option<seq<real>> {
    match Get(ms, name)
    case None => Some(dflt)
    case Some(JArray(items)) => DecodeFloats(items)
    case Some(_) => None
  }

  function ReadStrings(ms: seq<Member>, name: string, dflt: seq<string>): Option<seq<string>> {
    match Get(ms, name)
    case None => Some(dflt)
    case Some(JArray(items)) => DecodeStrings(items)
    case Some(_) => None
  }

  // ---------------------------------------------------------------------------------------
  // NodeInfo

  function NodeToJson(n: NodeInfo): Json {
    JObject([
      Member("id", StringJson(n.id)),
      Member("bbMin", FloatsJson(n.bbMin)),
      Member("bbMax", FloatsJson(n.bbMax)),
      Member("maxScreenDiameter", JFloat(n.maxScreenDiameter)),
      Member("children", StringsJson(n.children)),
      Member("resources", StringsJson(n.resources))])
  }

  /** Reads a node; the derived fields keep the defaults of a new object. */
  function NodeFromJson(j: Json): Option<NodeInfo> {
    match j
    case JObject(ms) =>
      var d := NewNodeInfo();
      var id :- ReadString(ms, "id", d.id);
      var bbMin :- ReadFloats(ms, "bbMin", d.bbMin);
      var bbMax :- ReadFloats(ms, "bbMax", d.bbMax);
      var msd :- ReadFloat(ms, "maxScreenDiameter", d.maxScreenDiameter);
      var children :- ReadStrings(ms, "children", d.children);
      var resources :- ReadStrings(ms, "resources", d.resources);
      Some(d.(id := id, bbMin := bbMin, bbMax := bbMax, maxScreenDiameter := msd,
              children := children, resources := resources))
    case _ => None
  }

  /** The node with its derived (ignored) fields reset to the defaults of a new object. */
  function StripNode(n: NodeInfo): NodeInfo {
    n.(bounds := DefaultBounds, boundingSphereRadius := 0.0)
  }

  // ---------------------------------------------------------------------------------------
  // ResourceInfo

  function ResourceToJson(r: ResourceInfo): Json {
    JObject([
      Member("id", StringJson(r.id)),
      Member("type", StringJson(r.kind)),
      Member("format", StringJson(r.format)),
      Member("size", JInt(r.size)),
      Member("file", StringJson(r.file)),
      Member("bbMin", FloatsJson(r.bbMin)),
      Member("bbMax", FloatsJson(r.bbMax)),
      Member("texture", StringJson(r.texture))])
  }

  function ResourceFromJson(j: Json): Option<ResourceInfo> {
    match j
    case JObject(ms) =>
      var d := NewResourceInfo();
      var id :- ReadString(ms, "id", d.id);
      var kind :- ReadString(ms, "type", d.kind);
      var format :- ReadString(ms, "format", d.format);
      var size :- ReadInt(ms, "size", d.size);
      var file :- ReadString(ms, "file", d.file);
      var bbMin :- ReadFloats(ms, "bbMin", d.bbMin);
      var bbMax :- ReadFloats(ms, "bbMax", d.bbMax);
      var texture :- ReadString(ms, "texture", d.texture);
      Some(d.(id := id, kind := kind, format := format, size := size, file := file,
              bbMin := bbMin, bbMax := bbMax, texture := texture))
    case _ => None
  }

  function StripResource(r: ResourceInfo): ResourceInfo {
    r.(textureData := None, meshData := None)
  }

  // ---------------------------------------------------------------------------------------
  // HeaderInfo

  function HeaderToJson(h: HeaderInfo): Json {
    JObject([
      Member("version", JInt(h.version)),
      Member("nodes", JArray(NodesJson(h.nodes))),
      Member("resources", JArray(ResourcesJson(h.resources)))])
  }

  function NodesJson(ns: seq<NodeInfo>): (js: seq<Json>)
    ensures |js| == |ns| && forall k :: 0 <= k < |ns| ==> js[k] == NodeToJson(ns[k])
  {
    seq(|ns|, k requires 0 <= k < |ns| => NodeToJson(ns[k]))
  }

  function ResourcesJson(rs: seq<ResourceInfo>): (js: seq<Json>)
    ensures |js| == |rs| && forall k :: 0 <= k < |rs| ==> js[k] == ResourceToJson(rs[k])
  {
    seq(|rs|, k requires 0 <= k < |rs| => ResourceToJson(rs[k]))
  }

  function DecodeNodes(items: seq<Json>): Option<seq<NodeInfo>> {
    if items == [] then Some([])
    else
      var init :- DecodeNodes(items[..|items| - 1]);
      var n :- NodeFromJson(items[|items| - 1]);
      Some(init + [n])
  }

  function DecodeResources(items: seq<Json>): Option<seq<ResourceInfo>> {
    if items == [] then Some([])
    else
      var init :- DecodeResources(items[..|items| - 1]);
      var r :- ResourceFromJson(items[|items| - 1]);
      Some(init + [r])
  }

  function HeaderFromJson(j: Json): Option<HeaderInfo> {
    match j
    case JObject(ms) =>
      var d := NewHeaderInfo();
      var version :- ReadInt(ms, "version", d.version);
      var nodes :- match Get(ms, "nodes")
                   case None => Some(d.nodes)
                   case Some(JArray(items)) => DecodeNodes(items)
                   case Some(_) => None;
      var resources :- match Get(ms, "resources")
                       case None => Some(d.resources)
                       case Some(JArray(items)) => DecodeResources(items)
                       case Some(_) => None;
      Some(d.(version := version, nodes := nodes, resources := resources))
    case _ => None
  }

  function StripHeader(h: HeaderInfo): HeaderInfo {
    h.(url := None, nodes := StripNodes(h.nodes), resources := StripResources(h.resources))
  }

  function StripNodes(ns: seq<NodeInfo>): (r: seq<NodeInfo>)
    ensures |r| == |ns| && forall k :: 0 <= k < |ns| ==> r[k] == StripNode(ns[k])
  {
    seq(|ns|, k requires 0 <= k < |ns| => StripNode(ns[k]))
  }

  function StripResources(rs: seq<ResourceInfo>): (r: seq<ResourceInfo>)
    ensures |r| == |rs| && forall k :: 0 <= k < |rs| ==> r[k] == StripResource(rs[k])
  {
    seq(|rs|, k requires 0 <= k < |rs| => StripResource(rs[k]))
  }

  // ---------------------------------------------------------------------------------------
  // Properties

  /** An empty document gives exactly a new object: the defaults are those of `NewNodeInfo`. */
  lemma EmptyObjectIsNewNode()
    ensures NodeFromJson(JObject([])) == Some(NewNodeInfo())
  {
  }

  lemma {:induction false} DecodeFloatsRoundTrip(rs: seq<real>)
    ensures DecodeFloats(FloatsJson(rs).items) == Some(rs)
  {
    if rs != [] {
      var init := rs[..|rs| - 1];
      assert FloatsJson(rs).items[..|rs| - 1] == FloatsJson(init).items;
      DecodeFloatsRoundTrip(init);
      assert init + [rs[|rs| - 1]] == rs;
    }
  }

  lemma {:induction false} DecodeStringsRoundTrip(ss: seq<string>)
    ensures DecodeStrings(StringsJson(ss).items) == Some(ss)
  {
    if ss != [] {
      var init := ss[..|ss| - 1];
      assert StringsJson(ss).items[..|ss| - 1] == StringsJson(init).items;
      DecodeStringsRoundTrip(init);
      assert init + [ss[|ss| - 1]] == ss;
    }
  }

  lemma StringRoundTrip(ms: seq<Member>, name: string, v: Option<string>)
    requires Get(ms, name) == Some(StringJson(v))
    ensures ReadString(ms, name, None) == Some(v)
  {
  }

  /** Each member the serializer writes for a node is the one read back. */
  lemma NodeMembersRead(n: NodeInfo)
    ensures var ms := NodeToJson(n).members;
      && Get(ms, "id") == Some(StringJson(n.id))
      && Get(ms, "bbMin") == Some(FloatsJson(n.bbMin))
      && Get(ms, "bbMax") == Some(FloatsJson(n.bbMax))
      && Get(ms, "maxScreenDiameter") == Some(JFloat(n.maxScreenDiameter))
      && Get(ms, "children") == Some(StringsJson(n.children))
      && Get(ms, "resources") == Some(StringsJson(n.resources))
  {
    var ms := NodeToJson(n).members;
    GetLast(ms, 0, "id");
    GetLast(ms, 1, "bbMin");
    GetLast(ms, 2, "bbMax");
    GetLast(ms, 3, "maxScreenDiameter");
    GetLast(ms, 4, "children");
    GetLast(ms, 5, "resources");
  }

  /** Reading back what was written gives the node with only its ignored fields reset. */
  lemma NodeRoundTrip(n: NodeInfo)
    ensures NodeFromJson(NodeToJson(n)) == Some(StripNode(n))
  {
    DecodeFloatsRoundTrip(n.bbMin);
    DecodeFloatsRoundTrip(n.bbMax);
    DecodeStringsRoundTrip(n.children);
    DecodeStringsRoundTrip(n.resources);
    NodeMembersRead(n);
    var ms := NodeToJson(n).members;
    StringRoundTrip(ms, "id", n.id);
    assert ReadFloats(ms, "bbMin", []) == Some(n.bbMin);
    assert ReadFloats(ms, "bbMax", []) == Some(n.bbMax);
    assert ReadFloat(ms, "maxScreenDiameter", 0.0) == Some(n.maxScreenDiameter);
    assert ReadStrings(ms, "children", []) == Some(n.children);
    assert ReadStrings(ms, "resources", []) == Some(n.resources);
  }

  /** Each member the serializer writes for a resource is the one read back. */
  lemma ResourceMembersRead(r: ResourceInfo)
    ensures var ms := ResourceToJson(r).members;
      && Get(ms, "id") == Some(StringJson(r.id))
      && Get(ms, "type") == Some(StringJson(r.kind))
      && Get(ms, "format") == Some(StringJson(r.format))
      && Get(ms, "size") == Some(JInt(r.size))
      && Get(ms, "file") == Some(StringJson(r.file))
      && Get(ms, "bbMin") == Some(FloatsJson(r.bbMin))
      && Get(ms, "bbMax") == Some(FloatsJson(r.bbMax))
      && Get(ms, "texture") == Some(StringJson(r.texture))
  {
    var ms := ResourceToJson(r).members;
    GetLast(ms, 0, "id");
    GetLast(ms, 1, "type");
    GetLast(ms, 2, "format");
    GetLast(ms, 3, "size");
    GetLast(ms, 4, "file");
    GetLast(ms, 5, "bbMin");
    GetLast(ms, 6, "bbMax");
    GetLast(ms, 7, "texture");
  }

  lemma ResourceRoundTrip(r: ResourceInfo)
    ensures ResourceFromJson(ResourceToJson(r)) == Some(StripResource(r))
  {
    DecodeFloatsRoundTrip(r.bbMin);
    DecodeFloatsRoundTrip(r.bbMax);
    ResourceMembersRead(r);
    var ms := ResourceToJson(r).members;
    StringRoundTrip(ms, "id", r.id);
    StringRoundTrip(ms, "type", r.kind);
    StringRoundTrip(ms, "format", r.format);
    StringRoundTrip(ms, "file", r.file);
    StringRoundTrip(ms, "texture", r.texture);
    assert ReadInt(ms, "size", 0) == Some(r.size);
    assert ReadFloats(ms, "bbMin", []) == Some(r.bbMin);
    assert ReadFloats(ms, "bbMax", []) == Some(r.bbMax);
  }

  /** Decoding one more item appends what it decodes to. */
  lemma DecodeNodesSnoc(items: seq<Json>, x: Json, init: seq<NodeInfo>, n: NodeInfo)
    requires DecodeNodes(items) == Some(init) && NodeFromJson(x) == Some(n)
    ensures DecodeNodes(items + [x]) == Some(init + [n])
  {
    assert (items + [x])[..|items|] == items;
  }

  lemma DecodeResourcesSnoc(items: seq<Json>, x: Json, init: seq<ResourceInfo>, r: ResourceInfo)
    requires DecodeResources(items) == Some(init) && ResourceFromJson(x) == Some(r)
    ensures DecodeResources(items + [x]) == Some(init + [r])
  {
    assert (items + [x])[..|items|] == items;
  }

  lemma NodeSeqsSnoc(ns: seq<NodeInfo>)
    requires ns != []
    ensures NodesJson(ns) == NodesJson(ns[..|ns| - 1]) + [NodeToJson(ns[|ns| - 1])]
    ensures StripNodes(ns) == StripNodes(ns[..|ns| - 1]) + [StripNode(ns[|ns| - 1])]
  {
  }

  lemma ResourceSeqsSnoc(rs: seq<ResourceInfo>)
    requires rs != []
    ensures ResourcesJson(rs) == ResourcesJson(rs[..|rs| - 1]) + [ResourceToJson(rs[|rs| - 1])]
    ensures StripResources(rs) == StripResources(rs[..|rs| - 1]) + [StripResource(rs[|rs| - 1])]
  {
  }

  lemma {:induction false} DecodeNodesRoundTrip(ns: seq<NodeInfo>)
    ensures DecodeNodes(NodesJson(ns)) == Some(StripNodes(ns))
  {
    if ns != [] {
      var init, last := ns[..|ns| - 1], ns[|ns| - 1];
      NodeSeqsSnoc(ns);
      DecodeNodesRoundTrip(init);
      NodeRoundTrip(last);
      DecodeNodesSnoc(NodesJson(init), NodeToJson(last), StripNodes(init), StripNode(last));
    }
  }

  lemma {:induction false} DecodeResourcesRoundTrip(rs: seq<ResourceInfo>)
    ensures DecodeResources(ResourcesJson(rs)) == Some(StripResources(rs))
  {
    if rs != [] {
      var init, last := rs[..|rs| - 1], rs[|rs| - 1];
      ResourceSeqsSnoc(rs);
      DecodeResourcesRoundTrip(init);
      ResourceRoundTrip(last);
      DecodeResourcesSnoc(ResourcesJson(init), ResourceToJson(last), StripResources(init), StripResource(last));
    }
  }

  /** The header round trip keeps version, nodes and resources and drops url and payloads. */
  lemma HeaderRoundTrip(h: HeaderInfo)
    ensures HeaderFromJson(HeaderToJson(h)) == Some(StripHeader(h))
  {
    DecodeNodesRoundTrip(h.nodes);
    DecodeResourcesRoundTrip(h.resources);
    var ms := HeaderToJson(h).members;
    GetLast(ms, 0, "version");
    GetLast(ms, 1, "nodes");
    GetLast(ms, 2, "resources");
  }

  /** Two nodes serialize alike exactly when they agree on every non-ignored field. */
  lemma NodeJsonDeterminedByFields(a: NodeInfo, b: NodeInfo)
    ensures NodeToJson(a) == NodeToJson(b) <==> StripNode(a) == StripNode(b)
  {
    NodeRoundTrip(a);
    NodeRoundTrip(b);
    if StripNode(a) == StripNode(b) {
      assert a.id == b.id && a.bbMin == b.bbMin && a.bbMax == b.bbMax;
      assert a.children == b.children && a.resources == b.resources;
    }
  }

  lemma ResourceJsonDeterminedByFields(a: ResourceInfo, b: ResourceInfo)
    ensures ResourceToJson(a) == ResourceToJson(b) <==> StripResource(a) == StripResource(b)
  {
    ResourceRoundTrip(a);
    ResourceRoundTrip(b);
  }

  lemma HeaderJsonDeterminedByFields(a: HeaderInfo, b: HeaderInfo)
    ensures HeaderToJson(a) == HeaderToJson(b) <==> StripHeader(a) == StripHeader(b)
  {
    HeaderRoundTrip(a);
    HeaderRoundTrip(b);
    if StripHeader(a) == StripHeader(b) {
      assert |a.nodes| == |b.nodes| && |a.resources| == |b.resources|;
      forall k | 0 <= k < |a.nodes| ensures NodeToJson(a.nodes[k]) == NodeToJson(b.nodes[k]) {
        assert StripNode(a.nodes[k]) == StripNode(b.nodes[k]);
        NodeJsonDeterminedByFields(a.nodes[k], b.nodes[k]);
      }
      forall k | 0 <= k < |a.resources| ensures ResourceToJson(a.resources[k]) == ResourceToJson(b.resources[k]) {
        assert StripResource(a.resources[k]) == StripResource(b.resources[k]);
        ResourceJsonDeterminedByFields(a.resources[k], b.resources[k]);
      }
      assert NodesJson(a.nodes) == NodesJson(b.nodes);
      assert ResourcesJson(a.resources) == ResourcesJson(b.resources);
    }
  }

  /** A member whose name does not occur later is the one read. */
  lemma {:induction false} GetLast(ms: seq<Member>, k: int, name: string)
    requires 0 <= k < |ms| && ms[k].name == name
    requires forall j :: k < j < |ms| ==> ms[j].name != name
    ensures Get(ms, name) == Some(ms[k].value)
  {
    if k < |ms| - 1 {
      GetLast(ms[..|ms| - 1], k, name);
    }
  }

  lemma {:induction false} GetSkipsOtherNames(ms: seq<Member>, m: Member, name: string)
    requires m.name != name
    ensures Get(ms + [m], name) == Get(ms, name)
  {
    assert (ms + [m])[..|ms|] == ms;
  }

  lemma GetSkipsTwo(ms: seq<Member>, m1: Member, m2: Member, name: string)
    requires m1.name != name && m2.name != name
    ensures Get(ms + [m1, m2], name) == Get(ms, name)
  {
    assert ms + [m1, m2] == (ms + [m1]) + [m2];
    GetSkipsOtherNames(ms + [m1], m2, name);
    GetSkipsOtherNames(ms, m1, name);
  }

  /**
   * The derived node fields are never read: a document that carries members named after
   * them reads exactly like one without.
   */
  lemma IgnoredNodeMembersNotRead(ms: seq<Member>, b: Json, r: Json)
    ensures NodeFromJson(JObject(ms + [Member("bounds", b), Member("boundingSphereRadius", r)]))
            == NodeFromJson(JObject(ms))
  {
    var m1, m2 := Member("bounds", b), Member("boundingSphereRadius", r);
    GetSkipsTwo(ms, m1, m2, "id");
    GetSkipsTwo(ms, m1, m2, "bbMin");
    GetSkipsTwo(ms, m1, m2, "bbMax");
    GetSkipsTwo(ms, m1, m2, "maxScreenDiameter");
    GetSkipsTwo(ms, m1, m2, "children");
    GetSkipsTwo(ms, m1, m2, "resources");
    SameMembersSameNode(ms + [m1, m2], ms);
  }

  /** A node is read from the members under its field names (exact names) and from nothing else. */
  lemma SameMembersSameNode(ms1: seq<Member>, ms2: seq<Member>)
    requires Get(ms1, "id") == Get(ms2, "id") && Get(ms1, "bbMin") == Get(ms2, "bbMin")
    requires Get(ms1, "bbMax") == Get(ms2, "bbMax") && Get(ms1, "maxScreenDiameter") == Get(ms2, "maxScreenDiameter")
    requires Get(ms1, "children") == Get(ms2, "children") && Get(ms1, "resources") == Get(ms2, "resources")
    ensures NodeFromJson(JObject(ms1)) == NodeFromJson(JObject(ms2))
  {
    var d := NewNodeInfo();
    assert ReadString(ms1, "id", d.id) == ReadString(ms2, "id", d.id);
    assert ReadFloats(ms1, "bbMin", d.bbMin) == ReadFloats(ms2, "bbMin", d.bbMin);
    assert ReadFloats(ms1, "bbMax", d.bbMax) == ReadFloats(ms2, "bbMax", d.bbMax);
    assert ReadFloat(ms1, "maxScreenDiameter", d.maxScreenDiameter) == ReadFloat(ms2, "maxScreenDiameter", d.maxScreenDiameter);
    assert ReadStrings(ms1, "children", d.children) == ReadStrings(ms2, "children", d.children);
    assert ReadStrings(ms1, "resources", d.resources) == ReadStrings(ms2, "resources", d.resources);
  }

  lemma IgnoredResourceMembersNotRead(ms: seq<Member>, t: Json, m: Json)
    ensures ResourceFromJson(JObject(ms + [Member("textureData", t), Member("meshData", m)]))
            == ResourceFromJson(JObject(ms))
  {
    var m1, m2 := Member("textureData", t), Member("meshData", m);
    var ms2 := ms + [m1, m2];
    GetSkipsTwo(ms, m1, m2, "id");
    GetSkipsTwo(ms, m1, m2, "type");
    GetSkipsTwo(ms, m1, m2, "format");
    GetSkipsTwo(ms, m1, m2, "size");
    GetSkipsTwo(ms, m1, m2, "file");
    GetSkipsTwo(ms, m1, m2, "bbMin");
    GetSkipsTwo(ms, m1, m2, "bbMax");
    GetSkipsTwo(ms, m1, m2, "texture");
    SameMembersSameResource(ms2, ms);
  }

  /** A resource is read from the members under its field names (exact names) and from nothing else. */
  lemma SameMembersSameResource(ms1: seq<Member>, ms2: seq<Member>)
    requires Get(ms1, "id") == Get(ms2, "id") && Get(ms1, "type") == Get(ms2, "type")
    requires Get(ms1, "format") == Get(ms2, "format") && Get(ms1, "size") == Get(ms2, "size")
    requires Get(ms1, "file") == Get(ms2, "file") && Get(ms1, "bbMin") == Get(ms2, "bbMin")
    requires Get(ms1, "bbMax") == Get(ms2, "bbMax") && Get(ms1, "texture") == Get(ms2, "texture")
    ensures ResourceFromJson(JObject(ms1)) == ResourceFromJson(JObject(ms2))
  {
    var d := NewResourceInfo();
    assert ReadString(ms1, "id", d.id) == ReadString(ms2, "id", d.id);
    assert ReadString(ms1, "type", d.kind) == ReadString(ms2, "type", d.kind);
    assert ReadString(ms1, "format", d.format) == ReadString(ms2, "format", d.format);
    assert ReadInt(ms1, "size", d.size) == ReadInt(ms2, "size", d.size);
    assert ReadString(ms1, "file", d.file) == ReadString(ms2, "file", d.file);
    assert ReadFloats(ms1, "bbMin", d.bbMin) == ReadFloats(ms2, "bbMin", d.bbMin);
    assert ReadFloats(ms1, "bbMax", d.bbMax) == ReadFloats(ms2, "bbMax", d.bbMax);
    assert ReadString(ms1, "texture", d.texture) == ReadString(ms2, "texture", d.texture);
  }

  lemma IgnoredHeaderUrlNotRead(ms: seq<Member>, u: Json)
    ensures HeaderFromJson(JObject(ms + [Member("url", u)])) == HeaderFromJson(JObject(ms))
  {
    GetSkipsOtherNames(ms, Member("url", u), "version");
    GetSkipsOtherNames(ms, Member("url", u), "nodes");
    GetSkipsOtherNames(ms, Member("url", u), "resources");
  }
}
