/** The scene graph of tp2/MyGraph.js, which has its own `MyNode` and
    `MyPointLight` classes: the root is `node[node.rootid]`; of its
    children only `noderef` entries (nested nodes) and `pointlight` entries
    (light records) are kept. A nested node is looked up by its entry key;
    it has no inherited material, keeps the transforms of its last entry of
    each kind, and takes its `coords` from its last `rectangle` child. */
module Tp2Graph {
  import opened Wrappers
  import opened JsonValue
  import opened JsSemantics
  import opened NodeTransforms
  import SceneNodes

  /** `this.coords`: the two corners a `rectangle` child sets. */
  datatype Coords = Coords(xy1: Option<Vec2>, xy2: Option<Vec2>)

  /** A `MyNode` of tp2/MyGraph.js. `material` starts as `null`, which is
      `Some(JNull)`; `None` is a `materialId` that was absent. */
  datatype GraphNode = GraphNode(
    name: string, nodeId: Option<Json>, material: Option<Json>, transforms: Transforms,
    coords: Coords, children: seq<GraphNode>)

  /** A `MyPointLight` of tp2/MyGraph.js: every field copied as read, with
      no default. */
  datatype LightRecord = LightRecord(
    name: string, enabled: Option<Json>, color: Rgb, intensity: Option<Json>,
    distance: Option<Json>, decay: Option<Json>, castShadow: Option<Json>, position: Vec3)

  /** A child of the graph itself. */
  datatype RootChild = RootNode(node: GraphNode) | RootLight(light: LightRecord)

  /** The fields of a `MyGraph` after its constructor. */
  datatype Graph = Graph(rootid: Option<Json>, kind: Option<Json>, children: seq<RootChild>)

  /** `new MyPointLight(name, value)`: throws when `color` or `position` is
      null or undefined, and otherwise copies every field. */
  function LightRecordOf(name: string, value: Json): (r: Result<LightRecord>)
    requires value != JNull
    ensures r.Ok? <==> !IsNullish(Get(value, "color")) && !IsNullish(Get(value, "position"))
  {
    match (ReadRgb(Get(value, "color")), ReadVec3(Get(value, "position")))
    case (Ok(color), Ok(position)) =>
      Ok(LightRecord(name, Get(value, "enabled"), color, Get(value, "intensity"), Get(value, "distance"),
                     Get(value, "decay"), Get(value, "castShadow"), position))
    case (Err(m), _) => Err(m)
    case (_, Err(m)) => Err(m)
  }

  /** `new MyNode(name, value, node)`: `value.nodeId` throws on a null
      entry; the node starts with a `null` material and no transforms,
      corners or children, then runs `createChildren`. `depth` is the
      number of further nested `MyNode` constructions the engine's call
      stack has room for. */
  function BuildNode(scene: Json, depth: nat, name: string, value: Json): Result<GraphNode>
    decreases depth, 5, 0
  {
    if value == JNull then Err("TypeError: cannot read property 'nodeId' of null")
    else Built(scene, depth, GraphNode(name, Get(value, "nodeId"), Some(JNull), NoTransforms, Coords(None, None), []))
  }

  /** `createChildren()` on a node whose fields are `s`: the loop over the
      entries of `node[name]`, which throws when that is null or
      undefined. */
  function Built(scene: Json, depth: nat, s: GraphNode): Result<GraphNode>
    decreases depth, 4, 0
  {
    match Entries(Member(scene, s.name))
    case Err(m) => Err(m)
    case Ok(es) => NodeSteps(scene, depth, es, s)
  }

  /** The loop of `createChildren` over the entries of the definition. */
  function NodeSteps(scene: Json, depth: nat, es: seq<(string, Json)>, s: GraphNode): Result<GraphNode>
    decreases depth, 3, |es|
  {
    if es == [] then Ok(s)
    else
      match NodeStep(scene, depth, es[0], s)
      case Err(m) => Err(m)
      case Ok(t) => NodeSteps(scene, depth, es[1..], t)
  }

  /** One entry: `transforms` runs `createTransforms`, `materialref` sets
      the material, `children` walks its entries, anything else is
      ignored. */
  function NodeStep(scene: Json, depth: nat, e: (string, Json), s: GraphNode): Result<GraphNode>
    decreases depth, 2, 0
  {
    if e.0 == "transforms" then
      match CreateTransforms(s.transforms, e.1)
      case Err(m) => Err(m)
      case Ok(t) => Ok(s.(transforms := t))
    else if e.0 == "materialref" then
      if e.1 == JNull then Err("TypeError: cannot read property 'materialId' of null")
      else Ok(s.(material := Get(e.1, "materialId")))
    else if e.0 == "children" then
      match Entries(Some(e.1))
      case Err(m) => Err(m)
      case Ok(cs) => ChildSteps(scene, depth, cs, s)
    else Ok(s)
  }

  /** The loop over the entries of a `children` object. */
  function ChildSteps(scene: Json, depth: nat, cs: seq<(string, Json)>, s: GraphNode): Result<GraphNode>
    decreases depth, 1, |cs|
  {
    if cs == [] then Ok(s)
    else
      match ChildStep(scene, depth, cs[0], s)
      case Err(m) => Err(m)
      case Ok(t) => ChildSteps(scene, depth, cs[1..], t)
  }

  /** One child entry: `noderef` adds the nested node with that key, which
      throws a `RangeError` when the call stack has no room left,
      `rectangle` sets both corners, anything else is ignored; reading
      `type` throws on a null entry. */
  function ChildStep(scene: Json, depth: nat, c: (string, Json), s: GraphNode): Result<GraphNode>
    decreases depth, 0, 0
  {
    if c.1 == JNull then Err("TypeError: cannot read property 'type' of null")
    else if Get(c.1, "type") == Some(JStr("noderef")) then
      if depth == 0 then Err(SceneNodes.StackOverflow)
      else
        match BuildNode(scene, depth - 1, c.0, c.1)
        case Err(m) => Err(m)
        case Ok(n) => Ok(s.(children := s.children + [n]))
    else if Get(c.1, "type") == Some(JStr("rectangle")) then
      match (ReadVec2(Get(c.1, "xy1")), ReadVec2(Get(c.1, "xy2")))
      case (Ok(a), Ok(b)) => Ok(s.(coords := Coords(Some(a), Some(b))))
      case (Err(m), _) => Err(m)
      case (_, Err(m)) => Err(m)
    else Ok(s)
  }

  /** `MyGraph.createChildren`: the loop over the root's `children`. */
  function RootSteps(scene: Json, depth: nat, cs: seq<(string, Json)>, acc: seq<RootChild>)
    : Result<seq<RootChild>>
    decreases |cs|
  {
    if cs == [] then Ok(acc)
    else
      match RootStep(scene, depth, cs[0])
      case Err(m) => Err(m)
      case Ok(added) => RootSteps(scene, depth, cs[1..], acc + added)
  }

  /** One root child: a `noderef` becomes a node, a `pointlight` a light
      record, anything else nothing. */
  function RootStep(scene: Json, depth: nat, c: (string, Json)): Result<seq<RootChild>>
  {
    if c.1 == JNull then Err("TypeError: cannot read property 'type' of null")
    else if Get(c.1, "type") == Some(JStr("noderef")) then
      match BuildNode(scene, depth, c.0, c.1)
      case Err(m) => Err(m)
      case Ok(n) => Ok([RootNode(n)])
    else if Get(c.1, "type") == Some(JStr("pointlight")) then
      match LightRecordOf(c.0, c.1)
      case Err(m) => Err(m)
      case Ok(l) => Ok([RootLight(l)])
    else Ok([])
  }

  /** `node[this.rootid]`, the root's definition. */
  function RootOf(scene: Json): Option<Json>
    requires scene != JNull
  {
    SceneNodes.NodeOf(scene, Get(scene, "rootid"))
  }

  /** `new MyGraph(app, node)`: reading `rootid`, the root's `type` and its
      `children` throws on null or undefined. */
  function GraphOf(scene: Json, depth: nat): Result<Graph>
  {
    if scene == JNull then Err("TypeError: cannot read property 'rootid' of null")
    else if IsNullish(RootOf(scene)) then Err("TypeError: cannot read property 'type' of undefined")
    else
      var root := RootOf(scene).value;
      match RootChildren(scene, depth, root)
      case Err(m) => Err(m)
      case Ok(children) => Ok(Graph(Get(scene, "rootid"), Get(root, "type"), children))
  }

  /** The children of the root `root`: reading its `children` object throws
      on null or undefined, then the loop runs from no children. */
  function RootChildren(scene: Json, depth: nat, root: Json): Result<seq<RootChild>>
  {
    match Entries(Get(root, "children"))
    case Err(m) => Err(m)
    case Ok(cs) => RootSteps(scene, depth, cs, [])
  }

  /** The loop of `createChildren` from entry `i` on. */
  lemma NodeStepsFrom(scene: Json, depth: nat, es: seq<(string, Json)>, i: nat, s: GraphNode)
    requires i < |es|
    ensures NodeStep(scene, depth, es[i], s).Err? ==> NodeSteps(scene, depth, es[i..], s).Err?
    ensures NodeStep(scene, depth, es[i], s).Ok? ==>
              NodeSteps(scene, depth, es[i..], s)
              == NodeSteps(scene, depth, es[i + 1..], NodeStep(scene, depth, es[i], s).value)
  {
    assert es[i..][0] == es[i] && es[i..][1..] == es[i + 1..];
  }

  /** The loop over a `children` object from entry `j` on. */
  lemma ChildStepsFrom(scene: Json, depth: nat, cs: seq<(string, Json)>, j: nat, s: GraphNode)
    requires j < |cs|
    ensures ChildStep(scene, depth, cs[j], s).Err? ==> ChildSteps(scene, depth, cs[j..], s).Err?
    ensures ChildStep(scene, depth, cs[j], s).Ok? ==>
              ChildSteps(scene, depth, cs[j..], s)
              == ChildSteps(scene, depth, cs[j + 1..], ChildStep(scene, depth, cs[j], s).value)
  {
    assert cs[j..][0] == cs[j] && cs[j..][1..] == cs[j + 1..];
  }

  /** The loop over the root's children from entry `j` on. */
  lemma RootStepsFrom(scene: Json, depth: nat, cs: seq<(string, Json)>, j: nat, acc: seq<RootChild>)
    requires j < |cs|
    ensures RootStep(scene, depth, cs[j]).Err? ==> RootSteps(scene, depth, cs[j..], acc).Err?
    ensures RootStep(scene, depth, cs[j]).Ok? ==>
              RootSteps(scene, depth, cs[j..], acc)
              == RootSteps(scene, depth, cs[j + 1..], acc + RootStep(scene, depth, cs[j]).value)
  {
    assert cs[j..][0] == cs[j] && cs[j..][1..] == cs[j + 1..];
  }
}
