/** The scene-graph node of tp3/MyNode.js and its older version,
    tp2/MyNode.js. A node is named by a key of the scene document; its
    constructor walks the entries of `scene[name]` in order: `transforms`
    sets the transform vectors, `materialref` replaces the inherited
    material, `castshadows`/`receiveshadows` (tp3 only) set a shadow flag
    when truthy, and `children` adds one child per recognised entry:
    every name of a node list becomes a nested node, a light entry a light,
    and an entry whose type `PRIMITIVE_CLASSES` knows the object of that
    class; an entry whose type is a primitive string is skipped after the
    first. */
module SceneNodes {
  import opened Wrappers
  import opened JsonValue
  import opened JsObjects
  import opened JsSemantics
  import opened Lights
  import opened NodeTransforms

  /** Which of the two versions of `MyNode` is modelled. */
  datatype Variant = Tp2 | Tp3

  /** The key of a `children` entry listing nested nodes: `nodesList` in
      tp3, `nodeList` in tp2. */
  function ListKey(v: Variant): string
  {
    if v == Tp3 then "nodesList" else "nodeList"
  }

  /** The primitive types both versions support. */
  const Primitives: seq<string> := ["box", "cylinder", "nurbs", "polygon", "rectangle", "sphere", "triangle"]

  /** `PRIMITIVES.includes(type)`: the primitive a `type` value names. */
  function PrimitiveOf(ty: Option<Json>): (p: Option<string>)
    ensures p.Some? ==> p.value in Primitives && ty == Some(JStr(p.value))
    ensures ty.Some? && ty.value.JStr? && ty.value.str in Primitives ==> p.Some?
  {
    match ty
    case Some(JStr(s)) => if s in Primitives then Some(s) else None
    case _ => None
  }

  /** What `PRIMITIVE_CLASSES[type]` finds. The table is an object
      literal, so a key it lacks is looked up on `Object.prototype`:
      `constructor` finds `Object`, every other inherited member is not a
      constructor. */
  datatype ClassFound = PrimitiveClass(kind: string) | ObjectClass | NotConstructor | NoClass

  /** `PRIMITIVE_CLASSES[type]`, looked up under the key `String(type)`. A
      key the model does not write out holds a digit, which no primitive
      and no inherited member has. */
  function ClassOf(ty: Option<Json>): (c: ClassFound)
    ensures c.PrimitiveClass? <==> KeyOf(ty).Some? && KeyOf(ty).value in Primitives
    ensures c.PrimitiveClass? ==> KeyOf(ty) == Some(c.kind)
    ensures c.ObjectClass? <==> KeyOf(ty) == Some("constructor")
    ensures c.NotConstructor? <==> KeyOf(ty).Some? && KeyOf(ty).value in InheritedMembers && KeyOf(ty).value != "constructor"
    ensures PrimitiveOf(ty).Some? ==> c == PrimitiveClass(PrimitiveOf(ty).value)
  {
    match KeyOf(ty)
    case None => NoClass
    case Some(k) =>
      if k in Primitives then PrimitiveClass(k)
      else if k == "constructor" then ObjectClass
      else if k in InheritedMembers then NotConstructor
      else NoClass
  }

  /** A child of a node, kept as the value it was built with (nothing
      changes a child after it is pushed). A primitive shares its owner's
      `transforms` object, so it carries only its entry, the material and,
      in tp3, the shadow flags current when it was created. An entry whose
      type is `constructor` makes `new Object(entry, ...)`, which is the
      entry itself. */
  datatype Child =
    | NodeChild(node: NodeValue)
    | PointLightChild(point: PointLightConfig)
    | SpotLightChild(spot: SpotLightConfig)
    | DirectionalLightChild(directional: DirectionalLightConfig)
    | PrimitiveChild(kind: string, entry: Json, material: Option<Json>, shadows: Option<(Json, Json)>)
    | ObjectChild(entry: Json)

  /** The fields of a node. The tp2 node has no shadow flags: they stay at
      the `false` it is given and nothing reads them. */
  datatype NodeValue = NodeValue(
    name: Option<Json>, material: Option<Json>, castShadows: Json, receiveShadows: Json,
    transforms: Transforms, children: seq<Child>)

  /** `scene[name]`, the definition of the node called `name`; a name
      whose key the model does not write out reads as absent. */
  function NodeOf(scene: Json, name: Option<Json>): Option<Json>
  {
    if KeyOf(name).Some? then Member(scene, KeyOf(name).value) else None
  }

  /** The error a JavaScript engine throws when its call stack is full. */
  const StackOverflow: string := "RangeError: Maximum call stack size exceeded"

  /** A node while a `children` object is walked, with the number of
      primitive entries met so far in that object (`primitiveCount`). */
  datatype Progress = Progress(node: NodeValue, primitiveCount: nat)

  /** The node with one more child. */
  function Push(s: NodeValue, c: Child): NodeValue
  {
    s.(children := s.children + [c])
  }

  /** `new MyNode(name, scene, material, castshadows, receiveshadows)` (tp3)
      or `new MyNode(name, scene, material)` (tp2): the node, or the error
      its constructor throws. `depth` is the number of further nested
      `MyNode` constructions the engine's call stack has room for. */
  function BuildNode(v: Variant, scene: Json, depth: nat, name: Option<Json>,
                     material: Option<Json>, castShadows: Json, receiveShadows: Json): Result<NodeValue>
    decreases depth, 7, 0
  {
    Built(v, scene, depth, NodeValue(name, material, castShadows, receiveShadows, NoTransforms, []))
  }

  /** `createChildren()` run on a node whose fields are `s`. */
  function Built(v: Variant, scene: Json, depth: nat, s: NodeValue): Result<NodeValue>
    decreases depth, 6, 0
  {
    match Entries(NodeOf(scene, s.name))
    case Err(m) => Err(m)
    case Ok(es) => NodeSteps(v, scene, depth, es, s)
  }

  /** The loop of `createChildren` over the entries `es` from the node
      `s`, stopping at the first throw. */
  function NodeSteps(v: Variant, scene: Json, depth: nat, es: seq<(string, Json)>, s: NodeValue): Result<NodeValue>
    decreases depth, 5, |es|
  {
    if es == [] then Ok(s)
    else
      match NodeStep(v, scene, depth, es[0], s)
      case Err(m) => Err(m)
      case Ok(t) => NodeSteps(v, scene, depth, es[1..], t)
  }

  /** The loop of `createChildren` from entry `i` on: it throws when entry
      `i` does, and otherwise goes on from the node that entry leaves. */
  lemma NodeStepsFrom(v: Variant, scene: Json, depth: nat, es: seq<(string, Json)>, i: nat, s: NodeValue)
    requires i < |es|
    ensures NodeStep(v, scene, depth, es[i], s).Err? ==> NodeSteps(v, scene, depth, es[i..], s).Err?
    ensures NodeStep(v, scene, depth, es[i], s).Ok? ==>
              NodeSteps(v, scene, depth, es[i..], s)
              == NodeSteps(v, scene, depth, es[i + 1..], NodeStep(v, scene, depth, es[i], s).value)
  {
    assert es[i..][0] == es[i] && es[i..][1..] == es[i + 1..];
  }

  /** One entry of a node definition: `children` walks its own entries,
      any other key is handled by `FieldStep` (the keys of the chain in
      `createChildren` are distinct, so testing `children` first changes
      nothing). */
  function NodeStep(v: Variant, scene: Json, depth: nat, e: (string, Json), s: NodeValue): Result<NodeValue>
    decreases depth, 4, 1
  {
    if e.0 == "children" then ChildrenEntry(v, scene, depth, e.1, s)
    else FieldStep(v, e, s)
  }

  /** An entry other than `children`: `transforms` runs `createTransforms`,
      `materialref` replaces the material with its `materialId`, a truthy
      `castshadows` or `receiveshadows` (tp3 only) sets that flag, and
      anything else is ignored. */
  function FieldStep(v: Variant, e: (string, Json), s: NodeValue): Result<NodeValue>
  {
    if e.0 == "transforms" then
      match CreateTransforms(s.transforms, e.1)
      case Err(m) => Err(m)
      case Ok(t) => Ok(s.(transforms := t))
    else if e.0 == "materialref" then
      if e.1 == JNull then Err("TypeError: cannot read property 'materialId' of null")
      else Ok(s.(material := Get(e.1, "materialId")))
    else if v == Tp3 && e.0 == "castshadows" && Truthy(Some(e.1)) then Ok(s.(castShadows := e.1))
    else if v == Tp3 && e.0 == "receiveshadows" && Truthy(Some(e.1)) then Ok(s.(receiveShadows := e.1))
    else Ok(s)
  }

  /** The `children` entry with value `value`: `Object.entries` throws on
      null, and the loop over its entries starts with `primitiveCount`
      at 0. */
  function ChildrenEntry(v: Variant, scene: Json, depth: nat, value: Json, s: NodeValue): Result<NodeValue>
    decreases depth, 4, 0
  {
    match Entries(Some(value))
    case Err(m) => Err(m)
    case Ok(cs) =>
      match ChildSteps(v, scene, depth, cs, s, 0)
      case Err(m) => Err(m)
      case Ok(p) => Ok(p.node)
  }

  /** The loop over the entries `cs` of a `children` object, with the
      number of primitive entries met so far (`primitiveCount`). */
  function ChildSteps(v: Variant, scene: Json, depth: nat, cs: seq<(string, Json)>, s: NodeValue, count: nat)
    : Result<Progress>
    decreases depth, 3, |cs|
  {
    if cs == [] then Ok(Progress(s, count))
    else
      match ChildStep(v, scene, depth, cs[0], s, count)
      case Err(m) => Err(m)
      case Ok(p) => ChildSteps(v, scene, depth, cs[1..], p.node, p.primitiveCount)
  }

  /** The loop over a `children` object from entry `j` on. */
  lemma ChildStepsFrom(v: Variant, scene: Json, depth: nat, cs: seq<(string, Json)>, j: nat, s: NodeValue, count: nat)
    requires j < |cs|
    ensures ChildStep(v, scene, depth, cs[j], s, count).Err? ==>
              ChildSteps(v, scene, depth, cs[j..], s, count).Err?
    ensures ChildStep(v, scene, depth, cs[j], s, count).Ok? ==>
              var p := ChildStep(v, scene, depth, cs[j], s, count).value;
              ChildSteps(v, scene, depth, cs[j..], s, count)
              == ChildSteps(v, scene, depth, cs[j + 1..], p.node, p.primitiveCount)
  {
    assert cs[j..][0] == cs[j] && cs[j..][1..] == cs[j + 1..];
  }

  /** One entry of a `children` object: `type` is read first (throwing on
      null), an entry whose type is one of the primitive strings is counted
      and skipped after the first, the node list adds its nodes, and any
      other entry goes to `Attach`. */
  function ChildStep(v: Variant, scene: Json, depth: nat, c: (string, Json), s: NodeValue, count: nat)
    : Result<Progress>
    decreases depth, 2, 0
  {
    if c.1 == JNull then Err("TypeError: cannot read property 'type' of null")
    else
      var ty := Get(c.1, "type");
      var counted := if PrimitiveOf(ty).Some? then count + 1 else count;
      if PrimitiveOf(ty).Some? && counted > 1 then Ok(Progress(s, counted))
      else if c.0 == ListKey(v) then
        match ListedNodes(v, scene, depth, ForInValues(Some(c.1)), s)
        case Err(m) => Err(m)
        case Ok(t) => Ok(Progress(t, counted))
      else
        match Attach(v, c.0, c.1, s)
        case Err(m) => Err(m)
        case Ok(t) => Ok(Progress(t, counted))
  }

  /** The shadow flags a tp3 primitive records; tp2 records none. */
  function ShadowsOf(v: Variant, s: NodeValue): Option<(Json, Json)>
  {
    if v == Tp3 then Some((s.castShadows, s.receiveShadows)) else None
  }

  /** A `children` entry that is neither a skipped primitive nor a node
      list: a light entry adds a light (tp2 knows only the point light, and
      calls its constructor with the entry as its only argument); otherwise
      `PRIMITIVE_CLASSES[type]` decides: a primitive class adds a
      primitive unless its constructor throws, `Object` adds the entry itself, another inherited member
      throws, and no class adds nothing. */
  function Attach(v: Variant, key: string, entry: Json, s: NodeValue): Result<NodeValue>
  {
    var ty := Get(entry, "type");
    if ty == Some(JStr("pointlight")) then
      var light := if v == Tp3 then PointLightOf(JStr(key), Some(entry)) else PointLightOf(entry, None);
      match light
      case Err(m) => Err(m)
      case Ok(l) => Ok(Push(s, PointLightChild(l)))
    else if v == Tp3 && ty == Some(JStr("spotlight")) then
      match SpotLightOf(JStr(key), Some(entry))
      case Err(m) => Err(m)
      case Ok(l) => Ok(Push(s, SpotLightChild(l)))
    else if v == Tp3 && ty == Some(JStr("directionallight")) then
      match DirectionalLightOf(JStr(key), Some(entry))
      case Err(m) => Err(m)
      case Ok(l) => Ok(Push(s, DirectionalLightChild(l)))
    else
      ByClass(v, entry, s)
  }

  /** The corners whose `x` a primitive's constructor reads from the
      entry: `MyBox` (tp2 and tp3) reads `xyz1.x` and then `xyz2.x`, the tp2
      `MyRectangle` reads `xy1.x` and then `xy2.x`. The other constructors
      only copy properties of the entry, which never throws. */
  function CornersOf(v: Variant, kind: string): seq<string>
  {
    if kind == "box" then ["xyz1", "xyz2"]
    else if v == Tp2 && kind == "rectangle" then ["xy1", "xy2"]
    else []
  }

  /** Reading `x` of each corner in turn: the first corner that is `null`
      or `undefined` throws a `TypeError`. */
  function ReadCorners(entry: Json, corners: seq<string>): (r: Outcome)
    ensures r.Fail? <==> exists i :: 0 <= i < |corners| && IsNullish(Get(entry, corners[i]))
  {
    if corners == [] then Pass
    else
      match Prop(Get(entry, corners[0]), "x")
      case Err(m) => Fail(m)
      case Ok(_) =>
        var r := ReadCorners(entry, corners[1..]);
        assert forall i :: 0 < i < |corners| ==> corners[1..][i - 1] == corners[i];
        r
  }

  /** The last branch of `Attach`: `new PRIMITIVE_CLASSES[type](...)` for a
      primitive class, which throws when its constructor reads a missing
      corner; the entry itself for `Object`; a `TypeError` for a member that
      is not a constructor; and nothing at all when the type names no
      member. */
  function ByClass(v: Variant, entry: Json, s: NodeValue): Result<NodeValue>
  {
    match ClassOf(Get(entry, "type"))
    case PrimitiveClass(kind) =>
      (match ReadCorners(entry, CornersOf(v, kind))
       case Fail(m) => Err(m)
       case Pass => Ok(Push(s, PrimitiveChild(kind, entry, s.material, ShadowsOf(v, s)))))
    case ObjectClass => Ok(Push(s, ObjectChild(entry)))
    case NotConstructor => Err("TypeError: PRIMITIVE_CLASSES[valueAttr.type] is not a constructor")
    case NoClass => Ok(s)
  }

  /** The loop over a node list: each name becomes a nested node built
      from the same scene with the material and shadow flags current now;
      with no room left on the call stack, the first one throws. */
  function ListedNodes(v: Variant, scene: Json, depth: nat, names: seq<Json>, s: NodeValue): Result<NodeValue>
    decreases depth, 1, |names|
  {
    if names == [] then Ok(s)
    else if depth == 0 then Err(StackOverflow)
    else
      match BuildNode(v, scene, depth - 1, Some(names[0]), s.material, s.castShadows, s.receiveShadows)
      case Err(m) => Err(m)
      case Ok(n) => ListedNodes(v, scene, depth, names[1..], Push(s, NodeChild(n)))
  }

  /** The loop over a node list from name `k` on, with room on the call
      stack. */
  lemma ListedFrom(v: Variant, scene: Json, depth: nat, names: seq<Json>, k: nat, s: NodeValue)
    requires k < |names| && depth > 0
    ensures BuildNode(v, scene, depth - 1, Some(names[k]), s.material, s.castShadows, s.receiveShadows).Err? ==>
              ListedNodes(v, scene, depth, names[k..], s).Err?
    ensures BuildNode(v, scene, depth - 1, Some(names[k]), s.material, s.castShadows, s.receiveShadows).Ok? ==>
              var n := BuildNode(v, scene, depth - 1, Some(names[k]), s.material, s.castShadows, s.receiveShadows).value;
              ListedNodes(v, scene, depth, names[k..], s)
              == ListedNodes(v, scene, depth, names[k + 1..], Push(s, NodeChild(n)))
  {
    assert names[k..][0] == names[k] && names[k..][1..] == names[k + 1..];
  }
}
