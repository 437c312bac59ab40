/** What building a node guarantees, for both versions of `MyNode`:
    children are only ever appended, in entry order; a node list adds one
    nested node per name, built with the material and shadow flags current
    at that moment, and throws a `RangeError` once the call stack is full;
    a `children` object adds at most one primitive whose `type` is a
    primitive string, that of its first such entry; lights are named by
    their entry key; `PRIMITIVE_CLASSES[type]` is looked up under the key
    `String(type)`, inherited members included; a truthy shadow flag is
    never cleared; the material is the `materialId` of the last
    `materialref` entry. */
module NodeProperties {
  import opened Wrappers
  import opened JsonValue
  import opened JsObjects
  import opened JsSemantics
  import opened Lights
  import opened NodeTransforms
  import opened SceneNodes

  /** A primitive child whose entry's `type` is one of the primitive
      strings: the kind `primitiveCount` counts. */
  predicate Counted(c: Child)
  {
    c.PrimitiveChild? && PrimitiveOf(Get(c.entry, "type")).Some?
  }

  /** The counted primitives among `cs`, in order. */
  function CountedChildren(cs: seq<Child>): (r: seq<Child>)
    ensures |r| <= |cs|
    ensures forall i :: 0 <= i < |r| ==> Counted(r[i]) && r[i] in cs
  {
    if cs == [] then []
    else CountedChildren(cs[..|cs| - 1]) + (if Counted(cs[|cs| - 1]) then [cs[|cs| - 1]] else [])
  }

  /** Appending one child adds it to the counted primitives exactly when it
      is one. */
  lemma CountedPush(cs: seq<Child>, c: Child)
    ensures CountedChildren(cs + [c]) == CountedChildren(cs) + (if Counted(c) then [c] else [])
  {
    assert (cs + [c])[..|cs|] == cs;
  }

  /** `t` is `s` with only its children changed, and those only by
      appending. */
  predicate Appended(s: NodeValue, t: NodeValue)
  {
    t == s.(children := t.children) && s.children <= t.children
  }

  /** A shadow flag only ever changes to a truthy value, so a truthy flag
      stays truthy; tp2 never changes the flags. */
  predicate FlagsKept(v: Variant, s: NodeValue, t: NodeValue)
  {
    && (t.castShadows == s.castShadows || Truthy(Some(t.castShadows)))
    && (t.receiveShadows == s.receiveShadows || Truthy(Some(t.receiveShadows)))
    && (Truthy(Some(s.castShadows)) ==> Truthy(Some(t.castShadows)))
    && (Truthy(Some(s.receiveShadows)) ==> Truthy(Some(t.receiveShadows)))
    && (v == Tp2 ==> t.castShadows == s.castShadows && t.receiveShadows == s.receiveShadows)
  }

  /** The types `Attach` turns into a light in the given version. */
  predicate IsLightType(v: Variant, ty: Option<Json>)
  {
    ty == Some(JStr("pointlight"))
    || (v == Tp3 && (ty == Some(JStr("spotlight")) || ty == Some(JStr("directionallight"))))
  }

  /** The counted primitive an entry adds when `Attach` handles it: one
      exactly when its `type` is a primitive string, built with the
      material and flags current then. */
  function AttachedPrimitive(v: Variant, entry: Json, s: NodeValue): seq<Child>
  {
    var ty := Get(entry, "type");
    if PrimitiveOf(ty).Some? then [PrimitiveChild(PrimitiveOf(ty).value, entry, s.material, ShadowsOf(v, s))]
    else []
  }

  /** A light type's key is not a primitive's name and not an inherited
      member, and a light type is not a primitive string. */
  lemma LightKey(v: Variant, ty: Option<Json>)
    requires IsLightType(v, ty)
    ensures KeyOf(ty).Some? && KeyOf(ty).value !in Primitives && KeyOf(ty).value !in InheritedMembers
    ensures PrimitiveOf(ty).None?
  {
  }

  /** A light entry that does not throw appends one child, which is not a
      primitive. */
  lemma AttachLightChild(v: Variant, key: string, entry: Json, s: NodeValue)
    requires IsLightType(v, Get(entry, "type")) && Attach(v, key, entry, s).Ok?
    ensures var t := Attach(v, key, entry, s).value;
      && |t.children| == |s.children| + 1
      && t == Push(s, t.children[|s.children|])
      && !t.children[|s.children|].PrimitiveChild?
  {
  }

  /** Any other entry is decided by `PRIMITIVE_CLASSES[type]`. */
  lemma AttachByClass(v: Variant, key: string, entry: Json, s: NodeValue)
    requires !IsLightType(v, Get(entry, "type"))
    ensures Attach(v, key, entry, s) == ByClass(v, entry, s)
  {
  }

  /** `Attach` appends at most one child; it adds a counted primitive
      exactly when the entry's type is a primitive string. */
  lemma AttachAppends(v: Variant, key: string, entry: Json, s: NodeValue)
    requires Attach(v, key, entry, s).Ok?
    ensures var t := Attach(v, key, entry, s).value;
      && Appended(s, t)
      && |t.children| <= |s.children| + 1
      && CountedChildren(t.children) == CountedChildren(s.children) + AttachedPrimitive(v, entry, s)
  {
    var ty := Get(entry, "type");
    var t := Attach(v, key, entry, s).value;
    if IsLightType(v, ty) {
      LightKey(v, ty);
      AttachLightChild(v, key, entry, s);
      CountedPush(s.children, t.children[|s.children|]);
    } else {
      AttachByClass(v, key, entry, s);
      ByClassAppends(v, entry, s);
    }
  }

  /** The same for the last branch of `Attach`. */
  lemma ByClassAppends(v: Variant, entry: Json, s: NodeValue)
    requires ByClass(v, entry, s).Ok?
    ensures var t := ByClass(v, entry, s).value;
      && Appended(s, t)
      && |t.children| <= |s.children| + 1
      && CountedChildren(t.children) == CountedChildren(s.children) + AttachedPrimitive(v, entry, s)
  {
    match ClassOf(Get(entry, "type"))
    case PrimitiveClass(kind) =>
      assert ReadCorners(entry, CornersOf(v, kind)).Pass?;
      CountedPush(s.children, PrimitiveChild(kind, entry, s.material, ShadowsOf(v, s)));
    case ObjectClass =>
      CountedPush(s.children, ObjectChild(entry));
    case NoClass =>
  }

  /** An entry whose type is neither a light of this version nor a key
      `PRIMITIVE_CLASSES` has, own or inherited, adds no child. */
  lemma UnknownTypeIgnored(v: Variant, key: string, entry: Json, s: NodeValue)
    requires !IsLightType(v, Get(entry, "type"))
    requires KeyOf(Get(entry, "type")).None?
             || (KeyOf(Get(entry, "type")).value !in Primitives
                 && KeyOf(Get(entry, "type")).value !in InheritedMembers)
    ensures Attach(v, key, entry, s) == Ok(s)
  {
    AttachByClass(v, key, entry, s);
  }

  /** A type whose key is `constructor` finds `Object`, and
      `new Object(entry, ...)` is the entry itself. */
  lemma ObjectTypeKept(v: Variant, key: string, entry: Json, s: NodeValue)
    requires KeyOf(Get(entry, "type")) == Some("constructor")
    ensures Attach(v, key, entry, s) == Ok(Push(s, ObjectChild(entry)))
  {
    if IsLightType(v, Get(entry, "type")) {
      LightKey(v, Get(entry, "type"));
    }
    AttachByClass(v, key, entry, s);
  }

  /** A type whose key names another inherited member (`toString`,
      `__proto__`, ...) finds something that is not a constructor, and
      `new` throws. */
  lemma InheritedMemberThrows(v: Variant, key: string, entry: Json, s: NodeValue)
    requires KeyOf(Get(entry, "type")).Some?
    requires KeyOf(Get(entry, "type")).value in InheritedMembers
    requires KeyOf(Get(entry, "type")).value != "constructor"
    ensures Attach(v, key, entry, s).Err?
  {
    if IsLightType(v, Get(entry, "type")) {
      LightKey(v, Get(entry, "type"));
    }
    AttachByClass(v, key, entry, s);
  }

  /** In tp3 a light entry becomes a light of the matching kind, named by
      the entry's key and resolved from the entry; it throws exactly when
      the light's constructor does. */
  lemma LightNamedByKey(key: string, entry: Json, s: NodeValue)
    ensures Get(entry, "type") == Some(JStr("pointlight")) ==>
              match PointLightOf(JStr(key), Some(entry))
              case Err(m) => Attach(Tp3, key, entry, s) == Err(m)
              case Ok(l) => l.name == JStr(key) && Attach(Tp3, key, entry, s) == Ok(Push(s, PointLightChild(l)))
    ensures Get(entry, "type") == Some(JStr("spotlight")) ==>
              match SpotLightOf(JStr(key), Some(entry))
              case Err(m) => Attach(Tp3, key, entry, s) == Err(m)
              case Ok(l) => l.name == JStr(key) && Attach(Tp3, key, entry, s) == Ok(Push(s, SpotLightChild(l)))
    ensures Get(entry, "type") == Some(JStr("directionallight")) ==>
              match DirectionalLightOf(JStr(key), Some(entry))
              case Err(m) => Attach(Tp3, key, entry, s) == Err(m)
              case Ok(l) => l.name == JStr(key) && Attach(Tp3, key, entry, s) == Ok(Push(s, DirectionalLightChild(l)))
  {
  }

  /** tp2 passes the entry as the only argument of the point light's
      constructor, which then reads properties of `undefined`: a
      `pointlight` entry always throws. */
  lemma Tp2PointLightThrows(key: string, entry: Json, s: NodeValue)
    requires Get(entry, "type") == Some(JStr("pointlight"))
    ensures Attach(Tp2, key, entry, s).Err?
  {
  }

  /** A type whose key is a primitive's name adds that primitive, with the
      material and, in tp3, the shadow flags current when it is met, unless
      the primitive's constructor throws reading a corner. */
  lemma PrimitiveTakesCurrent(v: Variant, key: string, entry: Json, s: NodeValue)
    requires KeyOf(Get(entry, "type")).Some? && KeyOf(Get(entry, "type")).value in Primitives
    ensures var kind := KeyOf(Get(entry, "type")).value;
      Attach(v, key, entry, s)
      == match ReadCorners(entry, CornersOf(v, kind))
         case Fail(m) => Err(m)
         case Pass => Ok(Push(s, PrimitiveChild(kind, entry, s.material, ShadowsOf(v, s))))
  {
    if IsLightType(v, Get(entry, "type")) {
      LightKey(v, Get(entry, "type"));
    }
    AttachByClass(v, key, entry, s);
  }

  /** The primitive constructors that throw: a box whose `xyz1` or `xyz2`
      is `null` or `undefined`, and a tp2 rectangle whose `xy1` or `xy2` is;
      every other primitive is always built. */
  lemma PrimitiveThrows(v: Variant, key: string, entry: Json, s: NodeValue)
    requires KeyOf(Get(entry, "type")).Some? && KeyOf(Get(entry, "type")).value in Primitives
    ensures var kind := KeyOf(Get(entry, "type")).value;
      Attach(v, key, entry, s).Err? <==>
        (kind == "box" && (IsNullish(Get(entry, "xyz1")) || IsNullish(Get(entry, "xyz2"))))
        || (v == Tp2 && kind == "rectangle" && (IsNullish(Get(entry, "xy1")) || IsNullish(Get(entry, "xy2"))))
  {
    var kind := KeyOf(Get(entry, "type")).value;
    PrimitiveTakesCurrent(v, key, entry, s);
    var corners := CornersOf(v, kind);
    if corners != [] {
      assert IsNullish(Get(entry, corners[0])) ==> ReadCorners(entry, corners).Fail?;
      assert IsNullish(Get(entry, corners[1])) ==> ReadCorners(entry, corners).Fail?;
    }
  }

  /** The entry `{"type": ["cylinder"]}`: `includes` does not find the
      array, so `primitiveCount` does not count it, but its key is
      `cylinder`, so it adds a cylinder even after a first primitive. */
  lemma ArrayTypeNotCounted(v: Variant, scene: Json, depth: nat, key: string, s: NodeValue, count: nat)
    requires key != ListKey(v)
    ensures var entry := JObject([("type", JArray([JStr("cylinder")]))]);
      && PrimitiveOf(Get(entry, "type")).None?
      && ChildStep(v, scene, depth, (key, entry), s, count)
         == Ok(Progress(Push(s, PrimitiveChild("cylinder", entry, s.material, ShadowsOf(v, s))), count))
  {
    var entry := JObject([("type", JArray([JStr("cylinder")]))]);
    assert Get(entry, "type") == Some(JArray([JStr("cylinder")]));
    SingletonKey(JArray([JStr("cylinder")]));
  }

  /** After a first primitive, an entry whose type is a primitive string
      is counted and skipped, even under the node-list key. */
  lemma PrimitiveSkipped(v: Variant, scene: Json, depth: nat, c: (string, Json), s: NodeValue, count: nat)
    requires count >= 1 && c.1 != JNull && PrimitiveOf(Get(c.1, "type")).Some?
    ensures ChildStep(v, scene, depth, c, s, count) == Ok(Progress(s, count + 1))
  {
  }

  /** A node list throws exactly when there is no room left on the call
      stack or building one of its nodes throws. */
  lemma {:induction false} ListedOk(v: Variant, scene: Json, depth: nat, names: seq<Json>, s: NodeValue)
    ensures ListedNodes(v, scene, depth, names, s).Ok? <==>
              names == [] ||
              (depth > 0 &&
               forall i :: 0 <= i < |names| ==>
                 BuildNode(v, scene, depth - 1, Some(names[i]), s.material, s.castShadows, s.receiveShadows).Ok?)
    ensures names != [] && depth == 0 ==> ListedNodes(v, scene, depth, names, s) == Err(StackOverflow)
    decreases |names|
  {
    if names != [] && depth > 0 {
      var b := BuildNode(v, scene, depth - 1, Some(names[0]), s.material, s.castShadows, s.receiveShadows);
      if b.Ok? {
        ListedOk(v, scene, depth, names[1..], Push(s, NodeChild(b.value)));
        assert forall i :: 0 < i < |names| ==> names[1..][i - 1] == names[i];
      }
    }
  }

  /** A node list appends one child per name, and no primitive. */
  lemma {:induction false} ListedAppends(v: Variant, scene: Json, depth: nat, names: seq<Json>, s: NodeValue)
    requires ListedNodes(v, scene, depth, names, s).Ok?
    ensures var t := ListedNodes(v, scene, depth, names, s).value;
      && Appended(s, t)
      && |t.children| == |s.children| + |names|
      && CountedChildren(t.children) == CountedChildren(s.children)
    decreases |names|
  {
    if names != [] {
      var b := BuildNode(v, scene, depth - 1, Some(names[0]), s.material, s.castShadows, s.receiveShadows);
      CountedPush(s.children, NodeChild(b.value));
      ListedAppends(v, scene, depth, names[1..], Push(s, NodeChild(b.value)));
    }
  }

  /** The first name of a node list: its node is built, appended, and the
      rest of the list runs from there. */
  lemma ListedHead(v: Variant, scene: Json, depth: nat, names: seq<Json>, s: NodeValue)
    requires names != [] && ListedNodes(v, scene, depth, names, s).Ok?
    ensures depth > 0
    ensures var b := BuildNode(v, scene, depth - 1, Some(names[0]), s.material, s.castShadows, s.receiveShadows);
      && b.Ok?
      && ListedNodes(v, scene, depth, names[1..], Push(s, NodeChild(b.value)))
         == ListedNodes(v, scene, depth, names, s)
  {
  }

  /** The child a node list appends for its `i`-th name is that name built
      as a nested node from the same scene with the material and flags of
      the node, at position `i` after the children already there. */
  lemma {:induction false} ListedChild(v: Variant, scene: Json, depth: nat, names: seq<Json>, s: NodeValue, i: nat)
    requires ListedNodes(v, scene, depth, names, s).Ok? && i < |names|
    ensures depth > 0
    ensures var b := BuildNode(v, scene, depth - 1, Some(names[i]), s.material, s.castShadows, s.receiveShadows);
      var t := ListedNodes(v, scene, depth, names, s).value;
      && b.Ok?
      && |s.children| + i < |t.children|
      && t.children[|s.children| + i] == NodeChild(b.value)
    decreases i
  {
    if i == 0 {
      ListedFirst(v, scene, depth, names, s);
    } else {
      ListedHead(v, scene, depth, names, s);
      var b := BuildNode(v, scene, depth - 1, Some(names[0]), s.material, s.castShadows, s.receiveShadows);
      var p := Push(s, NodeChild(b.value));
      assert p.material == s.material && p.castShadows == s.castShadows && p.receiveShadows == s.receiveShadows;
      assert |p.children| == |s.children| + 1;
      assert names[1..][i - 1] == names[i];
      ListedChild(v, scene, depth, names[1..], p, i - 1);
    }
  }

  /** The first child a node list appends is its first name's node. */
  lemma ListedFirst(v: Variant, scene: Json, depth: nat, names: seq<Json>, s: NodeValue)
    requires names != [] && ListedNodes(v, scene, depth, names, s).Ok?
    ensures depth > 0
    ensures var b := BuildNode(v, scene, depth - 1, Some(names[0]), s.material, s.castShadows, s.receiveShadows);
      var t := ListedNodes(v, scene, depth, names, s).value;
      && b.Ok?
      && |s.children| < |t.children|
      && t.children[|s.children|] == NodeChild(b.value)
  {
    ListedHead(v, scene, depth, names, s);
    var b := BuildNode(v, scene, depth - 1, Some(names[0]), s.material, s.castShadows, s.receiveShadows);
    ListedAppends(v, scene, depth, names[1..], Push(s, NodeChild(b.value)));
  }

  /** The definition `{"children": {"nodesList": [name]}}`: a tp3 node
      whose only child entry is a node list naming the node itself. */
  function SelfListing(name: string): (d: Json)
    ensures d.JObject? && |d.entries| == 1 && d.entries[0].0 == "children"
  {
    JObject([("children", JObject([("nodesList", JArray([JStr(name)]))]))])
  }

  /** The entries the constructor of such a node walks. */
  lemma SelfDefinitionEntries(scene: Json, name: string)
    requires Member(scene, name) == Some(SelfListing(name))
    ensures Entries(NodeOf(scene, Some(JStr(name)))) == Ok(SelfListing(name).entries)
  {
    NotIndexKey("children");
    OwnEntriesPlain(SelfListing(name).entries);
  }

  /** The entries of its `children` object. */
  lemma SelfListEntries(name: string)
    ensures Entries(Some(SelfListing(name).entries[0].1)) == Ok([("nodesList", JArray([JStr(name)]))])
  {
    NotIndexKey("nodesList");
    OwnEntriesPlain([("nodesList", JArray([JStr(name)]))]);
  }

  /** The names its node list visits: only its own. */
  lemma SelfListValues(name: string)
    ensures ForInValues(Some(JArray([JStr(name)]))) == [JStr(name)]
  {
  }

  /** The node list `[name]` throws when building `name` throws, or when
      the stack has no room left. */
  lemma SelfListed(scene: Json, name: string, depth: nat, s: NodeValue)
    requires depth > 0 ==>
               BuildNode(Tp3, scene, depth - 1, Some(JStr(name)), s.material, s.castShadows, s.receiveShadows)
               == Err(StackOverflow)
    ensures ListedNodes(Tp3, scene, depth, [JStr(name)], s) == Err(StackOverflow)
  {
  }

  /** The constructor of such a node throws what its node list throws. */
  lemma SelfBuilt(scene: Json, name: string, depth: nat, s: NodeValue)
    requires Member(scene, name) == Some(SelfListing(name))
    requires s == NodeValue(Some(JStr(name)), s.material, s.castShadows, s.receiveShadows, NoTransforms, [])
    requires ListedNodes(Tp3, scene, depth, [JStr(name)], s) == Err(StackOverflow)
    ensures BuildNode(Tp3, scene, depth, Some(JStr(name)), s.material, s.castShadows, s.receiveShadows)
            == Err(StackOverflow)
  {
    SelfDefinitionEntries(scene, name);
    SelfListEntries(name);
    SelfListValues(name);
    var list := SelfListing(name).entries[0].1;
    var c := ("nodesList", JArray([JStr(name)]));
    assert Get(c.1, "type").None?;
    assert ChildStep(Tp3, scene, depth, c, s, 0) == Err(StackOverflow);
    assert ChildSteps(Tp3, scene, depth, [c], s, 0) == Err(StackOverflow);
    assert ChildrenEntry(Tp3, scene, depth, list, s) == Err(StackOverflow);
    assert NodeSteps(Tp3, scene, depth, SelfListing(name).entries, s) == Err(StackOverflow);
  }

  /** A node that lists itself in its own node list: the constructor calls
      itself without end, and the engine throws a `RangeError` however
      much room its stack has. */
  lemma {:induction false} SelfReferenceOverflows(scene: Json, name: string, depth: nat, material: Option<Json>,
                                                  castShadows: Json, receiveShadows: Json)
    requires Member(scene, name) == Some(SelfListing(name))
    ensures BuildNode(Tp3, scene, depth, Some(JStr(name)), material, castShadows, receiveShadows) == Err(StackOverflow)
  {
    var s := NodeValue(Some(JStr(name)), material, castShadows, receiveShadows, NoTransforms, []);
    if depth > 0 {
      SelfReferenceOverflows(scene, name, depth - 1, material, castShadows, receiveShadows);
    }
    SelfListed(scene, name, depth, s);
    SelfBuilt(scene, name, depth, s);
  }

  /** The primitive a `children` object's loop adds, walking the entries
      `cs` with `count` primitives met: none once one has been met;
      otherwise the first entry whose type is a primitive string decides,
      adding its primitive unless it is the node list. */
  function FirstPrimitive(v: Variant, cs: seq<(string, Json)>, material: Option<Json>,
                          shadows: Option<(Json, Json)>, count: nat): (r: seq<Child>)
    ensures |r| <= 1
    ensures count >= 1 ==> r == []
  {
    if cs == [] || count >= 1 then []
    else
      var ty := Get(cs[0].1, "type");
      if PrimitiveOf(ty).Some? then
        if cs[0].0 == ListKey(v) then [] else [PrimitiveChild(PrimitiveOf(ty).value, cs[0].1, material, shadows)]
      else FirstPrimitive(v, cs[1..], material, shadows, count)
  }

  /** `FirstPrimitive` is the primitive of the first entry whose type is a
      primitive string, if that entry is not the node list; there is none
      when no entry has such a type. */
  lemma {:induction false} FirstPrimitiveAt(v: Variant, cs: seq<(string, Json)>, material: Option<Json>,
                                            shadows: Option<(Json, Json)>, j: nat)
    requires j <= |cs|
    requires forall i :: 0 <= i < j ==> PrimitiveOf(Get(cs[i].1, "type")).None?
    ensures j == |cs| ==> FirstPrimitive(v, cs, material, shadows, 0) == []
    ensures j < |cs| && PrimitiveOf(Get(cs[j].1, "type")).Some? ==>
              FirstPrimitive(v, cs, material, shadows, 0)
              == if cs[j].0 == ListKey(v) then []
                 else [PrimitiveChild(PrimitiveOf(Get(cs[j].1, "type")).value, cs[j].1, material, shadows)]
    decreases j
  {
    if j > 0 {
      FirstPrimitiveAt(v, cs[1..], material, shadows, j - 1);
    }
  }

  /** `FirstPrimitive` over `cs` splits at its first entry, the count
      going up when that entry's type is a primitive string. */
  lemma FirstPrimitiveCons(v: Variant, cs: seq<(string, Json)>, material: Option<Json>,
                           shadows: Option<(Json, Json)>, count: nat)
    requires cs != []
    ensures FirstPrimitive(v, cs, material, shadows, count)
            == FirstPrimitive(v, [cs[0]], material, shadows, count)
               + FirstPrimitive(v, cs[1..], material, shadows,
                                count + (if PrimitiveOf(Get(cs[0].1, "type")).Some? then 1 else 0))
  {
    assert [cs[0]][1..] == [];
  }

  /** One entry of a `children` object appends children only, counts the
      entry when its type is a primitive string, and adds a counted
      primitive only when it is the first such entry. */
  lemma ChildStepAppends(v: Variant, scene: Json, depth: nat, c: (string, Json), s: NodeValue, count: nat)
    requires ChildStep(v, scene, depth, c, s, count).Ok?
    ensures var p := ChildStep(v, scene, depth, c, s, count).value;
      && Appended(s, p.node)
      && p.primitiveCount == count + (if PrimitiveOf(Get(c.1, "type")).Some? then 1 else 0)
      && CountedChildren(p.node.children)
         == CountedChildren(s.children) + FirstPrimitive(v, [c], s.material, ShadowsOf(v, s), count)
  {
    var ty := Get(c.1, "type");
    var counted := if PrimitiveOf(ty).Some? then count + 1 else count;
    if PrimitiveOf(ty).Some? && counted > 1 {
    } else if c.0 == ListKey(v) {
      ListedAppends(v, scene, depth, ForInValues(Some(c.1)), s);
    } else {
      AttachAppends(v, c.0, c.1, s);
    }
  }

  /** A loop over a non-empty `children` object that does not throw runs
      its first entry, then the rest. */
  lemma ChildStepsCons(v: Variant, scene: Json, depth: nat, cs: seq<(string, Json)>, s: NodeValue, count: nat)
    requires cs != [] && ChildSteps(v, scene, depth, cs, s, count).Ok?
    ensures ChildStep(v, scene, depth, cs[0], s, count).Ok?
    ensures var p := ChildStep(v, scene, depth, cs[0], s, count).value;
      ChildSteps(v, scene, depth, cs, s, count) == ChildSteps(v, scene, depth, cs[1..], p.node, p.primitiveCount)
  {
  }

  /** Two steps that each only append children compose, and so do the
      counted primitives they add. */
  lemma AppendedCompose(s: NodeValue, p: NodeValue, q: NodeValue, f0: seq<Child>, f1: seq<Child>, f: seq<Child>)
    requires Appended(s, p) && Appended(p, q)
    requires CountedChildren(p.children) == CountedChildren(s.children) + f0
    requires CountedChildren(q.children) == CountedChildren(p.children) + f1
    requires f == f0 + f1
    ensures Appended(s, q)
    ensures CountedChildren(q.children) == CountedChildren(s.children) + f
  {
    assert CountedChildren(s.children) + f0 + f1 == CountedChildren(s.children) + (f0 + f1);
  }

  /** The loop over a `children` object appends children only; the counted
      primitives it adds are exactly `FirstPrimitive`, so at most one. */
  lemma {:induction false} ChildStepsAppend(v: Variant, scene: Json, depth: nat, cs: seq<(string, Json)>,
                                            s: NodeValue, count: nat)
    requires ChildSteps(v, scene, depth, cs, s, count).Ok?
    ensures var p := ChildSteps(v, scene, depth, cs, s, count).value;
      && Appended(s, p.node)
      && CountedChildren(p.node.children)
         == CountedChildren(s.children) + FirstPrimitive(v, cs, s.material, ShadowsOf(v, s), count)
    decreases |cs|
  {
    if cs != [] {
      ChildStepsCons(v, scene, depth, cs, s, count);
      var p := ChildStep(v, scene, depth, cs[0], s, count).value;
      ChildStepAppends(v, scene, depth, cs[0], s, count);
      ChildStepsAppend(v, scene, depth, cs[1..], p.node, p.primitiveCount);
      FirstPrimitiveCons(v, cs, s.material, ShadowsOf(v, s), count);
      var q := ChildSteps(v, scene, depth, cs[1..], p.node, p.primitiveCount).value;
      assert p.node.material == s.material && ShadowsOf(v, p.node) == ShadowsOf(v, s);
      var f0 := FirstPrimitive(v, [cs[0]], s.material, ShadowsOf(v, s), count);
      var f1 := FirstPrimitive(v, cs[1..], s.material, ShadowsOf(v, s), p.primitiveCount);
      AppendedCompose(s, p.node, q.node, f0, f1, FirstPrimitive(v, cs, s.material, ShadowsOf(v, s), count));
    }
  }

  /** A `children` entry appends children only, and of the counted
      primitives only the one `FirstPrimitive` names: later primitive
      entries are skipped. */
  lemma OnePrimitivePerObject(v: Variant, scene: Json, depth: nat, value: Json, s: NodeValue)
    requires ChildrenEntry(v, scene, depth, value, s).Ok?
    ensures var t := ChildrenEntry(v, scene, depth, value, s).value;
      && Appended(s, t)
      && CountedChildren(t.children)
         == CountedChildren(s.children)
            + FirstPrimitive(v, Entries(Some(value)).value, s.material, ShadowsOf(v, s), 0)
      && |CountedChildren(t.children)| <= |CountedChildren(s.children)| + 1
  {
    ChildStepsAppend(v, scene, depth, Entries(Some(value)).value, s, 0);
  }

  /** An entry other than `children` keeps the name and the children, keeps
      truthy flags truthy, replaces the material exactly for `materialref`
      and the transforms only for `transforms`. */
  lemma FieldStepEffect(v: Variant, e: (string, Json), s: NodeValue)
    requires FieldStep(v, e, s).Ok?
    ensures var t := FieldStep(v, e, s).value;
      && t.name == s.name && t.children == s.children
      && FlagsKept(v, s, t)
      && t.material == (if e.0 == "materialref" then Get(e.1, "materialId") else s.material)
      && (e.0 != "transforms" ==> t.transforms == s.transforms)
  {
  }

  /** One entry of a node definition: children only grow, flags are kept,
      and the material changes only for `materialref`. */
  lemma NodeStepEffect(v: Variant, scene: Json, depth: nat, e: (string, Json), s: NodeValue)
    requires NodeStep(v, scene, depth, e, s).Ok?
    ensures var t := NodeStep(v, scene, depth, e, s).value;
      && t.name == s.name && s.children <= t.children
      && FlagsKept(v, s, t)
      && t.material == (if e.0 == "materialref" then Get(e.1, "materialId") else s.material)
  {
    if e.0 == "children" {
      OnePrimitivePerObject(v, scene, depth, e.1, s);
    } else {
      FieldStepEffect(v, e, s);
    }
  }

  /** The loop of `createChildren`: children only grow, in order, a truthy
      flag is never cleared, and without a `materialref` entry the material
      is the one the node was given. */
  lemma {:induction false} NodeStepsEffect(v: Variant, scene: Json, depth: nat, es: seq<(string, Json)>, s: NodeValue)
    requires NodeSteps(v, scene, depth, es, s).Ok?
    ensures var t := NodeSteps(v, scene, depth, es, s).value;
      && t.name == s.name && s.children <= t.children
      && FlagsKept(v, s, t)
      && ((forall i :: 0 <= i < |es| ==> es[i].0 != "materialref") ==> t.material == s.material)
    decreases |es|
  {
    if es != [] {
      var u := NodeStep(v, scene, depth, es[0], s).value;
      NodeStepEffect(v, scene, depth, es[0], s);
      NodeStepsEffect(v, scene, depth, es[1..], u);
      assert forall i :: 0 <= i < |es| - 1 ==> es[1..][i] == es[i + 1];
    }
  }

  /** The material of the node is the `materialId` of its last
      `materialref` entry. */
  lemma {:induction false} LastMaterialWins(v: Variant, scene: Json, depth: nat, es: seq<(string, Json)>,
                                            s: NodeValue, j: nat)
    requires NodeSteps(v, scene, depth, es, s).Ok?
    requires j < |es| && es[j].0 == "materialref"
    requires forall l :: j < l < |es| ==> es[l].0 != "materialref"
    ensures NodeSteps(v, scene, depth, es, s).value.material == Get(es[j].1, "materialId")
    decreases |es|
  {
    var u := NodeStep(v, scene, depth, es[0], s).value;
    NodeStepEffect(v, scene, depth, es[0], s);
    if j == 0 {
      NodeStepsEffect(v, scene, depth, es[1..], u);
      assert forall l :: 0 <= l < |es| - 1 ==> es[1..][l] == es[l + 1];
    } else {
      assert es[1..][j - 1] == es[j];
      assert forall l :: j - 1 < l < |es| - 1 ==> es[1..][l] == es[l + 1];
      LastMaterialWins(v, scene, depth, es[1..], u, j - 1);
    }
  }
}
