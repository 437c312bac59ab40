/** The node class of tp3/MyNode.js and tp2/MyNode.js. Its constructor
    stores the fields and runs `createChildren`, which updates `transforms`,
    `material`, the shadow flags and `children` entry by entry; each method
    is proved to leave the node as the matching function of `SceneNodes`
    describes. */
module NodeBuilder {
  import opened Wrappers
  import opened JsonValue
  import opened JsObjects
  import opened JsSemantics
  import opened Lights
  import opened NodeTransforms
  import opened SceneNodes

  class SceneNode {
    const variant: Variant
    const name: Option<Json>
    const scene: Json
    var material: Option<Json>
    var castShadows: Json
    var receiveShadows: Json
    var transforms: Transforms
    var children: seq<Child>

    /** The node's fields as a value. */
    function Value(): NodeValue
      reads this
    {
      NodeValue(name, material, castShadows, receiveShadows, transforms, children)
    }

    /** The field initialisation of the constructor, before it calls
        `createChildren`. */
    constructor(variant: Variant, name: Option<Json>, scene: Json, material: Option<Json>,
                castShadows: Json, receiveShadows: Json)
      ensures this.variant == variant && this.scene == scene
      ensures Value() == NodeValue(name, material, castShadows, receiveShadows, NoTransforms, [])
    {
      this.variant := variant;
      this.name := name;
      this.scene := scene;
      this.material := material;
      this.castShadows := castShadows;
      this.receiveShadows := receiveShadows;
      transforms := NoTransforms;
      children := [];
    }

    /** `createTransforms(value)`: only `transforms` changes. */
    method CreateTransforms(value: Json) returns (o: Outcome)
      modifies this`transforms
      ensures o.Pass? <==> NodeTransforms.CreateTransforms(old(transforms), value).Ok?
      ensures o.Pass? ==> transforms == NodeTransforms.CreateTransforms(old(transforms), value).value
    {
      if !(value.JArray? || value.JStr?) {
        return Fail("TypeError: value is not iterable");
      }
      var tvs := ForOf(Some(value)).value;
      assert NodeTransforms.CreateTransforms(transforms, value) == TransformSteps(transforms, tvs);
      o := ApplyTransforms(tvs);
    }

    /** The `for ... of` loop of `createTransforms` over the entries `tvs`:
        it stops at the first entry that throws. */
    method ApplyTransforms(tvs: seq<Json>) returns (o: Outcome)
      modifies this`transforms
      ensures o.Pass? <==> TransformSteps(old(transforms), tvs).Ok?
      ensures o.Pass? ==> transforms == TransformSteps(old(transforms), tvs).value
    {
      ghost var t0 := transforms;
      var i := 0;
      while i < |tvs|
        invariant 0 <= i <= |tvs|
        invariant TransformSteps(transforms, tvs[i..]) == TransformSteps(t0, tvs)
      {
        StepsFrom(transforms, tvs, i);
        o := ApplyTransform(tvs[i]);
        if o.Fail? {
          return;
        }
        i := i + 1;
      }
      assert tvs[i..] == [];
      return Pass;
    }

    /** One iteration of `createTransforms`: the entry `tv`. */
    method ApplyTransform(tv: Json) returns (o: Outcome)
      modifies this`transforms
      ensures o.Pass? <==> TransformStep(old(transforms), tv).Ok?
      ensures o.Pass? ==> transforms == TransformStep(old(transforms), tv).value
    {
      if tv == JNull {
        return Fail("TypeError: cannot read property 'type' of null");
      }
      var kind := KindOf(tv);
      if kind.Some? {
        var amount := Get(tv, "amount");
        if IsNullish(amount) {
          return Fail("TypeError: cannot read property 'x' of null or undefined");
        }
        var vec := Some(Vec3Of(amount.value));
        if kind.value == "translate" {
          transforms := transforms.(translate := vec);
        } else if kind.value == "rotate" {
          transforms := transforms.(rotate := vec);
        } else {
          transforms := transforms.(scale := vec);
        }
      }
      return Pass;
    }

    /** `createChildren()`, with room for `depth` further nested nodes on
        the call stack: the node's fields become what `Built` gives for the
        fields it had before, or the call throws exactly when `Built` is an
        error. */
    method CreateChildren(depth: nat) returns (o: Outcome)
      modifies this
      decreases depth, 4, 0
      ensures o.Pass? <==> Built(variant, scene, depth, old(Value())).Ok?
      ensures o.Pass? ==> Value() == Built(variant, scene, depth, old(Value())).value
    {
      var node := NodeOf(scene, name);
      if IsNullish(node) {
        return Fail("TypeError: cannot convert undefined or null to object");
      }
      o := ApplyEntries(depth, Entries(node).value);
    }

    /** The loop of `createChildren` over the entries `es` of the node's
        definition. */
    method ApplyEntries(depth: nat, es: seq<(string, Json)>) returns (o: Outcome)
      modifies this
      decreases depth, 3, 1
      ensures o.Pass? <==> NodeSteps(variant, scene, depth, es, old(Value())).Ok?
      ensures o.Pass? ==> Value() == NodeSteps(variant, scene, depth, es, old(Value())).value
    {
      ghost var s0 := Value();
      var i := 0;
      while i < |es|
        invariant 0 <= i <= |es|
        invariant NodeSteps(variant, scene, depth, es[i..], Value()) == NodeSteps(variant, scene, depth, es, s0)
      {
        NodeStepsFrom(variant, scene, depth, es, i, Value());
        o := ApplyEntry(depth, es[i]);
        if o.Fail? {
          return;
        }
        i := i + 1;
      }
      return Pass;
    }

    /** One iteration of `createChildren`: the entry `e` of the node's
        definition. */
    method ApplyEntry(depth: nat, e: (string, Json)) returns (o: Outcome)
      modifies this
      decreases depth, 3, 0
      ensures o.Pass? <==> NodeStep(variant, scene, depth, e, old(Value())).Ok?
      ensures o.Pass? ==> Value() == NodeStep(variant, scene, depth, e, old(Value())).value
    {
      var (key, value) := e;
      if key == "children" {
        if value == JNull {
          return Fail("TypeError: cannot convert undefined or null to object");
        }
        o := AddChildren(depth, Entries(Some(value)).value);
      } else {
        o := SetField(key, value);
      }
    }

    /** An entry other than `children`, which changes one field. */
    method SetField(key: string, value: Json) returns (o: Outcome)
      modifies this`material, this`castShadows, this`receiveShadows, this`transforms
      ensures o.Pass? <==> FieldStep(variant, (key, value), old(Value())).Ok?
      ensures o.Pass? ==> Value() == FieldStep(variant, (key, value), old(Value())).value
    {
      if key == "transforms" {
        o := CreateTransforms(value);
      } else if key == "materialref" {
        if value == JNull {
          return Fail("TypeError: cannot read property 'materialId' of null");
        }
        material := Get(value, "materialId");
        o := Pass;
      } else if variant == Tp3 && key == "castshadows" && Truthy(Some(value)) {
        castShadows := value;
        o := Pass;
      } else if variant == Tp3 && key == "receiveshadows" && Truthy(Some(value)) {
        receiveShadows := value;
        o := Pass;
      } else {
        o := Pass;
      }
    }

    /** The loop over the entries of a `children` object, with its
        `primitiveCount` starting at 0. */
    method AddChildren(depth: nat, cs: seq<(string, Json)>) returns (o: Outcome)
      modifies this
      decreases depth, 2
      ensures o.Pass? <==> ChildSteps(variant, scene, depth, cs, old(Value()), 0).Ok?
      ensures o.Pass? ==> Value() == ChildSteps(variant, scene, depth, cs, old(Value()), 0).value.node
    {
      ghost var goal := ChildSteps(variant, scene, depth, cs, Value(), 0);
      var primitiveCount := 0;
      var j := 0;
      while j < |cs|
        invariant 0 <= j <= |cs|
        invariant ChildSteps(variant, scene, depth, cs[j..], Value(), primitiveCount) == goal
      {
        ChildStepsFrom(variant, scene, depth, cs, j, Value(), primitiveCount);
        o, primitiveCount := AddChild(depth, cs[j], primitiveCount);
        if o.Fail? {
          return;
        }
        j := j + 1;
      }
      return Pass;
    }

    /** One entry `c` of a `children` object, `count` primitives having
        been met before it. */
    method AddChild(depth: nat, c: (string, Json), count: nat) returns (o: Outcome, counted: nat)
      modifies this
      decreases depth, 1
      ensures o.Pass? <==> ChildStep(variant, scene, depth, c, old(Value()), count).Ok?
      ensures o.Pass? ==>
                Progress(Value(), counted) == ChildStep(variant, scene, depth, c, old(Value()), count).value
    {
      var (key, valueAttr) := c;
      counted := count;
      if valueAttr == JNull {
        return Fail("TypeError: cannot read property 'type' of null"), counted;
      }
      var ty := Get(valueAttr, "type");
      if PrimitiveOf(ty).Some? {
        counted := counted + 1;
        if counted > 1 {
          return Pass, counted;
        }
      }
      if key == ListKey(variant) {
        o := AddListed(depth, ForInValues(Some(valueAttr)));
      } else {
        o := Attach(key, valueAttr);
      }
    }

    /** `Attach`: a light entry adds its light; otherwise the class
        `PRIMITIVE_CLASSES[type]` finds decides. */
    method Attach(key: string, entry: Json) returns (o: Outcome)
      modifies this`children
      ensures o.Pass? <==> SceneNodes.Attach(variant, key, entry, old(Value())).Ok?
      ensures o.Pass? ==> Value() == SceneNodes.Attach(variant, key, entry, old(Value())).value
    {
      var ty := Get(entry, "type");
      if ty == Some(JStr("pointlight")) {
        var light := if variant == Tp3 then PointLightOf(JStr(key), Some(entry)) else PointLightOf(entry, None);
        if light.Err? {
          return Fail(light.error);
        }
        children := children + [PointLightChild(light.value)];
      } else if variant == Tp3 && ty == Some(JStr("spotlight")) {
        var light := SpotLightOf(JStr(key), Some(entry));
        if light.Err? {
          return Fail(light.error);
        }
        children := children + [SpotLightChild(light.value)];
      } else if variant == Tp3 && ty == Some(JStr("directionallight")) {
        var light := DirectionalLightOf(JStr(key), Some(entry));
        if light.Err? {
          return Fail(light.error);
        }
        children := children + [DirectionalLightChild(light.value)];
      } else {
        o := AttachClass(entry);
        return;
      }
      return Pass;
    }

    /** The last branch of `Attach`: an entry that is not a light is decided
        by the class `PRIMITIVE_CLASSES[type]` finds. */
    method AttachClass(entry: Json) returns (o: Outcome)
      modifies this`children
      ensures o.Pass? <==> ByClass(variant, entry, old(Value())).Ok?
      ensures o.Pass? ==> Value() == ByClass(variant, entry, old(Value())).value
    {
      var found := ClassOf(Get(entry, "type"));
      if found.PrimitiveClass? {
        var corners := ReadCorners(entry, CornersOf(variant, found.kind));
        if corners.Fail? {
          return Fail(corners.error);
        }
        var shadows := if variant == Tp3 then Some((castShadows, receiveShadows)) else None;
        children := children + [PrimitiveChild(found.kind, entry, material, shadows)];
      } else if found.ObjectClass? {
        children := children + [ObjectChild(entry)];
      } else if found.NotConstructor? {
        return Fail("TypeError: PRIMITIVE_CLASSES[valueAttr.type] is not a constructor");
      }
      return Pass;
    }

    /** The loop over a node list: each name becomes a nested node, which
        needs room on the call stack. */
    method AddListed(depth: nat, names: seq<Json>) returns (o: Outcome)
      modifies this
      decreases depth, 0
      ensures o.Pass? <==> ListedNodes(variant, scene, depth, names, old(Value())).Ok?
      ensures o.Pass? ==> Value() == ListedNodes(variant, scene, depth, names, old(Value())).value
    {
      ghost var goal := ListedNodes(variant, scene, depth, names, Value());
      var k := 0;
      while k < |names|
        invariant 0 <= k <= |names|
        invariant ListedNodes(variant, scene, depth, names[k..], Value()) == goal
      {
        if depth == 0 {
          return Fail(StackOverflow);
        }
        ListedFrom(variant, scene, depth, names, k, Value());
        var child := new SceneNode(variant, Some(names[k]), scene, material, castShadows, receiveShadows);
        assert BuildNode(variant, scene, depth - 1, Some(names[k]), material, castShadows, receiveShadows)
            == Built(variant, scene, depth - 1, child.Value());
        o := child.CreateChildren(depth - 1);
        if o.Fail? {
          return;
        }
        children := children + [NodeChild(child.Value())];
        k := k + 1;
      }
      return Pass;
    }
  }
}
