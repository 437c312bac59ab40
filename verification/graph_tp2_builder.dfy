/** The classes of tp2/MyGraph.js. `NodeObject` is its `MyNode`: the
    constructor stores the fields and runs `createChildren`, which updates
    `transforms`, `material`, `coords` and `children` entry by entry.
    `GraphObject` is `MyGraph`, whose `createChildren` pushes the root's
    nodes and point lights. Each method leaves the object as the matching
    function of `Tp2Graph` describes. */
module Tp2GraphBuilder {
  import opened Wrappers
  import opened JsonValue
  import opened JsSemantics
  import opened NodeTransforms
  import opened Tp2Graph
  import SceneNodes

  class NodeObject {
    const name: string
    const nodeId: Option<Json>
    const scene: Json
    var transforms: Transforms
    var material: Option<Json>
    var coords: Coords
    var children: seq<GraphNode>

    /** The node's fields as a value. */
    function Value(): GraphNode
      reads this
    {
      GraphNode(name, nodeId, material, transforms, coords, children)
    }

    /** The field initialisation of the constructor, before it calls
        `createChildren`; the caller has checked that `value` is not null. */
    constructor(name: string, value: Json, scene: Json)
      ensures this.scene == scene
      ensures Value() == GraphNode(name, Get(value, "nodeId"), Some(JNull), NoTransforms, Coords(None, None), [])
    {
      this.name := name;
      this.nodeId := Get(value, "nodeId");
      this.scene := scene;
      transforms := NoTransforms;
      material := Some(JNull);
      coords := Coords(None, None);
      children := [];
    }

    /** `createTransforms(value)`: only `transforms` changes. */
    method CreateTransforms(value: Json) returns (o: Outcome)
      modifies this`transforms
      ensures o.Pass? <==> NodeTransforms.CreateTransforms(old(transforms), value).Ok?
      ensures o.Pass? ==> transforms == NodeTransforms.CreateTransforms(old(transforms), value).value
    {
      if !(value.JArray? || value.JStr?) {
        return Fail("TypeError: value is not iterable");
      }
      var tvs := ForOf(Some(value)).value;
      assert NodeTransforms.CreateTransforms(transforms, value) == TransformSteps(transforms, tvs);
      o := ApplyTransforms(tvs);
    }

    /** The `for ... of` loop of `createTransforms` over the entries `tvs`:
        it stops at the first entry that throws. */
    method ApplyTransforms(tvs: seq<Json>) returns (o: Outcome)
      modifies this`transforms
      ensures o.Pass? <==> TransformSteps(old(transforms), tvs).Ok?
      ensures o.Pass? ==> transforms == TransformSteps(old(transforms), tvs).value
    {
      ghost var t0 := transforms;
      var i := 0;
      while i < |tvs|
        invariant 0 <= i <= |tvs|
        invariant TransformSteps(transforms, tvs[i..]) == TransformSteps(t0, tvs)
      {
        StepsFrom(transforms, tvs, i);
        o := ApplyTransform(tvs[i]);
        if o.Fail? {
          return;
        }
        i := i + 1;
      }
      assert tvs[i..] == [];
      return Pass;
    }

    /** One iteration of `createTransforms`: an unknown type is skipped
        without a warning. */
    method ApplyTransform(tv: Json) returns (o: Outcome)
      modifies this`transforms
      ensures o.Pass? <==> TransformStep(old(transforms), tv).Ok?
      ensures o.Pass? ==> transforms == TransformStep(old(transforms), tv).value
    {
      if tv == JNull {
        return Fail("TypeError: cannot read property 'type' of null");
      }
      var kind := KindOf(tv);
      if kind.Some? {
        var amount := Get(tv, "amount");
        if IsNullish(amount) {
          return Fail("TypeError: cannot read property 'x' of null or undefined");
        }
        var vec := Some(Vec3Of(amount.value));
        if kind.value == "translate" {
          transforms := transforms.(translate := vec);
        } else if kind.value == "rotate" {
          transforms := transforms.(rotate := vec);
        } else {
          transforms := transforms.(scale := vec);
        }
      }
      return Pass;
    }

    /** `createChildren()`, with room for `depth` further nested nodes on
        the call stack: the node's fields become what `Built` gives for the
        fields it had before, or the call throws exactly when `Built` is an
        error. */
    method CreateChildren(depth: nat) returns (o: Outcome)
      modifies this
      decreases depth, 3
      ensures o.Pass? <==> Built(scene, depth, old(Value())).Ok?
      ensures o.Pass? ==> Value() == Built(scene, depth, old(Value())).value
    {
      var definition := Member(scene, name);
      if IsNullish(definition) {
        return Fail("TypeError: cannot convert undefined or null to object");
      }
      var es := Entries(definition).value;
      ghost var s0 := Value();
      var i := 0;
      while i < |es|
        invariant 0 <= i <= |es|
        invariant NodeSteps(scene, depth, es[i..], Value()) == NodeSteps(scene, depth, es, s0)
      {
        NodeStepsFrom(scene, depth, es, i, Value());
        o := ApplyEntry(depth, es[i]);
        if o.Fail? {
          return;
        }
        i := i + 1;
      }
      return Pass;
    }

    /** One entry of the node's definition. */
    method ApplyEntry(depth: nat, e: (string, Json)) returns (o: Outcome)
      modifies this
      decreases depth, 2
      ensures o.Pass? <==> NodeStep(scene, depth, e, old(Value())).Ok?
      ensures o.Pass? ==> Value() == NodeStep(scene, depth, e, old(Value())).value
    {
      var (key, value) := e;
      if key == "transforms" {
        o := CreateTransforms(value);
      } else if key == "materialref" {
        if value == JNull {
          return Fail("TypeError: cannot read property 'materialId' of null");
        }
        material := Get(value, "materialId");
        o := Pass;
      } else if key == "children" {
        if value == JNull {
          return Fail("TypeError: cannot convert undefined or null to object");
        }
        o := AddChildren(depth, Entries(Some(value)).value);
      } else {
        o := Pass;
      }
    }

    /** The loop over the entries of a `children` object. */
    method AddChildren(depth: nat, cs: seq<(string, Json)>) returns (o: Outcome)
      modifies this
      decreases depth, 1
      ensures o.Pass? <==> ChildSteps(scene, depth, cs, old(Value())).Ok?
      ensures o.Pass? ==> Value() == ChildSteps(scene, depth, cs, old(Value())).value
    {
      ghost var goal := ChildSteps(scene, depth, cs, Value());
      o := Pass;
      var j := 0;
      while j < |cs|
        invariant 0 <= j <= |cs|
        invariant ChildSteps(scene, depth, cs[j..], Value()) == goal
      {
        ChildStepsFrom(scene, depth, cs, j, Value());
        o := AddChild(depth, cs[j]);
        if o.Fail? {
          return;
        }
        j := j + 1;
      }
      return Pass;
    }

    /** One entry `c` of a `children` object; a `noderef` builds a nested
        node, which needs room on the call stack. */
    method AddChild(depth: nat, c: (string, Json)) returns (o: Outcome)
      modifies this`coords, this`children
      decreases depth, 0
      ensures o.Pass? <==> ChildStep(scene, depth, c, old(Value())).Ok?
      ensures o.Pass? ==> Value() == ChildStep(scene, depth, c, old(Value())).value
    {
      var (nameAttr, valueAttr) := c;
      if valueAttr == JNull {
        return Fail("TypeError: cannot read property 'type' of null");
      }
      var ty := Get(valueAttr, "type");
      if ty == Some(JStr("noderef")) {
        if depth == 0 {
          return Fail(SceneNodes.StackOverflow);
        }
        var child := new NodeObject(nameAttr, valueAttr, scene);
        assert BuildNode(scene, depth - 1, nameAttr, valueAttr) == Built(scene, depth - 1, child.Value());
        o := child.CreateChildren(depth - 1);
        if o.Fail? {
          return;
        }
        children := children + [child.Value()];
      } else if ty == Some(JStr("rectangle")) {
        var xy1 := ReadVec2(Get(valueAttr, "xy1"));
        if xy1.Err? {
          return Fail(xy1.error);
        }
        var xy2 := ReadVec2(Get(valueAttr, "xy2"));
        if xy2.Err? {
          return Fail(xy2.error);
        }
        coords := Coords(Some(xy1.value), Some(xy2.value));
        o := Pass;
      } else {
        o := Pass;
      }
    }
  }

  class GraphObject {
    const scene: Json
    const rootid: Option<Json>
    const rootNode: Json
    const kind: Option<Json>
    var children: seq<RootChild>

    /** The field initialisation of the constructor, before it calls
        `createChildren`; the caller has read `rootNode` from the
        document. */
    constructor(scene: Json, rootNode: Json)
      requires scene != JNull
      ensures this.scene == scene && this.rootNode == rootNode
      ensures rootid == Get(scene, "rootid") && kind == Get(rootNode, "type") && children == []
    {
      this.scene := scene;
      rootid := Get(scene, "rootid");
      this.rootNode := rootNode;
      kind := Get(rootNode, "type");
      children := [];
    }

    /** `createChildren()`: the root's `noderef` and `pointlight` entries
        are pushed as `RootSteps` gives them. */
    method CreateChildren(depth: nat) returns (o: Outcome)
      modifies this`children
      ensures o.Pass? <==> Entries(Get(rootNode, "children")).Ok?
                           && RootSteps(scene, depth, Entries(Get(rootNode, "children")).value, old(children)).Ok?
      ensures o.Pass? ==> children == RootSteps(scene, depth, Entries(Get(rootNode, "children")).value, old(children)).value
    {
      var cs := Get(rootNode, "children");
      if IsNullish(cs) {
        return Fail("TypeError: cannot convert undefined or null to object");
      }
      var es := Entries(cs).value;
      ghost var goal := RootSteps(scene, depth, es, children);
      var j := 0;
      while j < |es|
        invariant 0 <= j <= |es|
        invariant RootSteps(scene, depth, es[j..], children) == goal
      {
        RootStepsFrom(scene, depth, es, j, children);
        o := AddRootChild(depth, es[j]);
        if o.Fail? {
          return;
        }
        j := j + 1;
      }
      return Pass;
    }

    /** One iteration of `createChildren`: the root's entry `c`. */
    method AddRootChild(depth: nat, c: (string, Json)) returns (o: Outcome)
      modifies this`children
      ensures o.Pass? <==> RootStep(scene, depth, c).Ok?
      ensures o.Pass? ==> children == old(children) + RootStep(scene, depth, c).value
    {
      var (name, value) := c;
      if value == JNull {
        return Fail("TypeError: cannot read property 'type' of null");
      }
      var ty := Get(value, "type");
      if ty == Some(JStr("noderef")) {
        var node := new NodeObject(name, value, scene);
        assert BuildNode(scene, depth, name, value) == Built(scene, depth, node.Value());
        o := node.CreateChildren(depth);
        if o.Fail? {
          return;
        }
        children := children + [RootNode(node.Value())];
      } else if ty == Some(JStr("pointlight")) {
        var light := LightRecordOf(name, value);
        if light.Err? {
          return Fail(light.error);
        }
        children := children + [RootLight(light.value)];
        o := Pass;
      } else {
        o := Pass;
        assert children + [] == children;
      }
    }
  }

  /** `new MyGraph(app, node)`: reads `rootid` and the root's `type`, then
      builds the root's children. */
  method NewGraph(scene: Json, depth: nat) returns (r: Result<Graph>)
    ensures r.Ok? <==> GraphOf(scene, depth).Ok?
    ensures r.Ok? ==> r.value == GraphOf(scene, depth).value
  {
    if scene == JNull {
      return Err("TypeError: cannot read property 'rootid' of null");
    }
    var rootNode := RootOf(scene);
    if IsNullish(rootNode) {
      return Err("TypeError: cannot read property 'type' of undefined");
    }
    r := BuildGraph(scene, rootNode.value, depth);
  }

  /** The constructor once the root's definition `rootNode` is read. */
  method BuildGraph(scene: Json, rootNode: Json, depth: nat) returns (r: Result<Graph>)
    requires scene != JNull
    ensures r.Ok? <==> RootChildren(scene, depth, rootNode).Ok?
    ensures r.Ok? ==> r.value == Graph(Get(scene, "rootid"), Get(rootNode, "type"), RootChildren(scene, depth, rootNode).value)
  {
    var graph := new GraphObject(scene, rootNode);
    var o := graph.CreateChildren(depth);
    if o.Fail? {
      return Err(o.error);
    }
    return Ok(Graph(graph.rootid, graph.kind, graph.children));
  }
}
