/** What the tp2 scene graph of tp2/MyGraph.js keeps of the document: a
    node is named by its key, carries the `nodeId` of the entry that refers
    to it and nothing else of that entry, has exactly one child per
    `noderef` entry of its `children`, the material of its last
    `materialref` (never an inherited one) and the corners of its last
    `rectangle`; the graph keeps the root's `noderef` and `pointlight`
    entries, in order. */
module Tp2Properties {
  import opened Wrappers
  import opened JsonValue
  import opened JsSemantics
  import opened NodeTransforms
  import opened Tp2Graph
  import Lights

  /** The key of a `noderef` entry, as a list of at most one key. */
  function RefKey(c: (string, Json)): seq<string>
  {
    if Get(c.1, "type") == Some(JStr("noderef")) then [c.0] else []
  }

  /** The keys of the `noderef` entries of a `children` object, in order. */
  function RefKeys(cs: seq<(string, Json)>): seq<string>
  {
    if cs == [] then [] else RefKey(cs[0]) + RefKeys(cs[1..])
  }

  /** The corners of a `rectangle` entry whose corners can be read, or `x`
      for any other entry. */
  function RectOf(c: (string, Json), x: Coords): Coords
  {
    var xy1 := Get(c.1, "xy1");
    var xy2 := Get(c.1, "xy2");
    if Get(c.1, "type") == Some(JStr("rectangle")) && !IsNullish(xy1) && !IsNullish(xy2) then
      Coords(Some(Vec2Of(xy1.value)), Some(Vec2Of(xy2.value)))
    else x
  }

  /** The corners of the last `rectangle` entry whose corners can be read,
      or `x` when there is none. */
  function RectCoords(cs: seq<(string, Json)>, x: Coords): Coords
  {
    if cs == [] then x else RectCoords(cs[1..], RectOf(cs[0], x))
  }

  /** The entries of a `children` entry of a node definition, or none for
      any other entry. */
  function ChildEntries(e: (string, Json)): seq<(string, Json)>
  {
    if e.0 == "children" && Entries(Some(e.1)).Ok? then Entries(Some(e.1)).value else []
  }

  /** The keys of the `noderef` entries of every `children` entry of a node
      definition, in order. */
  function EntryRefKeys(es: seq<(string, Json)>): seq<string>
  {
    if es == [] then [] else RefKeys(ChildEntries(es[0])) + EntryRefKeys(es[1..])
  }

  /** `RectCoords` across every `children` entry of a node definition. */
  function EntryCoords(es: seq<(string, Json)>, x: Coords): Coords
  {
    if es == [] then x else EntryCoords(es[1..], RectCoords(ChildEntries(es[0]), x))
  }

  /** The material after one entry of a node definition: a non-null
      `materialref` gives its `materialId`. */
  function MaterialOf(e: (string, Json), m: Option<Json>): Option<Json>
  {
    if e.0 == "materialref" && e.1 != JNull then Get(e.1, "materialId") else m
  }

  /** The `materialId` of the last non-null `materialref` entry, or `m`
      when there is none. */
  function LastMaterial(es: seq<(string, Json)>, m: Option<Json>): Option<Json>
  {
    if es == [] then m else LastMaterial(es[1..], MaterialOf(es[0], m))
  }

  lemma AppendAssoc<T>(a: seq<T>, b: seq<T>, d: seq<T>)
    ensures (a + b) + d == a + (b + d)
  {
  }

  /** The names of a list of nodes. */
  function ChildNames(ns: seq<GraphNode>): (names: seq<string>)
    ensures |names| == |ns|
  {
    if ns == [] then [] else [ns[0].name] + ChildNames(ns[1..])
  }

  lemma ChildNamesAppend(ns: seq<GraphNode>, n: GraphNode)
    ensures ChildNames(ns + [n]) == ChildNames(ns) + [n.name]
  {
    if ns != [] {
      assert (ns + [n])[1..] == ns[1..] + [n];
      ChildNamesAppend(ns[1..], n);
    }
  }

  /** `t` has the name and `nodeId` of `s`. */
  predicate SameId(s: GraphNode, t: GraphNode)
  {
    t.name == s.name && t.nodeId == s.nodeId
  }

  lemma ChildStepKeeps(scene: Json, depth: nat, c: (string, Json), s: GraphNode)
    requires ChildStep(scene, depth, c, s).Ok?
    ensures SameId(s, ChildStep(scene, depth, c, s).value)
  {
  }

  lemma {:induction false} ChildStepsKeep(scene: Json, depth: nat,
                                          cs: seq<(string, Json)>, s: GraphNode)
    requires ChildSteps(scene, depth, cs, s).Ok?
    ensures SameId(s, ChildSteps(scene, depth, cs, s).value)
    decreases |cs|
  {
    if cs != [] {
      ChildStepsFrom(scene, depth, cs, 0, s);
      assert cs[0..] == cs;
      ChildStepKeeps(scene, depth, cs[0], s);
      ChildStepsKeep(scene, depth, cs[1..], ChildStep(scene, depth, cs[0], s).value);
    }
  }

  lemma {:induction false} NodeStepsKeep(scene: Json, depth: nat,
                                         es: seq<(string, Json)>, s: GraphNode)
    requires NodeSteps(scene, depth, es, s).Ok?
    ensures SameId(s, NodeSteps(scene, depth, es, s).value)
    decreases |es|
  {
    if es != [] {
      NodeStepsFrom(scene, depth, es, 0, s);
      assert es[0..] == es;
      var e := es[0];
      if e.0 == "children" {
        ChildStepsKeep(scene, depth, Entries(Some(e.1)).value, s);
      }
      NodeStepsKeep(scene, depth, es[1..], NodeStep(scene, depth, e, s).value);
    }
  }

  /** A node built for the entry `name: value` is named `name` and carries
      the entry's `nodeId`. */
  lemma BuildNodeName(scene: Json, depth: nat, name: string, value: Json)
    requires BuildNode(scene, depth, name, value).Ok?
    ensures BuildNode(scene, depth, name, value).value.name == name
    ensures BuildNode(scene, depth, name, value).value.nodeId == Get(value, "nodeId")
  {
    var s := GraphNode(name, Get(value, "nodeId"), Some(JNull), NoTransforms, Coords(None, None), []);
    NodeStepsKeep(scene, depth, Entries(Member(scene, name)).value, s);
  }

  /** What the loop over a `children` object does to a node `s`. */
  predicate ChildrenEffect(cs: seq<(string, Json)>, s: GraphNode, t: GraphNode)
  {
    && SameId(s, t)
    && t.material == s.material
    && t.transforms == s.transforms
    && t.coords == RectCoords(cs, s.coords)
    && ChildNames(t.children) == ChildNames(s.children) + RefKeys(cs)
  }

  /** What one entry of a `children` object does to a node `s`. */
  predicate ChildEffect(c: (string, Json), s: GraphNode, t: GraphNode)
  {
    && SameId(s, t)
    && t.material == s.material
    && t.transforms == s.transforms
    && t.coords == RectOf(c, s.coords)
    && ChildNames(t.children) == ChildNames(s.children) + RefKey(c)
  }

  lemma ChildStepEffect(scene: Json, depth: nat, c: (string, Json), s: GraphNode)
    requires ChildStep(scene, depth, c, s).Ok?
    ensures ChildEffect(c, s, ChildStep(scene, depth, c, s).value)
  {
    if Get(c.1, "type") == Some(JStr("noderef")) {
      BuildNodeName(scene, depth - 1, c.0, c.1);
      ChildNamesAppend(s.children, BuildNode(scene, depth - 1, c.0, c.1).value);
    } else {
      assert ChildNames(s.children) + [] == ChildNames(s.children);
    }
  }

  /** The effect of one entry followed by the rest of the loop. */
  lemma ChildrenEffectCompose(cs: seq<(string, Json)>, s: GraphNode, t: GraphNode, u: GraphNode)
    requires cs != [] && ChildEffect(cs[0], s, t) && ChildrenEffect(cs[1..], t, u)
    ensures ChildrenEffect(cs, s, u)
  {
    AppendAssoc(ChildNames(s.children), RefKey(cs[0]), RefKeys(cs[1..]));
  }

  /** The loop over a `children` object changes only the corners, to those
      of its last rectangle, and the children, appending one node per
      `noderef` entry named by its key: rectangles and unknown types add
      nothing. */
  lemma {:induction false} ChildStepsEffect(scene: Json, depth: nat,
                                            cs: seq<(string, Json)>, s: GraphNode)
    requires ChildSteps(scene, depth, cs, s).Ok?
    ensures ChildrenEffect(cs, s, ChildSteps(scene, depth, cs, s).value)
    decreases |cs|
  {
    if cs != [] {
      ChildStepsFrom(scene, depth, cs, 0, s);
      assert cs[0..] == cs;
      var t := ChildStep(scene, depth, cs[0], s).value;
      ChildStepEffect(scene, depth, cs[0], s);
      ChildStepsEffect(scene, depth, cs[1..], t);
      ChildrenEffectCompose(cs, s, t, ChildSteps(scene, depth, cs, s).value);
    }
  }

  /** What the loop over the entries `es` of a node definition does to a
      node `s`. */
  predicate NodeEffect(es: seq<(string, Json)>, s: GraphNode, t: GraphNode)
  {
    && SameId(s, t)
    && t.material == LastMaterial(es, s.material)
    && t.coords == EntryCoords(es, s.coords)
    && ChildNames(t.children) == ChildNames(s.children) + EntryRefKeys(es)
  }

  /** What one entry of a node definition does to a node `s`. */
  predicate EntryEffect(e: (string, Json), s: GraphNode, t: GraphNode)
  {
    && SameId(s, t)
    && t.material == MaterialOf(e, s.material)
    && t.coords == RectCoords(ChildEntries(e), s.coords)
    && ChildNames(t.children) == ChildNames(s.children) + RefKeys(ChildEntries(e))
  }

  lemma NodeStepEffect(scene: Json, depth: nat, e: (string, Json), s: GraphNode)
    requires NodeStep(scene, depth, e, s).Ok?
    ensures EntryEffect(e, s, NodeStep(scene, depth, e, s).value)
  {
    if e.0 == "children" {
      ChildStepsEffect(scene, depth, Entries(Some(e.1)).value, s);
    } else {
      assert ChildNames(s.children) + [] == ChildNames(s.children);
    }
  }

  /** The effect of one entry followed by the rest of the loop. */
  lemma NodeEffectCompose(es: seq<(string, Json)>, s: GraphNode, t: GraphNode, u: GraphNode)
    requires es != [] && EntryEffect(es[0], s, t) && NodeEffect(es[1..], t, u)
    ensures NodeEffect(es, s, u)
  {
    assert u.material == LastMaterial(es, s.material);
    assert u.coords == EntryCoords(es, s.coords);
    AppendAssoc(ChildNames(s.children), RefKeys(ChildEntries(es[0])), EntryRefKeys(es[1..]));
  }

  /** The loop of `createChildren` keeps the name and `nodeId`, leaves the
      material of the last `materialref`, the corners of the last
      `rectangle`, and appends one node per `noderef` child, named by its
      key. */
  lemma {:induction false} NodeStepsEffect(scene: Json, depth: nat,
                                           es: seq<(string, Json)>, s: GraphNode)
    requires NodeSteps(scene, depth, es, s).Ok?
    ensures NodeEffect(es, s, NodeSteps(scene, depth, es, s).value)
    decreases |es|
  {
    if es != [] {
      NodeStepsFrom(scene, depth, es, 0, s);
      assert es[0..] == es;
      var t := NodeStep(scene, depth, es[0], s).value;
      NodeStepEffect(scene, depth, es[0], s);
      NodeStepsEffect(scene, depth, es[1..], t);
      NodeEffectCompose(es, s, t, NodeSteps(scene, depth, es, s).value);
    }
  }

  /** A node built for the entry `name: value` of a `children` object: its
      fields come from its own definition `node[name]` alone. Its material
      is that of its last `materialref`, or `null` without one (nothing is
      inherited from the parent); its corners are those of its last
      readable `rectangle`; it has one child per `noderef`, named by its
      key, and none for rectangles or other entries. */
  lemma BuildNodeEffect(scene: Json, depth: nat, name: string, value: Json)
    requires BuildNode(scene, depth, name, value).Ok?
    ensures Entries(Member(scene, name)).Ok?
    ensures var n := BuildNode(scene, depth, name, value).value;
      var es := Entries(Member(scene, name)).value;
      && n.name == name && n.nodeId == Get(value, "nodeId")
      && n.material == LastMaterial(es, Some(JNull))
      && n.coords == EntryCoords(es, Coords(None, None))
      && ChildNames(n.children) == EntryRefKeys(es)
      && |n.children| == |EntryRefKeys(es)|
  {
    var s := GraphNode(name, Get(value, "nodeId"), Some(JNull), NoTransforms, Coords(None, None), []);
    NodeStepsEffect(scene, depth, Entries(Member(scene, name)).value, s);
    assert ChildNames([]) + EntryRefKeys(Entries(Member(scene, name)).value) == EntryRefKeys(Entries(Member(scene, name)).value);
  }

  /** `r` with the `nodeId` of its node replaced by `x`. */
  function WithId(r: Result<GraphNode>, x: Option<Json>): Result<GraphNode>
  {
    match r
    case Ok(n) => Ok(n.(nodeId := x))
    case Err(m) => Err(m)
  }

  lemma ChildStepId(scene: Json, depth: nat, c: (string, Json), s: GraphNode, x: Option<Json>)
    ensures ChildStep(scene, depth, c, s.(nodeId := x)) == WithId(ChildStep(scene, depth, c, s), x)
  {
  }

  lemma {:induction false} ChildStepsId(scene: Json, depth: nat,
                                        cs: seq<(string, Json)>, s: GraphNode, x: Option<Json>)
    ensures ChildSteps(scene, depth, cs, s.(nodeId := x)) == WithId(ChildSteps(scene, depth, cs, s), x)
    decreases |cs|
  {
    if cs != [] {
      ChildStepsFrom(scene, depth, cs, 0, s);
      ChildStepsFrom(scene, depth, cs, 0, s.(nodeId := x));
      assert cs[0..] == cs;
      ChildStepId(scene, depth, cs[0], s, x);
      var r := ChildStep(scene, depth, cs[0], s);
      if r.Ok? {
        ChildStepsId(scene, depth, cs[1..], r.value, x);
      }
    }
  }

  lemma NodeStepId(scene: Json, depth: nat, e: (string, Json), s: GraphNode, x: Option<Json>)
    ensures NodeStep(scene, depth, e, s.(nodeId := x)) == WithId(NodeStep(scene, depth, e, s), x)
  {
    if e.0 == "children" && Entries(Some(e.1)).Ok? {
      ChildStepsId(scene, depth, Entries(Some(e.1)).value, s, x);
    }
  }

  lemma {:induction false} NodeStepsId(scene: Json, depth: nat,
                                       es: seq<(string, Json)>, s: GraphNode, x: Option<Json>)
    ensures NodeSteps(scene, depth, es, s.(nodeId := x)) == WithId(NodeSteps(scene, depth, es, s), x)
    decreases |es|
  {
    if es != [] {
      NodeStepsFrom(scene, depth, es, 0, s);
      NodeStepsFrom(scene, depth, es, 0, s.(nodeId := x));
      assert es[0..] == es;
      NodeStepId(scene, depth, es[0], s, x);
      var r := NodeStep(scene, depth, es[0], s);
      if r.Ok? {
        NodeStepsId(scene, depth, es[1..], r.value, x);
      }
    }
  }

  lemma BuiltId(scene: Json, depth: nat, s: GraphNode, x: Option<Json>)
    ensures Built(scene, depth, s.(nodeId := x)) == WithId(Built(scene, depth, s), x)
  {
    var r := Entries(Member(scene, s.name));
    if r.Ok? {
      BuiltSteps(scene, depth, s);
      BuiltSteps(scene, depth, s.(nodeId := x));
      NodeStepsId(scene, depth, r.value, s, x);
    }
  }

  /** `createChildren` on a node whose definition can be read is the loop
      over its entries. */
  lemma BuiltSteps(scene: Json, depth: nat, s: GraphNode)
    requires Entries(Member(scene, s.name)).Ok?
    ensures Built(scene, depth, s)
            == NodeSteps(scene, depth, Entries(Member(scene, s.name)).value, s)
  {
  }

  /** Of the entry that refers to a node, only `nodeId` is stored: two
      non-null entries with the same key build the same node, or throw the
      same error, up to the `nodeId` each carries. */
  lemma NodeIdIgnored(scene: Json, depth: nat, name: string, v1: Json, v2: Json)
    requires v1 != JNull && v2 != JNull
    ensures BuildNode(scene, depth, name, v1) == WithId(BuildNode(scene, depth, name, v2), Get(v1, "nodeId"))
  {
    var s := GraphNode(name, Get(v2, "nodeId"), Some(JNull), NoTransforms, Coords(None, None), []);
    BuiltId(scene, depth, s, Get(v1, "nodeId"));
  }

  /** The name a child of the graph was created with. */
  function RootName(c: RootChild): string
  {
    match c
    case RootNode(n) => n.name
    case RootLight(l) => l.name
  }

  function RootNames(cs: seq<RootChild>): (names: seq<string>)
    ensures |names| == |cs|
  {
    if cs == [] then [] else [RootName(cs[0])] + RootNames(cs[1..])
  }

  lemma {:induction false} RootNamesAppend(a: seq<RootChild>, b: seq<RootChild>)
    ensures RootNames(a + b) == RootNames(a) + RootNames(b)
    decreases |a|
  {
    if a == [] {
      assert a + b == b;
    } else {
      assert (a + b)[0] == a[0] && (a + b)[1..] == a[1..] + b;
      RootNamesAppend(a[1..], b);
      AppendAssoc([RootName(a[0])], RootNames(a[1..]), RootNames(b));
    }
  }

  /** The key of a root entry the graph keeps (a `noderef` or a
      `pointlight`), as a list of at most one key. */
  function KeptKey(c: (string, Json)): seq<string>
  {
    var ty := Get(c.1, "type");
    if ty == Some(JStr("noderef")) || ty == Some(JStr("pointlight")) then [c.0] else []
  }

  function KeptKeys(cs: seq<(string, Json)>): seq<string>
  {
    if cs == [] then [] else KeptKey(cs[0]) + KeptKeys(cs[1..])
  }

  lemma RootStepNames(scene: Json, depth: nat, c: (string, Json))
    requires RootStep(scene, depth, c).Ok?
    ensures RootNames(RootStep(scene, depth, c).value) == KeptKey(c)
  {
    if Get(c.1, "type") == Some(JStr("noderef")) {
      BuildNodeName(scene, depth, c.0, c.1);
    }
  }

  /** The loop of `MyGraph.createChildren` appends one child per `noderef`
      or `pointlight` entry of the root, named by its key, in order; any
      other entry is skipped. */
  lemma {:induction false} RootStepsNames(scene: Json, depth: nat, cs: seq<(string, Json)>,
                                          acc: seq<RootChild>)
    requires RootSteps(scene, depth, cs, acc).Ok?
    ensures RootNames(RootSteps(scene, depth, cs, acc).value) == RootNames(acc) + KeptKeys(cs)
    decreases |cs|
  {
    if cs != [] {
      RootStepsFrom(scene, depth, cs, 0, acc);
      assert cs[0..] == cs;
      var added := RootStep(scene, depth, cs[0]).value;
      RootStepNames(scene, depth, cs[0]);
      RootStepsNames(scene, depth, cs[1..], acc + added);
      RootNamesCompose(cs, acc, added, RootSteps(scene, depth, cs, acc).value);
    }
  }

  /** The names after one root entry followed by the rest of the loop. */
  lemma RootNamesCompose(cs: seq<(string, Json)>, acc: seq<RootChild>, added: seq<RootChild>, result: seq<RootChild>)
    requires cs != [] && RootNames(added) == KeptKey(cs[0])
    requires RootNames(result) == RootNames(acc + added) + KeptKeys(cs[1..])
    ensures RootNames(result) == RootNames(acc) + KeptKeys(cs)
  {
    RootNamesAppend(acc, added);
    AppendAssoc(RootNames(acc), KeptKey(cs[0]), KeptKeys(cs[1..]));
  }

  /** A graph records the document's `rootid` and the root's `type`, and
      keeps exactly the root's `noderef` and `pointlight` entries, named by
      their keys, in order. */
  lemma GraphShape(scene: Json, depth: nat)
    requires GraphOf(scene, depth).Ok?
    ensures scene != JNull && RootOf(scene).Some? && Entries(Get(RootOf(scene).value, "children")).Ok?
    ensures var g, root := GraphOf(scene, depth).value, RootOf(scene).value;
      && g.rootid == Get(scene, "rootid")
      && g.kind == Get(root, "type")
      && RootNames(g.children) == KeptKeys(Entries(Get(root, "children")).value)
  {
    var root := RootOf(scene).value;
    RootStepsNames(scene, depth, Entries(Get(root, "children")).value, []);
    assert RootNames([]) + KeptKeys(Entries(Get(root, "children")).value)
        == KeptKeys(Entries(Get(root, "children")).value);
  }

  /** A point light of the tp2 graph copies its fields as read, with no
      default, where the scene graph's point light replaces falsy values:
      an explicit intensity of 0 stays 0 here and becomes 1 there. */
  lemma LightRecordVerbatim(name: string, value: Json)
    requires value != JNull && LightRecordOf(name, value).Ok?
    ensures var l := LightRecordOf(name, value).value;
      && l.name == name
      && l.enabled == Get(value, "enabled")
      && l.intensity == Get(value, "intensity")
      && l.distance == Get(value, "distance")
      && l.decay == Get(value, "decay")
      && l.castShadow == Get(value, "castShadow")
    ensures Get(value, "intensity") == Some(JNum(0.0)) ==>
              && LightRecordOf(name, value).value.intensity == Some(JNum(0.0))
              && Lights.PointLightOf(JStr(name), Some(value)).Ok?
              && Lights.PointLightOf(JStr(name), Some(value)).value.intensity == JNum(1.0)
  {
  }
}
