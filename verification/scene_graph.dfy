/** The scene graph of tp3/MyGraph.js: the root node is the node named by
    the document's `rootid`, built with the material `""` and both shadow
    flags `false`. */
module SceneGraph {
  import opened Wrappers
  import opened JsonValue
  import opened JsSemantics
  import opened SceneNodes
  import opened NodeBuilder
  import opened NodeProperties

  /** `new MyGraph(app, node)`: reading `node.rootid` throws on a null
      document; otherwise the root node, or the error its constructor
      throws, with room on the call stack for `depth` nested nodes below
      the root. */
  function GraphRoot(scene: Json, depth: nat): Result<NodeValue>
  {
    if scene == JNull then Err("TypeError: cannot read property 'rootid' of null")
    else BuildNode(Tp3, scene, depth, Get(scene, "rootid"), Some(JStr("")), JBool(false), JBool(false))
  }

  /** The constructor, building the root `MyNode` object. */
  method NewGraph(scene: Json, depth: nat) returns (root: Result<NodeValue>)
    ensures root.Ok? <==> GraphRoot(scene, depth).Ok?
    ensures root.Ok? ==> root.value == GraphRoot(scene, depth).value
  {
    if scene == JNull {
      return Err("TypeError: cannot read property 'rootid' of null");
    }
    var rootid := Get(scene, "rootid");
    var node := new SceneNode(Tp3, rootid, scene, Some(JStr("")), JBool(false), JBool(false));
    assert GraphRoot(scene, depth) == Built(Tp3, scene, depth, node.Value());
    var o := node.CreateChildren(depth);
    if o.Fail? {
      return Err(o.error);
    }
    return Ok(node.Value());
  }

  /** The root is the node named by `rootid`; its material stays `""`
      unless it has a `materialref` entry, and each shadow flag is `false`
      unless a truthy value set it. */
  lemma RootDefaults(scene: Json, depth: nat)
    requires GraphRoot(scene, depth).Ok?
    ensures var r := GraphRoot(scene, depth).value;
      && r.name == Get(scene, "rootid")
      && (r.castShadows == JBool(false) || Truthy(Some(r.castShadows)))
      && (r.receiveShadows == JBool(false) || Truthy(Some(r.receiveShadows)))
      && Entries(NodeOf(scene, r.name)).Ok?
      && ((forall i :: 0 <= i < |Entries(NodeOf(scene, r.name)).value| ==>
             Entries(NodeOf(scene, r.name)).value[i].0 != "materialref")
          ==> r.material == Some(JStr("")))
  {
    var rootid := Get(scene, "rootid");
    var s := NodeValue(rootid, Some(JStr("")), JBool(false), JBool(false), NodeTransforms.NoTransforms, []);
    assert GraphRoot(scene, depth) == Built(Tp3, scene, depth, s);
    var es := Entries(NodeOf(scene, rootid)).value;
    assert GraphRoot(scene, depth) == NodeSteps(Tp3, scene, depth, es, s);
    NodeStepsEffect(Tp3, scene, depth, es, s);
  }
}
