/** The transforms of a scene node. `createTransforms` in tp3/MyNode.js,
    tp2/MyNode.js and tp2/MyGraph.js walks a list of entries
    `{type, amount}`; a translate, rotate or scale entry replaces the vector
    of its kind with `amount`, any other type changes nothing. */
module NodeTransforms {
  import opened Wrappers
  import opened JsonValue
  import opened JsSemantics

  /** The node's `transforms` object; a kind no entry set is absent. */
  datatype Transforms = Transforms(translate: Option<Vec3>, rotate: Option<Vec3>, scale: Option<Vec3>)

  /** The empty `transforms` object every node starts with. */
  const NoTransforms := Transforms(None, None, None)

  /** The three kinds of transform the builders recognise. */
  predicate IsKind(kind: string)
  {
    kind == "translate" || kind == "rotate" || kind == "scale"
  }

  /** The vector stored for a kind. */
  function Slot(t: Transforms, kind: string): Option<Vec3>
  {
    if kind == "translate" then t.translate
    else if kind == "rotate" then t.rotate
    else if kind == "scale" then t.scale
    else None
  }

  /** The kind an entry declares through `type`, when it is one of the
      three (compared with `===`, so only the exact strings match). */
  function KindOf(tv: Json): (k: Option<string>)
    ensures k.Some? ==> IsKind(k.value)
    ensures k.Some? ==> tv != JNull && Get(tv, "type") == Some(JStr(k.value))
    ensures tv != JNull && Get(tv, "type").Some? && Get(tv, "type").value.JStr? && IsKind(Get(tv, "type").value.str) ==> k.Some?
  {
    if tv == JNull then None
    else match Get(tv, "type")
      case Some(JStr(s)) => if IsKind(s) then Some(s) else None
      case _ => None
  }

  /** An entry on which `createTransforms` throws: a null entry (reading
      `type`), or a recognised one whose `amount` is null or undefined. */
  predicate Throws(tv: Json)
  {
    tv == JNull || (KindOf(tv).Some? && IsNullish(Get(tv, "amount")))
  }

  /** One iteration of the loop. */
  function TransformStep(t: Transforms, tv: Json): (r: Result<Transforms>)
    ensures r.Err? <==> Throws(tv)
    ensures r.Ok? && KindOf(tv).None? ==> r.value == t
  {
    if tv == JNull then Err("TypeError: cannot read property 'type' of null")
    else
      match KindOf(tv)
      case None => Ok(t)
      case Some(kind) =>
        var amount := Get(tv, "amount");
        if IsNullish(amount) then Err("TypeError: cannot read property 'x' of null or undefined")
        else
          var vec := Some(Vec3Of(amount.value));
          if kind == "translate" then Ok(t.(translate := vec))
          else if kind == "rotate" then Ok(t.(rotate := vec))
          else Ok(t.(scale := vec))
  }

  /** The loop over the entries `tvs`, stopping at the first throw. */
  function TransformSteps(t: Transforms, tvs: seq<Json>): Result<Transforms>
    decreases |tvs|
  {
    if tvs == [] then Ok(t)
    else
      match TransformStep(t, tvs[0])
      case Err(e) => Err(e)
      case Ok(u) => TransformSteps(u, tvs[1..])
  }

  /** The loop from entry `i` on: it throws when entry `i` does, and
      otherwise goes on from the transforms that entry leaves. */
  lemma StepsFrom(t: Transforms, tvs: seq<Json>, i: nat)
    requires i < |tvs|
    ensures TransformStep(t, tvs[i]).Err? ==> TransformSteps(t, tvs[i..]).Err?
    ensures TransformStep(t, tvs[i]).Ok? ==>
              TransformSteps(t, tvs[i..]) == TransformSteps(TransformStep(t, tvs[i]).value, tvs[i + 1..])
  {
    assert tvs[i..][0] == tvs[i] && tvs[i..][1..] == tvs[i + 1..];
  }

  /** `createTransforms(value)`: `for...of` throws unless `value` is an
      array or a string. */
  function CreateTransforms(t: Transforms, value: Json): (r: Result<Transforms>)
    ensures !(value.JArray? || value.JStr?) ==> r.Err?
    ensures value.JArray? ==> r == TransformSteps(t, value.items)
  {
    match ForOf(Some(value))
    case Err(e) => Err(e)
    case Ok(tvs) => TransformSteps(t, tvs)
  }

  /** The loop throws exactly when one of its entries does. */
  lemma {:induction false} StepsThrow(t: Transforms, tvs: seq<Json>)
    ensures TransformSteps(t, tvs).Err? <==> exists j :: 0 <= j < |tvs| && Throws(tvs[j])
    decreases |tvs|
  {
    if tvs != [] && TransformStep(t, tvs[0]).Ok? {
      StepsThrow(TransformStep(t, tvs[0]).value, tvs[1..]);
      assert forall j :: 0 < j < |tvs| ==> tvs[1..][j - 1] == tvs[j];
    }
  }

  /** The vector `tv` sets: its `amount`, read component-wise. */
  predicate SetFrom(u: Transforms, kind: string, tv: Json)
  {
    Get(tv, "amount").Some? && Slot(u, kind) == Some(Vec3Of(Get(tv, "amount").value))
  }

  /** One entry sets the vector of its own kind and keeps the others. */
  lemma StepSlot(u: Transforms, tv: Json, kind: string)
    requires TransformStep(u, tv).Ok? && IsKind(kind)
    ensures KindOf(tv) == Some(kind) ==> SetFrom(TransformStep(u, tv).value, kind, tv)
    ensures KindOf(tv) != Some(kind) ==> Slot(TransformStep(u, tv).value, kind) == Slot(u, kind)
  {
  }

  /** A kind no entry names keeps the vector it had before the loop. */
  lemma {:induction false} UnnamedKept(t: Transforms, tvs: seq<Json>, kind: string)
    requires TransformSteps(t, tvs).Ok? && IsKind(kind)
    requires forall j :: 0 <= j < |tvs| ==> KindOf(tvs[j]) != Some(kind)
    ensures Slot(TransformSteps(t, tvs).value, kind) == Slot(t, kind)
    decreases |tvs|
  {
    if tvs != [] {
      var u := TransformStep(t, tvs[0]).value;
      StepSlot(t, tvs[0], kind);
      assert forall j :: 0 <= j < |tvs| - 1 ==> tvs[1..][j] == tvs[j + 1];
      UnnamedKept(u, tvs[1..], kind);
    }
  }

  /** For each kind, the vector after the loop is the `amount` of the last
      entry of that kind. */
  lemma {:induction false} LastWins(t: Transforms, tvs: seq<Json>, kind: string, j: nat)
    requires TransformSteps(t, tvs).Ok? && IsKind(kind)
    requires j < |tvs| && KindOf(tvs[j]) == Some(kind)
    requires forall l :: j < l < |tvs| ==> KindOf(tvs[l]) != Some(kind)
    ensures SetFrom(TransformSteps(t, tvs).value, kind, tvs[j])
    decreases |tvs|
  {
    var u := TransformStep(t, tvs[0]).value;
    if j == 0 {
      StepSlot(t, tvs[0], kind);
      UnnamedKept(u, tvs[1..], kind);
    } else {
      assert tvs[1..][j - 1] == tvs[j];
      LastWins(u, tvs[1..], kind, j - 1);
    }
  }
}
