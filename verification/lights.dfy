/** Light descriptors of the scene graph. Each constructor reads a light
    entry of the scene document and resolves missing values with
    `v ? v : default` (so any falsy value, an explicit 0 included, takes the
    default) or, for `enabled`, with `v === false`. The tp2 and tp3 versions
    of each light resolve their fields by the same rules. */
module Lights {
  import opened Wrappers
  import opened JsonValue
  import opened JsSemantics

  /** `field = read ? read : d`: a truthy value is kept, any falsy or
      missing one gives the default. */
  predicate KeepsTruthyElse(read: Option<Json>, d: Json, field: Json)
  {
    (Truthy(read) ==> field == read.value) && (!Truthy(read) ==> field == d)
  }

  /** `enabled = v === false ? false : true`. */
  function EnabledOf(read: Option<Json>): (on: bool)
    ensures !on <==> read == Some(JBool(false))
  {
    read != Some(JBool(false))
  }

  /** The descriptor and the properties whose components are read are
      neither null nor undefined; otherwise the constructor throws. */
  predicate Readable(value: Option<Json>, a: string, b: string)
  {
    !IsNullish(value) && !IsNullish(Get(value.value, a)) && !IsNullish(Get(value.value, b))
  }

  datatype PointLightConfig = PointLightConfig(
    name: Json, enabled: bool, color: Rgb, intensity: Json, distance: Json, decay: Json,
    position: Vec3, castShadow: Json, shadowFar: Json, shadowMapSize: Json)

  datatype SpotLightConfig = SpotLightConfig(
    name: Json, enabled: bool, color: Rgb, intensity: Json, distance: Json,
    angleDegrees: Option<Json>, decay: Json, penumbra: Json, position: Vec3, target: Vec3,
    castShadow: Json, shadowFar: Json, shadowMapSize: Json)

  datatype DirectionalLightConfig = DirectionalLightConfig(
    name: Json, enabled: bool, color: Rgb, intensity: Json, position: Vec3, castShadow: Json,
    shadowLeft: Json, shadowRight: Json, shadowBottom: Json, shadowTop: Json,
    shadowFar: Json, shadowMapSize: Json)

  /** `new MyPointLight(name, value)`: the fields of a point light. */
  function PointLightOf(name: Json, value: Option<Json>): (r: Result<PointLightConfig>)
    ensures r.Ok? <==> Readable(value, "color", "position")
  {
    if !Readable(value, "color", "position") then Err("TypeError: cannot read properties of null or undefined")
    else
      var v := value.value;
      Ok(PointLightConfig(
        name, EnabledOf(Get(v, "enabled")), RgbOf(Get(v, "color").value),
        OrDefault(Get(v, "intensity"), JNum(1.0)),
        OrDefault(Get(v, "distance"), JNum(1000.0)),
        OrDefault(Get(v, "decay"), JNum(2.0)),
        Vec3Of(Get(v, "position").value),
        OrDefault(Get(v, "castshadow"), JBool(false)),
        OrDefault(Get(v, "shadowfar"), JNum(500.0)),
        OrDefault(Get(v, "shadowmapsize"), JNum(512.0))))
  }

  /** How each field of a point light is resolved: `enabled` is false only
      for an explicit `false`, every other defaulted field keeps a truthy
      value and otherwise takes its default. */
  lemma PointLightFields(name: Json, value: Option<Json>)
    requires PointLightOf(name, value).Ok?
    ensures
      var v, c := value.value, PointLightOf(name, value).value;
      && c.name == name
      && (c.enabled <==> Get(v, "enabled") != Some(JBool(false)))
      && c.color == RgbOf(Get(v, "color").value)
      && KeepsTruthyElse(Get(v, "intensity"), JNum(1.0), c.intensity)
      && KeepsTruthyElse(Get(v, "distance"), JNum(1000.0), c.distance)
      && KeepsTruthyElse(Get(v, "decay"), JNum(2.0), c.decay)
      && c.position == Vec3Of(Get(v, "position").value)
      && KeepsTruthyElse(Get(v, "castshadow"), JBool(false), c.castShadow)
      && KeepsTruthyElse(Get(v, "shadowfar"), JNum(500.0), c.shadowFar)
      && KeepsTruthyElse(Get(v, "shadowmapsize"), JNum(512.0), c.shadowMapSize)
  {
  }

  /** `new MySpotLight(name, value)`: the fields of a spot light. The angle
      has no default: it is `value.angle`, converted from degrees. */
  function SpotLightOf(name: Json, value: Option<Json>): (r: Result<SpotLightConfig>)
    ensures r.Ok? <==> Readable(value, "color", "position") && !IsNullish(Get(value.value, "target"))
  {
    if !(Readable(value, "color", "position") && !IsNullish(Get(value.value, "target"))) then Err("TypeError: cannot read properties of null or undefined")
    else
      var v := value.value;
      Ok(SpotLightConfig(
        name, EnabledOf(Get(v, "enabled")), RgbOf(Get(v, "color").value),
        OrDefault(Get(v, "intensity"), JNum(1.0)),
        OrDefault(Get(v, "distance"), JNum(1000.0)),
        Get(v, "angle"),
        OrDefault(Get(v, "decay"), JNum(2.0)),
        OrDefault(Get(v, "penumbra"), JNum(1.0)),
        Vec3Of(Get(v, "position").value),
        Vec3Of(Get(v, "target").value),
        OrDefault(Get(v, "castshadow"), JBool(false)),
        OrDefault(Get(v, "shadowfar"), JNum(500.0)),
        OrDefault(Get(v, "shadowmapsize"), JNum(512.0))))
  }

  /** How each field of a spot light is resolved; `angle` is copied with
      no default. */
  lemma SpotLightFields(name: Json, value: Option<Json>)
    requires SpotLightOf(name, value).Ok?
    ensures
      var v, c := value.value, SpotLightOf(name, value).value;
      && c.name == name
      && (c.enabled <==> Get(v, "enabled") != Some(JBool(false)))
      && c.color == RgbOf(Get(v, "color").value)
      && KeepsTruthyElse(Get(v, "intensity"), JNum(1.0), c.intensity)
      && KeepsTruthyElse(Get(v, "distance"), JNum(1000.0), c.distance)
      && c.angleDegrees == Get(v, "angle")
      && KeepsTruthyElse(Get(v, "decay"), JNum(2.0), c.decay)
      && KeepsTruthyElse(Get(v, "penumbra"), JNum(1.0), c.penumbra)
      && c.position == Vec3Of(Get(v, "position").value)
      && c.target == Vec3Of(Get(v, "target").value)
      && KeepsTruthyElse(Get(v, "castshadow"), JBool(false), c.castShadow)
      && KeepsTruthyElse(Get(v, "shadowfar"), JNum(500.0), c.shadowFar)
      && KeepsTruthyElse(Get(v, "shadowmapsize"), JNum(512.0), c.shadowMapSize)
  {
  }

  /** `new MyDirectionalLight(name, value)`: the fields of a directional
      light, whose shadow camera bounds default to -5, 5, -5 and 5. */
  function DirectionalLightOf(name: Json, value: Option<Json>): (r: Result<DirectionalLightConfig>)
    ensures r.Ok? <==> Readable(value, "color", "position")
  {
    if !Readable(value, "color", "position") then Err("TypeError: cannot read properties of null or undefined")
    else
      var v := value.value;
      Ok(DirectionalLightConfig(
        name, EnabledOf(Get(v, "enabled")), RgbOf(Get(v, "color").value),
        OrDefault(Get(v, "intensity"), JNum(1.0)),
        Vec3Of(Get(v, "position").value),
        OrDefault(Get(v, "castshadow"), JBool(false)),
        OrDefault(Get(v, "shadowleft"), JNum(-5.0)),
        OrDefault(Get(v, "shadowright"), JNum(5.0)),
        OrDefault(Get(v, "shadowbottom"), JNum(-5.0)),
        OrDefault(Get(v, "shadowtop"), JNum(5.0)),
        OrDefault(Get(v, "shadowfar"), JNum(500.0)),
        OrDefault(Get(v, "shadowmapsize"), JNum(512.0))))
  }

  /** How each field of a directional light is resolved. */
  lemma DirectionalLightFields(name: Json, value: Option<Json>)
    requires DirectionalLightOf(name, value).Ok?
    ensures
      var v, c := value.value, DirectionalLightOf(name, value).value;
      && c.name == name
      && (c.enabled <==> Get(v, "enabled") != Some(JBool(false)))
      && c.color == RgbOf(Get(v, "color").value)
      && KeepsTruthyElse(Get(v, "intensity"), JNum(1.0), c.intensity)
      && c.position == Vec3Of(Get(v, "position").value)
      && KeepsTruthyElse(Get(v, "castshadow"), JBool(false), c.castShadow)
      && KeepsTruthyElse(Get(v, "shadowleft"), JNum(-5.0), c.shadowLeft)
      && KeepsTruthyElse(Get(v, "shadowright"), JNum(5.0), c.shadowRight)
      && KeepsTruthyElse(Get(v, "shadowbottom"), JNum(-5.0), c.shadowBottom)
      && KeepsTruthyElse(Get(v, "shadowtop"), JNum(5.0), c.shadowTop)
      && KeepsTruthyElse(Get(v, "shadowfar"), JNum(500.0), c.shadowFar)
      && KeepsTruthyElse(Get(v, "shadowmapsize"), JNum(512.0), c.shadowMapSize)
  {
  }

  /** Every defaulted numeric field of a point light is truthy: a zero in
      the scene never reaches the light. */
  lemma PointLightNeverZero(name: Json, value: Option<Json>)
    requires PointLightOf(name, value).Ok?
    ensures var c := PointLightOf(name, value).value;
      Truthy(Some(c.intensity)) && Truthy(Some(c.distance)) && Truthy(Some(c.decay))
      && Truthy(Some(c.shadowFar)) && Truthy(Some(c.shadowMapSize))
  {
  }

  /** The same for a spot light, penumbra included. */
  lemma SpotLightNeverZero(name: Json, value: Option<Json>)
    requires SpotLightOf(name, value).Ok?
    ensures var c := SpotLightOf(name, value).value;
      Truthy(Some(c.intensity)) && Truthy(Some(c.distance)) && Truthy(Some(c.decay))
      && Truthy(Some(c.penumbra)) && Truthy(Some(c.shadowFar)) && Truthy(Some(c.shadowMapSize))
  {
  }

  /** The same for a directional light: no shadow bound is ever 0. */
  lemma DirectionalLightNeverZero(name: Json, value: Option<Json>)
    requires DirectionalLightOf(name, value).Ok?
    ensures var c := DirectionalLightOf(name, value).value;
      Truthy(Some(c.intensity)) && Truthy(Some(c.shadowLeft)) && Truthy(Some(c.shadowRight))
      && Truthy(Some(c.shadowBottom)) && Truthy(Some(c.shadowTop))
      && Truthy(Some(c.shadowFar)) && Truthy(Some(c.shadowMapSize))
  {
  }

  /** A Three.js light or helper object handed to a setter. */
  datatype SceneObject = SceneObject(id: nat)

  /** A point light of the tp3 scene graph: its resolved fields, plus the
      light and helper objects attached later by the renderer. */
  class PointLight {
    const kind: string
    const config: PointLightConfig
    var light: Option<SceneObject>
    var lightHelper: Option<SceneObject>

    constructor(config: PointLightConfig)
      ensures kind == "PointLight" && this.config == config
      ensures light == None && lightHelper == None
    {
      kind := "PointLight";
      this.config := config;
      light := None;
      lightHelper := None;
    }

    method SetLight(l: SceneObject)
      modifies this
      ensures light == Some(l) && lightHelper == old(lightHelper)
    {
      light := Some(l);
    }

    method SetLightHelper(h: SceneObject)
      modifies this
      ensures lightHelper == Some(h) && light == old(light)
    {
      lightHelper := Some(h);
    }
  }

  /** A spot light of the tp3 scene graph. */
  class SpotLight {
    const kind: string
    const config: SpotLightConfig
    var light: Option<SceneObject>
    var lightHelper: Option<SceneObject>

    constructor(config: SpotLightConfig)
      ensures kind == "SpotLight" && this.config == config
      ensures light == None && lightHelper == None
    {
      kind := "SpotLight";
      this.config := config;
      light := None;
      lightHelper := None;
    }

    method SetLight(l: SceneObject)
      modifies this
      ensures light == Some(l) && lightHelper == old(lightHelper)
    {
      light := Some(l);
    }

    method SetLightHelper(h: SceneObject)
      modifies this
      ensures lightHelper == Some(h) && light == old(light)
    {
      lightHelper := Some(h);
    }
  }

  /** A directional light; the tp2 and tp3 classes are the same. */
  class DirectionalLight {
    const kind: string
    const config: DirectionalLightConfig
    var light: Option<SceneObject>
    var lightHelper: Option<SceneObject>

    constructor(config: DirectionalLightConfig)
      ensures kind == "DirectionalLight" && this.config == config
      ensures light == None && lightHelper == None
    {
      kind := "DirectionalLight";
      this.config := config;
      light := None;
      lightHelper := None;
    }

    method SetLight(l: SceneObject)
      modifies this
      ensures light == Some(l) && lightHelper == old(lightHelper)
    {
      light := Some(l);
    }

    method SetLightHelper(h: SceneObject)
      modifies this
      ensures lightHelper == Some(h) && light == old(light)
    {
      lightHelper := Some(h);
    }
  }
}
