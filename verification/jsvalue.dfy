/** How the scene builders' JavaScript reads a parsed JSON document:
    truthiness, property reads (which throw on `null` and `undefined`),
    `Object.entries`, `for...of` and `for...in`. `undefined` is `None`. */
module JsSemantics {
  import opened Wrappers
  import opened JsonValue
  import opened JsObjects

  /** JavaScript truthiness: `undefined`, `null`, `false`, `0` and `""` are
      falsy, everything else (objects and arrays included) is truthy. */
  predicate Truthy(v: Option<Json>)
  {
    match v
    case None => false
    case Some(JNull) => false
    case Some(JBool(b)) => b
    case Some(JNum(n)) => n != 0.0
    case Some(JStr(s)) => s != ""
    case Some(_) => true
  }

  /** `null` or `undefined`: the values `??` replaces and a property read
      throws on. */
  predicate IsNullish(v: Option<Json>)
  {
    v.None? || v == Some(JNull)
  }

  /** `v ? v : d`, and `v || d`, which is the same. */
  function OrDefault(v: Option<Json>, d: Json): Json
  {
    if Truthy(v) then v.value else d
  }

  /** `v ?? d`. */
  function Nullish(v: Option<Json>, d: Json): Json
  {
    if IsNullish(v) then d else v.value
  }

  /** `v[key]` on a value that is neither `null` nor `undefined`. An object
      gives the value of its last member with that key (the one `JSON.parse`
      keeps), arrays and strings their `length`; numbers and booleans have
      none of the keys the scene code reads. */
  function Get(v: Json, key: string): Option<Json>
  {
    match v
    case JObject(es) => LastValue(es, key)
    case JArray(xs) => if key == "length" then Some(JNum(|xs| as real)) else None
    case JStr(s) => if key == "length" then Some(JNum(|s| as real)) else None
    case _ => None
  }

  /** The decimal form of an integer. */
  function IntToString(i: int): string
  {
    if i >= 0 then NatToString(i) else "-" + NatToString(-i)
  }

  /** `String(x)`, where the model writes it out: `None` for a number that
      is not an integer of magnitude at most 2^53 (the digits of its
      nearest double are not modelled) and for an array holding one. Such a
      string always holds a digit. An object is `[object Object]`; an
      array joins its elements' strings with commas, `null` elements
      giving the empty string. */
  function JsString(x: Json): Option<string>
    decreases x, 1
  {
    match x
    case JNull => Some("null")
    case JBool(b) => Some(if b then "true" else "false")
    case JStr(s) => Some(s)
    case JNum(n) =>
      if n == n.Floor as real && -0x20_0000_0000_0000 <= n.Floor <= 0x20_0000_0000_0000 then Some(IntToString(n.Floor))
      else None
    case JObject(_) => Some("[object Object]")
    case JArray(items) => Joined(x, items)
  }

  /** `items.join(",")` for elements of the array `x`. */
  function Joined(ghost x: Json, items: seq<Json>): Option<string>
    requires forall i :: 0 <= i < |items| ==> items[i] < x
    decreases x, 0, |items|
  {
    if items == [] then Some("")
    else
      var head := if items[0] == JNull then Some("") else JsString(items[0]);
      var rest := Joined(x, items[1..]);
      if head.None? || rest.None? then None
      else if |items| == 1 then head
      else Some(head.value + "," + rest.value)
  }

  /** The property key `obj[x]` reads for a value `x`, `undefined` being
      `None`: JavaScript's `String(x)`. */
  function KeyOf(x: Option<Json>): (k: Option<string>)
    ensures x.None? ==> k == Some("undefined")
    ensures x.Some? && x.value.JStr? ==> k == Some(x.value.str)
  {
    if x.None? then Some("undefined") else JsString(x.value)
  }

  /** An array holding one string has that string as its key. */
  lemma SingletonKey(x: Json)
    requires x.JArray? && |x.items| == 1 && x.items[0].JStr?
    ensures KeyOf(Some(x)) == Some(x.items[0].str)
  {
    assert x.items[1..] == [];
    assert Joined(x, x.items[1..]) == Some("");
    assert JsString(x.items[0]) == Some(x.items[0].str);
    assert Joined(x, x.items) == Some(x.items[0].str);
  }

  /** The members every object inherits from `Object.prototype`. */
  const InheritedMembers: seq<string> :=
    ["__defineGetter__", "__defineSetter__", "__lookupGetter__", "__lookupSetter__", "__proto__",
     "constructor", "hasOwnProperty", "isPrototypeOf", "propertyIsEnumerable", "toLocaleString",
     "toString", "valueOf"]

  /** `v[key]` for a key a document chooses: an own member, or else, on an
      object, the member it inherits from `Object.prototype`. Each of those
      is a function (for `__proto__`, `Object.prototype` itself), with no
      enumerable own property and no property the scene code reads, so it
      stands here as the empty object. */
  function Member(v: Json, key: string): (r: Option<Json>)
    ensures Get(v, key).Some? ==> r == Get(v, key)
    ensures Get(v, key).None? && v.JObject? && key in InheritedMembers ==> r == Some(JObject([]))
    ensures Get(v, key).None? && !(v.JObject? && key in InheritedMembers) ==> r.None?
  {
    if Get(v, key).None? && v.JObject? && key in InheritedMembers then Some(JObject([])) else Get(v, key)
  }

  /** `v.key`: a TypeError when `v` is `null` or `undefined`. */
  function Prop(v: Option<Json>, key: string): (r: Result<Option<Json>>)
    ensures r.Err? <==> IsNullish(v)
    ensures r.Ok? ==> r.value == Get(v.value, key)
  {
    if IsNullish(v) then Err("TypeError: cannot read property '" + key + "' of null or undefined")
    else Ok(Get(v.value, key))
  }

  /** `Object.entries(v)`: an object's own properties in enumeration
      order, an array's elements and a string's characters under their
      decimal index, nothing for numbers and booleans; a TypeError on `null`
      and `undefined`. */
  function Entries(v: Option<Json>): (r: Result<seq<(string, Json)>>)
    ensures r.Err? <==> IsNullish(v)
    ensures r.Ok? && v.value.JObject? ==> r.value == OwnEntries(v.value.entries)
    ensures r.Ok? && v.value.JArray? ==> |r.value| == |v.value.items|
    ensures r.Ok? && v.value.JArray? ==>
              forall i :: 0 <= i < |r.value| ==> r.value[i].1 == v.value.items[i]
  {
    if IsNullish(v) then Err("TypeError: cannot convert undefined or null to object")
    else
      match v.value
      case JObject(es) => Ok(OwnEntries(es))
      case JArray(xs) => Ok(seq(|xs|, i requires 0 <= i < |xs| => (NatToString(i), xs[i])))
      case JStr(s) => Ok(seq(|s|, i requires 0 <= i < |s| => (NatToString(i), JStr([s[i]]))))
      case _ => Ok([])
  }

  /** On an object, `Object.entries` lists each key once, and the value it
      lists under a key is the one `v[key]` reads; a key is listed exactly
      when the object has a member with that key. */
  lemma EntriesAgreeWithGet(v: Json, key: string)
    requires v.JObject?
    ensures Entries(Some(v)).Ok? && DistinctKeys(Entries(Some(v)).value)
    ensures Lookup(Entries(Some(v)).value, key) == Get(v, key)
    ensures key in KeysOf(Entries(Some(v)).value) <==> key in KeysOf(v.entries)
  {
    OwnEntriesLookup(v.entries, key);
  }

  /** The values `v[i]` that `for (let i in v)` visits: the same as
      `Object.entries`, except that `null` and `undefined` visit nothing. */
  function ForInValues(v: Option<Json>): (xs: seq<Json>)
    ensures Entries(v).Ok? ==> |xs| == |Entries(v).value|
    ensures Entries(v).Ok? ==> forall i :: 0 <= i < |xs| ==> xs[i] == Entries(v).value[i].1
    ensures IsNullish(v) ==> xs == []
  {
    match Entries(v)
    case Ok(es) => seq(|es|, i requires 0 <= i < |es| => es[i].1)
    case Err(_) => []
  }

  /** `for (const x of v)`: an array yields its elements, a string its
      characters; any other value is not iterable and throws. */
  function ForOf(v: Option<Json>): (r: Result<seq<Json>>)
    ensures r.Ok? <==> v.Some? && (v.value.JArray? || v.value.JStr?)
    ensures r.Ok? && v.value.JArray? ==> r.value == v.value.items
  {
    match v
    case Some(JArray(xs)) => Ok(xs)
    case Some(JStr(s)) => Ok(seq(|s|, i requires 0 <= i < |s| => JStr([s[i]])))
    case _ => Err("TypeError: value is not iterable")
  }

  /** `new THREE.Vector3(v.x, v.y, v.z)`, kept as the three values read. */
  datatype Vec3 = Vec3(x: Option<Json>, y: Option<Json>, z: Option<Json>)

  /** `new THREE.Vector2(v.x, v.y)`, kept as the two values read. */
  datatype Vec2 = Vec2(x: Option<Json>, y: Option<Json>)

  /** `new THREE.Color(v.r, v.g, v.b)`, kept as the three values read. */
  datatype Rgb = Rgb(r: Option<Json>, g: Option<Json>, b: Option<Json>)

  /** The components of a vector read from a value that is neither null
      nor undefined. */
  function Vec3Of(v: Json): Vec3
  {
    Vec3(Get(v, "x"), Get(v, "y"), Get(v, "z"))
  }

  /** The two components of a planar point. */
  function Vec2Of(v: Json): Vec2
  {
    Vec2(Get(v, "x"), Get(v, "y"))
  }

  /** The channels of a colour. */
  function RgbOf(v: Json): Rgb
  {
    Rgb(Get(v, "r"), Get(v, "g"), Get(v, "b"))
  }

  /** Reads `v.x`, `v.y`, `v.z`; throws exactly when `v` is null or undefined. */
  function ReadVec3(v: Option<Json>): (r: Result<Vec3>)
    ensures r.Err? <==> IsNullish(v)
  {
    if IsNullish(v) then Err("TypeError: cannot read property 'x' of null or undefined")
    else Ok(Vec3Of(v.value))
  }

  /** Reads `v.r`, `v.g`, `v.b`; throws exactly when `v` is null or undefined. */
  function ReadRgb(v: Option<Json>): (r: Result<Rgb>)
    ensures r.Err? <==> IsNullish(v)
  {
    if IsNullish(v) then Err("TypeError: cannot read property 'r' of null or undefined")
    else Ok(RgbOf(v.value))
  }

  /** Reads `v.x`, `v.y`; throws exactly when `v` is null or undefined. */
  function ReadVec2(v: Option<Json>): (r: Result<Vec2>)
    ensures r.Err? <==> IsNullish(v)
  {
    if IsNullish(v) then Err("TypeError: cannot read property 'x' of null or undefined")
    else Ok(Vec2Of(v.value))
  }
}
