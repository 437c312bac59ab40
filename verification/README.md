# Scene-description core of MEIC-SGI, modelled in Dafny

MEIC-SGI is a set of Three.js course projects. Each project reads a scene
description, a JSON document with nodes, materials, textures, lights and
primitives, and turns it into a scene graph. This project models the parts of
that pipeline that are not drawing code:

- **The key normaliser** (`tp2/scenes/parse.py`). `lowercase_keys` lowercases
  every key of every object at every depth. Arrays are rebuilt element by
  element and scalars are returned unchanged. A Python dict comprehension
  builds each object, so when two keys lower to the same string, the later
  value overwrites the earlier one, which keeps its position. Objects are
  association lists (`JsonValue.Json`), so this overwrite can be stated
  exactly.
- **The scene-graph node builders**:
  - `tp3/MyNode.js` and `tp2/MyNode.js`, one model with a `Variant`;
  - `tp3/MyGraph.js`;
  - `tp2/MyGraph.js`, which has its own node and point-light classes.

  A node walks the entries of its definition in order:
  - transform entries set the vector of their kind;
  - `materialref` replaces the inherited material;
  - a truthy shadow flag is copied;
  - a `children` object adds nested nodes, lights and at most one primitive.

  The JavaScript reading of the document is modelled in `JsSemantics`:
  truthiness, property reads that throw on `null` and `undefined`,
  `Object.entries`, `for...of` and `for...in`. Every thrown `TypeError` is an
  `Err`.
- **The light descriptors** (`tp3/objects/*Light.js`, `tp2/objects/*Light.js`).
  Each constructor resolves its fields with `v ? v : default`, so an explicit
  0 takes the default, or with `v === false` for `enabled`. The setters
  replace one field each.
- **The integer and structural helpers of `tp2/MyContents.js`**:
  - NURBS control-point reshaping;
  - the vertex grid and triangle indices of a polygon;
  - the mipmap levels a texture loads;
  - the material lookups by name;
  - the wireframe visibility list;
  - the `??` and `||` defaults.
- **The menu's bitmap text** (`tp3/MyMenu.js`). Each character is uppercased,
  looked up in a fixed table of sprite-sheet cells, and placed at
  `x = 1.4·k`. Characters the table lacks are skipped.

Imperative code is modelled as classes and methods with loops. Each method
is proved to leave its object as a specification function describes (for
example `NodeBuilder.SceneNode.CreateChildren` against `SceneNodes.Built`).
The properties are then proved as lemmas about those functions.

Nested nodes are built by recursive constructor calls, and the source does
not guard against cycles. Every builder therefore takes a `depth`: the number
of further nested `MyNode` constructions the engine's call stack has room
for. A construction with no room left throws the `RangeError` an engine
raises on a full stack. So a node that lists itself throws, whatever the
depth (`NodeProperties.SelfReferenceOverflows`).

The document is read as JavaScript reads it after `JSON.parse`
(`JsObjects`). An object has one property per key: a repeated key keeps its
first position and its last value. `Object.entries` and `for...in` list the
array-index keys first, in ascending order, then the other keys in order of
definition. A property read `obj[x]` uses the key `String(x)`. For a key the
object lacks, it finds the members inherited from `Object.prototype`.

## Model

| member | source | states |
|---|---|---|
| `KeyNormaliser.LowerChar` | tp2/scenes/parse.py:5 | Lowering a character never yields an ASCII capital, and leaves every other character unchanged. |
| `KeyNormaliser.Lower` | tp2/scenes/parse.py:5 | A lowered key has the key's length and is lowered character by character. |
| `KeyNormaliser.LowerIdempotent` | tp2/scenes/parse.py:5 | A lowered key is already lowercase: lowering it again changes nothing. |
| `JsonValue.Dedup` | tp2/scenes/parse.py:5 | The keys in order of first occurrence: the same set of keys, none repeated, no more of them. |
| `JsonValue.Insert` | tp2/scenes/parse.py:5 | `d[k] = v` adds an entry exactly when `k` is new. |
| `JsonValue.InsertKeys` | tp2/scenes/parse.py:5 | After `d[k] = v` the keys are unchanged when `k` was present, otherwise `k` is appended at the end. |
| `JsonValue.InsertLookup` | tp2/scenes/parse.py:5 | After `d[k] = v`, `k` finds `v` and every other key finds what it found before. |
| `JsonValue.InsertEntries` | tp2/scenes/parse.py:5 | `d[k] = v` adds no entry other than `(k, v)`. |
| `JsonValue.InsertNew` | tp2/scenes/parse.py:5 | A new key is appended after all existing entries. |
| `JsonValue.DictOf` | tp2/scenes/parse.py:5 | The dict a comprehension builds from its pairs has no more entries than there are pairs. |
| `JsonValue.DictOfKeys` | tp2/scenes/parse.py:5 | The dict's keys are the pairs' keys, each once, in order of first occurrence. |
| `JsonValue.DictOfLookup` | tp2/scenes/parse.py:5 | Every key finds the value of the last pair with that key. |
| `JsonValue.DictOfEntries` | tp2/scenes/parse.py:5 | Every entry of the dict is one of the pairs. |
| `JsonValue.DictOfDistinct` | tp2/scenes/parse.py:5 | Pairs whose keys are all different come back unchanged. |
| `JsonValue.LastValue` | tp2/scenes/parse.py:5 | The value of the last pair with a key, which both a Python dict and `JSON.parse` keep, and `undefined` when no pair has that key. |
| `JsonValue.LastValueAt` | tp2/scenes/parse.py:5 | The pair with the last occurrence of a key supplies that key's value. |
| `KeyNormaliser.LowercaseKeys` | tp2/scenes/parse.py:3-9 | Objects stay objects and arrays stay arrays. Scalars are returned unchanged. An array keeps its length, and an object has at most as many entries as the input. |
| `KeyNormaliser.LoweredPairs` | tp2/scenes/parse.py:5 | The comprehension assigns `(k.lower(), lowercase_keys(v))` for each entry, in input order. |
| `KeyNormaliser.LoweredKeys` | tp2/scenes/parse.py:5 | The lowered keys of an object, in input order. |
| `KeyNormaliser.ShapePreserved` | tp2/scenes/parse.py:4-9 | Every scalar is kept at any depth, strings in arrays included. Each array keeps its length and order, element by element. Each output entry comes from an input entry whose key lowers to it. |
| `KeyNormaliser.ResultNormalised` | tp2/scenes/parse.py:5 | Every key of every object in the result, at any depth, is its own lowercase form, and no object repeats a key. |
| `KeyNormaliser.NormalisedFixed` | tp2/scenes/parse.py:3-9 | An already normalised value is returned unchanged. |
| `KeyNormaliser.Idempotent` | tp2/scenes/parse.py:3-9 | `lowercase_keys(lowercase_keys(x)) == lowercase_keys(x)`. |
| `KeyNormaliser.ObjectKeys` | tp2/scenes/parse.py:5 | The output keys are exactly the lowered input keys, each once, in order of first occurrence. So a key is present iff some input key lowers to it. |
| `KeyNormaliser.CollisionLastWins` | tp2/scenes/parse.py:5 | When several keys lower to the same key, the value of the last of them is kept. |
| `JsonValue.Lookup` | tp2/MyContents.js:530-534 | The first entry with a key in a list of properties: `undefined` iff no entry has that key. Otherwise it is the value of an entry with that key. |
| `JsonValue.LookupDistinct` | tp2/MyContents.js:530-534 | In an object without repeated keys, every entry is found by its own key. |
| `JsSemantics.Prop` | tp3/MyNode.js:91 | `v.key` throws iff `v` is null or undefined, and otherwise reads the key. |
| `JsObjects.NatToString` | tp3/MyNode.js:112 | The property name of an array index is a non-empty string of decimal digits. |
| `JsObjects.DigitsOfNat` | tp3/MyNode.js:112 | Reading back the decimal digits of a number gives the number. |
| `JsObjects.IndexKeyOfNat` | tp3/MyNode.js:112 | The decimal form of every number below 2^32 − 1 is an array-index key. |
| `JsObjects.IndexKeyUnique` | tp3/MyNode.js:83 | Two different array-index keys stand for different numbers, so ordering by number is strict. |
| `JsObjects.IndexEntries` | tp3/MyNode.js:83 | The properties whose key is an array index, in order. A property is kept exactly when its key is an array index. |
| `JsObjects.NamedEntries` | tp3/MyNode.js:83 | The other properties, in order. A property is kept exactly when its key is not an array index. |
| `JsObjects.InsertByIndex` | tp3/MyNode.js:83 | Placing one index property among others adds exactly that property. |
| `JsObjects.InsertByIndexSorted` | tp3/MyNode.js:83 | Placing an index property with a new key into a list sorted by index keeps it sorted. |
| `JsObjects.SortedByIndex` | tp3/MyNode.js:83 | Sorting the index properties keeps exactly the same properties. |
| `JsObjects.SortedByIndexSorted` | tp3/MyNode.js:83 | Index properties with distinct keys come out in strictly ascending numeric order. |
| `JsObjects.FiltersDistinct` | tp3/MyNode.js:83 | Splitting properties with distinct keys into index and other properties gives two parts with distinct keys and no key in common. |
| `JsObjects.DistinctCons` | tp3/MyNode.js:83 | A property with a new key, put before a list with distinct keys, gives a list with distinct keys. |
| `JsObjects.SameEntriesLookup` | tp3/MyNode.js:83 | Two lists with distinct keys holding the same properties find the same value under every key. |
| `JsObjects.EnumeratedOrder` | tp3/MyNode.js:83 | The enumeration order lists each property once and finds the same value under every key. Its index keys come first, in ascending order, and the other keys follow in their own order. |
| `JsObjects.OwnEntries` | tp3/MyNode.js:83 | The own properties of the object `JSON.parse` builds from the written members, in `Object.entries` order: duplicate keys collapsed to their first position with their last value, index keys first and ascending, then the other keys. |
| `JsObjects.EnumeratedPlain` | tp3/MyNode.js:83 | Properties with no index key are enumerated in the order they were defined. |
| `JsObjects.NamedAll` | tp3/MyNode.js:83 | With no index key, every property is a named one and none is an index one. |
| `JsObjects.OwnEntriesLookup` | tp3/MyNode.js:83 | After `JSON.parse`, `Object.entries` lists each written key once, with the value of its last member. Index keys come first in ascending order, then the other keys in order of first definition. |
| `JsObjects.LastValueNone` | tp3/MyNode.js:83 | No member gives a key a value exactly when no member is written with that key. |
| `JsObjects.OwnEntriesPlain` | tp3/MyNode.js:83 | An object written with distinct keys and no index key is enumerated exactly as written. |
| `JsSemantics.Get` | tp3/MyNode.js:91 | `v[key]`: an object gives the value of its last member with that key, and arrays and strings give their `length`. |
| `JsSemantics.IntToString` | tp3/MyNode.js:114 | The decimal form of an integer, with a minus sign when it is negative. |
| `JsSemantics.JsString` | tp3/MyNode.js:126 | `String(x)` for the values whose string is written out: `null`, booleans, strings, integers up to 2^53, `[object Object]`, and arrays joined with commas. |
| `JsSemantics.KeyOf` | tp3/MyNode.js:126 | The property key `obj[x]` reads: `undefined` reads `"undefined"`, and a string reads itself. |
| `JsSemantics.SingletonKey` | tp3/MyNode.js:126 | An array holding one string reads the property named by that string. |
| `JsSemantics.Member` | tp3/MyNode.js:83 | `obj[key]` is an own member when there is one. Otherwise an object finds the member it inherits from `Object.prototype`, and a key with neither is `undefined`. |
| `JsSemantics.Entries` | tp3/MyNode.js:83 | `Object.entries` throws iff its argument is null or undefined. On an object it gives the object's own properties in enumeration order: each key once, with its last value, index keys first. On an array it gives one entry per element, in order. |
| `JsSemantics.EntriesAgreeWithGet` | tp3/MyNode.js:83 | On an object, `Object.entries` lists each key once, under the value `v[key]` reads. It lists a key exactly when a member with that key is written. |
| `JsSemantics.ForInValues` | tp3/MyNode.js:112-114 | `for (i in v)` visits the values `Object.entries` gives, in the same enumeration order (index keys first, ascending), and nothing for null or undefined. |
| `JsSemantics.ForOf` | tp3/MyNode.js:59 | `for...of` succeeds iff the value is an array or a string. An array yields its elements. |
| `JsSemantics.ReadVec3` | tp3/MyNode.js:63 | `new Vector3(a.x, a.y, a.z)` throws iff `a` is null or undefined. |
| `JsSemantics.ReadRgb` | tp2/MyGraph.js:84 | `new Color(c.r, c.g, c.b)` throws iff `c` is null or undefined. |
| `JsSemantics.ReadVec2` | tp2/MyGraph.js:71-72 | `new Vector2(p.x, p.y)` throws iff `p` is null or undefined. |
| `NodeTransforms.KindOf` | tp3/MyNode.js:60-72 | An entry has a kind exactly when its `type` is the string `translate`, `rotate` or `scale`. |
| `NodeTransforms.TransformStep` | tp2/MyNode.js:45-57 | One transform entry throws iff it is null, or has a known kind and a null or undefined `amount`. An entry of unknown type changes nothing. |
| `NodeTransforms.CreateTransforms` | tp3/MyNode.js:57-59 | A value that is neither an array nor a string throws, and an array runs the loop over its elements. |
| `NodeTransforms.StepsThrow` | tp3/MyNode.js:59-77 | The loop throws iff one of its entries throws. |
| `NodeTransforms.StepSlot` | tp2/MyGraph.js:50-56 | An entry sets the vector of its own kind to its `amount` and keeps the other two. |
| `NodeTransforms.UnnamedKept` | tp3/MyNode.js:73-75 | A kind that no entry names keeps the vector it had. |
| `NodeTransforms.LastWins` | tp3/MyNode.js:59-76 | For each kind, the stored vector is the `amount` of the last entry of that kind. The same holds in tp2/MyNode.js:44-58 and tp2/MyGraph.js:49-57. |
| `SceneNodes.PrimitiveOf` | tp3/MyNode.js:16-24 | `PRIMITIVES.includes(type)`: a type names a primitive iff it is one of the seven primitive strings. |
| `SceneNodes.ClassOf` | tp3/MyNode.js:27-35 | `PRIMITIVE_CLASSES[type]` reads the key `String(type)`. It finds a primitive class iff that key is a primitive's name, `Object` iff the key is `constructor`, and a non-constructor iff the key is another inherited member. A primitive string finds its own class. |
| `SceneNodes.NodeOf` | tp3/MyNode.js:83 | `this.node[this.name]`, read under the key `String(name)`, inherited members included. |
| `SceneNodes.BuildNode` | tp3/MyNode.js:38-54 | `new MyNode(...)`: a node with the given name, material and flags, no transforms and no children, on which `createChildren` runs with room for `depth` further nested nodes. |
| `SceneNodes.Built` | tp3/MyNode.js:81-83 | `createChildren` throws when `this.node[this.name]` is null or undefined, and otherwise walks its entries. |
| `SceneNodes.NodeSteps` | tp3/MyNode.js:83-135 | The loop over a definition's entries, in enumeration order, stopping at the first throw. |
| `SceneNodes.NodeStep` | tp3/MyNode.js:86-134 | A `children` entry walks its object, and any other entry goes to `FieldStep`. |
| `SceneNodes.FieldStep` | tp3/MyNode.js:86-97 | `transforms` runs `createTransforms`. `materialref` replaces the material and throws on null. A truthy `castshadows` or `receiveshadows` sets that flag, in tp3 only. Anything else is ignored. |
| `SceneNodes.ChildrenEntry` | tp3/MyNode.js:98-100 | `Object.entries` of the `children` value throws on null, and the loop starts with `primitiveCount` at 0. |
| `SceneNodes.ChildSteps` | tp3/MyNode.js:100-133 | The loop over a `children` object, carrying `primitiveCount`, stopping at the first throw. |
| `SceneNodes.ChildStep` | tp3/MyNode.js:100-116 | Reading `type` throws on a null entry. An entry with a primitive-string type is counted, and skipped after the first. The node list adds its nodes, and any other entry goes to `Attach`. |
| `SceneNodes.Attach` | tp3/MyNode.js:117-132 | A light type adds its light (tp2 knows only the point light). Otherwise `PRIMITIVE_CLASSES[type]` decides. A primitive class adds a primitive unless its constructor throws. `Object` adds the entry itself. Another inherited member throws a `TypeError`, and no class adds nothing. |
| `SceneNodes.CornersOf` | tp3/objects/primitives/MyBox.js:9-11 | The corners a primitive's constructor reads `x` from: `xyz1` and `xyz2` for a box (also tp2/objects/primitives/MyBox.js:7-8), `xy1` and `xy2` for a tp2 rectangle (tp2/objects/primitives/MyRectangle.js:9-11), and none for the other primitives. |
| `SceneNodes.ReadCorners` | tp2/objects/primitives/MyRectangle.js:9-11 | Reading `x` of the corners in order throws exactly when one of them is `null` or `undefined`. |
| `SceneNodes.ByClass` | tp3/MyNode.js:126-131 | `new PRIMITIVE_CLASSES[type](valueAttr, ...)`. A primitive class appends its primitive, or throws the `TypeError` of its constructor's corner reads. `Object` appends the entry, another inherited member throws "not a constructor", and no class changes nothing. |
| `SceneNodes.ListedNodes` | tp3/MyNode.js:110-115 | Each name of a node list is built as a nested node with the current material and flags, and appended. With no room left on the stack, the first name throws a `RangeError`. |
| `NodeBuilder.SceneNode.constructor` | tp3/MyNode.js:38-50 | The fields start as given, with no transforms and no children. The tp2 constructor is tp2/MyNode.js:33-38. |
| `NodeBuilder.SceneNode.CreateTransforms` | tp3/MyNode.js:57-78 | Only `transforms` changes. It throws or becomes exactly what `NodeTransforms.CreateTransforms` gives. |
| `NodeBuilder.SceneNode.ApplyTransforms` | tp3/MyNode.js:59-77 | The loop over the entries stops at the first that throws, and otherwise leaves `transforms` as `TransformSteps` gives. |
| `NodeBuilder.SceneNode.ApplyTransform` | tp3/MyNode.js:60-76 | One transform entry leaves the transforms as `TransformStep` gives, or throws when it does. |
| `NodeBuilder.SceneNode.CreateChildren` | tp3/MyNode.js:81-136 | The node's fields become what `SceneNodes.Built` gives for their old values, and the call throws exactly when `Built` is an error. This covers both tp3 and tp2 (tp2/MyNode.js:61-91). |
| `NodeBuilder.SceneNode.ApplyEntries` | tp2/MyNode.js:62-90 | The loop over the definition's entries leaves the node as `SceneNodes.NodeSteps` gives. |
| `NodeBuilder.SceneNode.ApplyEntry` | tp3/MyNode.js:86-134 | One entry of the definition leaves the node as `SceneNodes.NodeStep` gives. |
| `NodeBuilder.SceneNode.SetField` | tp3/MyNode.js:86-97 | `transforms`, `materialref`, and a truthy `castshadows`/`receiveshadows` (tp3 only) each change their own field as `SceneNodes.FieldStep` gives. |
| `NodeBuilder.SceneNode.AddChildren` | tp3/MyNode.js:100-133 | The loop over a `children` object, with `primitiveCount` from 0, leaves the node as `SceneNodes.ChildSteps` gives. |
| `NodeBuilder.SceneNode.AddChild` | tp3/MyNode.js:101-116 | One child entry updates the node and the primitive count as `SceneNodes.ChildStep` gives. |
| `NodeBuilder.SceneNode.Attach` | tp3/MyNode.js:117-132 | A light, primitive or `Object` entry appends its child, or throws for a non-constructor, as `SceneNodes.Attach` gives. |
| `NodeBuilder.SceneNode.AttachClass` | tp3/MyNode.js:126-132 | An entry that is not a light appends a primitive or the entry itself. It throws for a primitive whose constructor throws and for a non-constructor. Otherwise it leaves the children as they were, as `SceneNodes.ByClass` gives. |
| `NodeBuilder.SceneNode.AddListed` | tp3/MyNode.js:110-115 | The node-list loop builds each named node and appends it, or throws a `RangeError` with no room left on the stack, as `SceneNodes.ListedNodes` gives. |
| `NodeProperties.CountedChildren` | tp3/MyNode.js:101-103 | The primitive children whose entry's `type` is a primitive string (the kind `primitiveCount` counts), in order. |
| `NodeProperties.CountedPush` | tp3/MyNode.js:128 | Appending a child adds it to the counted primitives exactly when it is one. |
| `NodeProperties.AttachAppends` | tp3/MyNode.js:117-132 | A light, primitive or `Object` entry changes only the children. It appends at most one child. It adds a counted primitive exactly when the entry's `type` is a primitive string, and that primitive is built from the entry with the current material and flags. |
| `NodeProperties.ByClassAppends` | tp3/MyNode.js:126-128 | When `new PRIMITIVE_CLASSES[type](...)` does not throw, it appends at most one child. That child is a counted primitive exactly when the type is a primitive string. |
| `NodeProperties.UnknownTypeIgnored` | tp3/MyNode.js:129-131 | An entry whose type is not a light of its version, and whose key `PRIMITIVE_CLASSES` lacks (own or inherited), leaves the node unchanged. |
| `NodeProperties.ObjectTypeKept` | tp3/MyNode.js:126-128 | A type whose key is `constructor` finds `Object`, and the entry itself is appended. |
| `NodeProperties.InheritedMemberThrows` | tp3/MyNode.js:126-128 | A type whose key is another inherited member (`toString`, `__proto__`, ...) is truthy but not a constructor, so the entry throws. |
| `NodeProperties.LightNamedByKey` | tp3/MyNode.js:117-125 | `pointlight`, `spotlight` and `directionallight` entries append a light of the matching class, named by the entry key and resolved from the entry. They throw exactly when that light's constructor does. |
| `NodeProperties.Tp2PointLightThrows` | tp2/MyNode.js:81-82 | tp2 calls the point-light constructor with the entry as its only argument, so a `pointlight` child always throws. |
| `NodeProperties.PrimitiveTakesCurrent` | tp2/MyNode.js:83-84 | A type whose key is a primitive's name appends that primitive, unless its constructor's corner reads throw. The primitive carries its entry and the material current when it is met, plus in tp3 the shadow flags (tp3/MyNode.js:126-128). |
| `NodeProperties.PrimitiveThrows` | tp3/objects/primitives/MyBox.js:9-11 | A primitive entry throws exactly when it is a box with a `null` or `undefined` `xyz1` or `xyz2`, or a tp2 rectangle with such an `xy1` or `xy2` (tp2/objects/primitives/MyRectangle.js:9-11). |
| `NodeProperties.ArrayTypeNotCounted` | tp3/MyNode.js:101-128 | The type `["cylinder"]` is not counted by `includes` but reads the key `cylinder`. So such an entry adds a cylinder even after a first primitive. |
| `NodeProperties.PrimitiveSkipped` | tp3/MyNode.js:101-108 | After a first primitive, an entry whose type is a primitive string is counted and skipped, even under the node-list key. |
| `NodeProperties.ListedOk` | tp2/MyNode.js:77-80 | A node list succeeds iff it is empty, or there is room on the stack and every named node can be built. With no room, a non-empty list throws a `RangeError`. |
| `NodeProperties.ListedAppends` | tp3/MyNode.js:112-115 | A node list only appends, exactly one child per name, and adds no counted primitive. |
| `NodeProperties.ListedHead` | tp3/MyNode.js:112-114 | A successful node list builds its first name's node and goes on from the node with that child appended. |
| `NodeProperties.ListedFirst` | tp3/MyNode.js:114 | The first child a node list appends is its first name's node. |
| `NodeProperties.ListedChild` | tp3/MyNode.js:114 | The child appended for the `i`-th name sits at position `i` after the existing children. It is that name built from the same scene, with the material and shadow flags current at that moment. |
| `NodeProperties.SelfDefinitionEntries` | tp3/MyNode.js:83 | The constructor of a node defined by that listing enumerates exactly its one `children` entry. |
| `NodeProperties.SelfListEntries` | tp3/MyNode.js:100 | Its `children` object enumerates exactly the `nodesList` entry. |
| `NodeProperties.SelfListValues` | tp3/MyNode.js:112 | The loop over the node list `[name]` visits exactly the node's own name. |
| `NodeProperties.SelfListed` | tp3/MyNode.js:110-115 | A node list `[name]` throws the `RangeError` when building `name` throws it, or when no room is left on the stack. |
| `NodeProperties.SelfBuilt` | tp3/MyNode.js:83-115 | A node defined by that listing throws whatever its node list throws. |
| `NodeProperties.SelfReferenceOverflows` | tp3/MyNode.js:110-115 | In any scene, a node whose definition is only a node list naming itself makes the constructor call itself without end, and the construction throws a `RangeError` whatever the room on the stack. |
| `NodeProperties.FirstPrimitive` | tp3/MyNode.js:101-109 | The counted primitive a `children` object adds: at most one, and none once a primitive has been met. Otherwise it is that of the first entry whose type is a primitive string, unless that entry is the node list. |
| `NodeProperties.FirstPrimitiveAt` | tp3/MyNode.js:101-109 | `FirstPrimitive` is the primitive of the first entry with a primitive-string type, unless that entry is the node list. It is nothing when no entry has such a type. |
| `NodeProperties.FirstPrimitiveCons` | tp3/MyNode.js:100-103 | `FirstPrimitive` splits at the first entry, and the count goes up when that entry is counted. |
| `NodeProperties.ChildStepAppends` | tp3/MyNode.js:101-109 | One child entry only appends children. It raises the count exactly when its type is a primitive string, and adds exactly `FirstPrimitive` of itself to the counted primitives. |
| `NodeProperties.ChildStepsAppend` | tp2/MyNode.js:69-88 | The loop over a `children` object only appends children, and the counted primitives it adds are exactly `FirstPrimitive` of its entries. |
| `NodeProperties.OnePrimitivePerObject` | tp3/MyNode.js:98-109 | A `children` entry only appends children. The counted primitives it adds are the first primitive entry's primitive and nothing else, so at most one: later primitive entries are skipped. |
| `NodeProperties.FieldStepEffect` | tp3/MyNode.js:89-97 | A non-`children` entry keeps the name and children. The material changes exactly for `materialref`, to its `materialId`, and the transforms only for `transforms`. A shadow flag changes only to a truthy value, so a truthy flag is never cleared, and tp2 never changes it. |
| `NodeProperties.NodeStepEffect` | tp3/MyNode.js:86-134 | One entry of a definition keeps the name, only appends children, keeps truthy flags, and changes the material exactly for `materialref`. |
| `NodeProperties.NodeStepsEffect` | tp3/MyNode.js:83-135 | `createChildren` keeps the name and never removes a child. A truthy flag stays truthy. Without a `materialref` entry, the node keeps the material it inherited. |
| `NodeProperties.LastMaterialWins` | tp2/MyNode.js:66-67 | The material is the `materialId` of the last `materialref` entry (also tp3/MyNode.js:89-91). |
| `SceneGraph.GraphRoot` | tp3/MyGraph.js:12-16 | `new MyGraph`: reading `rootid` throws on a null document. Otherwise it builds the node named by `rootid`, with the material `""` and both flags `false`. |
| `SceneGraph.NewGraph` | tp3/MyGraph.js:12-17 | The graph constructor returns the root node exactly as `GraphRoot` describes, or throws exactly when it does. |
| `SceneGraph.RootDefaults` | tp3/MyGraph.js:15-16 | The root is the node named by `rootid`. Its material stays `""` without a `materialref`. Each shadow flag is `false` unless a truthy value set it. |
| `Lights.EnabledOf` | tp3/objects/MyPointLight.js:9 | `enabled` is false iff the descriptor's value is exactly `false`. Absent, null or 0 give true. |
| `Lights.PointLightOf` | tp3/objects/MyPointLight.js:5-25 | The point-light constructor succeeds iff the descriptor, its `color` and its `position` are all non-nullish. |
| `Lights.PointLightFields` | tp2/objects/MyPointLight.js:4-14 | Name and colour are copied, and `enabled` is false only for `false`. `intensity`, `distance`, `decay`, `castshadow`, `shadowfar` and `shadowmapsize` keep a truthy value and otherwise take 1, 1000, 2, false, 500 and 512. The position is copied component-wise. The same rules hold in tp3/objects/MyPointLight.js:8-25. |
| `Lights.PointLightNeverZero` | tp3/objects/MyPointLight.js:13-25 | Every defaulted numeric field of a point light is truthy, so an explicit 0 never survives. |
| `Lights.SpotLightOf` | tp3/objects/MySpotLight.js:4-30 | The spot-light constructor succeeds iff the descriptor, its `color`, `position` and `target` are all non-nullish. |
| `Lights.SpotLightFields` | tp2/objects/MySpotLight.js:4-17 | The point-light rules apply, plus: `penumbra` defaults to 1 when falsy, `angle` is copied with no default, and `target` is copied component-wise. The same rules hold in tp3/objects/MySpotLight.js:7-30. |
| `Lights.SpotLightNeverZero` | tp3/objects/MySpotLight.js:12-30 | Every defaulted numeric field of a spot light, penumbra included, is truthy. |
| `Lights.DirectionalLightOf` | tp3/objects/MyDirectionalLight.js:5-30 | The directional-light constructor succeeds iff the descriptor, its `color` and its `position` are all non-nullish. |
| `Lights.DirectionalLightFields` | tp2/objects/MyDirectionalLight.js:4-17 | `intensity` defaults to 1 and `castShadow` to false. The shadow bounds default to −5, 5, −5 and 5, `shadowFar` to 500 and `shadowMapSize` to 512, each when falsy. The same rules hold in tp3/objects/MyDirectionalLight.js:10-30. |
| `Lights.DirectionalLightNeverZero` | tp3/objects/MyDirectionalLight.js:14-30 | No shadow bound and no other defaulted field of a directional light is ever 0. |
| `Lights.PointLight.constructor` | tp3/objects/MyPointLight.js:6-28 | `type` is "PointLight", and `light` and `lightHelper` start null. |
| `Lights.PointLight.SetLight` | tp3/objects/MyPointLight.js:31-33 | Sets `light` and leaves `lightHelper` as it was. |
| `Lights.PointLight.SetLightHelper` | tp3/objects/MyPointLight.js:35-37 | Sets `lightHelper` and leaves `light` as it was. |
| `Lights.SpotLight.constructor` | tp3/objects/MySpotLight.js:5-33 | `type` is "SpotLight", and both objects start null. |
| `Lights.SpotLight.SetLight` | tp3/objects/MySpotLight.js:37-39 | Sets only `light`. |
| `Lights.SpotLight.SetLightHelper` | tp3/objects/MySpotLight.js:41-43 | Sets only `lightHelper`. |
| `Lights.DirectionalLight.constructor` | tp2/objects/MyDirectionalLight.js:5-20 | `type` is "DirectionalLight", and both objects start null (also tp3/objects/MyDirectionalLight.js:7-33). |
| `Lights.DirectionalLight.SetLight` | tp2/objects/MyDirectionalLight.js:23-25 | Sets only `light` (also tp3/objects/MyDirectionalLight.js:37-39). |
| `Lights.DirectionalLight.SetLightHelper` | tp3/objects/MyDirectionalLight.js:41-43 | Sets only `lightHelper` (also tp2/objects/MyDirectionalLight.js:27-29). |
| `Tp2Graph.LightRecordOf` | tp2/MyGraph.js:80-90 | The tp2 graph's point light throws iff `color` or `position` is null or undefined. |
| `Tp2Graph.BuildNode` | tp2/MyGraph.js:35-46 | `new MyNode(name, value, node)`: `value.nodeId` throws on null. The node starts with a `null` material and no transforms, corners or children, then runs `createChildren` with room for `depth` nested nodes. |
| `Tp2Graph.Built` | tp2/MyGraph.js:60-61 | `createChildren` throws when `node[name]` is null or undefined, and otherwise walks its entries. |
| `Tp2Graph.NodeSteps` | tp2/MyGraph.js:61-76 | The loop over a definition's entries, stopping at the first throw. |
| `Tp2Graph.NodeStep` | tp2/MyGraph.js:62-75 | `transforms` runs `createTransforms`, `materialref` sets the material, `children` walks its entries, and anything else is ignored. |
| `Tp2Graph.ChildSteps` | tp2/MyGraph.js:67-74 | The loop over a `children` object, stopping at the first throw. |
| `Tp2Graph.ChildStep` | tp2/MyGraph.js:68-73 | A `noderef` adds the nested node with that key, and throws a `RangeError` with no room left on the stack. A `rectangle` sets both corners, and anything else is ignored. |
| `Tp2Graph.RootStep` | tp2/MyGraph.js:24-28 | A root `noderef` becomes a node, a `pointlight` a light record, and anything else nothing. |
| `Tp2Graph.RootSteps` | tp2/MyGraph.js:23-29 | The root loop appends what each entry gives, stopping at the first throw. |
| `Tp2Graph.RootOf` | tp2/MyGraph.js:15 | `node[node.rootid]`, read under the key `String(rootid)`. |
| `Tp2Graph.RootChildren` | tp2/MyGraph.js:23 | Reading the root's `children` throws on null or undefined, and the loop starts from no children. |
| `Tp2Graph.GraphOf` | tp2/MyGraph.js:11-20 | Reading `rootid`, the root's `type` and its `children` throws on null or undefined. Otherwise the graph holds `rootid`, the root's `type` and its children. |
| `Tp2Properties.LightRecordVerbatim` | tp2/MyGraph.js:82-88 | The tp2 graph's point light copies every field as read, with no default. An intensity of 0 stays 0 there, but becomes 1 in the scene graph's point light. |
| `Tp2GraphBuilder.NodeObject.constructor` | tp2/MyGraph.js:35-43 | A node starts with its key as name, the entry's `nodeId`, a null material, and no transforms, corners or children. |
| `Tp2GraphBuilder.NodeObject.CreateTransforms` | tp2/MyGraph.js:48-58 | Only `transforms` changes, as `NodeTransforms.CreateTransforms` gives. |
| `Tp2GraphBuilder.NodeObject.ApplyTransforms` | tp2/MyGraph.js:49-56 | The loop over the entries stops at the first that throws, and otherwise leaves `transforms` as `TransformSteps` gives. |
| `Tp2GraphBuilder.NodeObject.ApplyTransform` | tp2/MyGraph.js:50-56 | One transform entry, as `TransformStep` gives. An unknown type is silently ignored. |
| `Tp2GraphBuilder.NodeObject.CreateChildren` | tp2/MyGraph.js:60-77 | The node becomes what `Tp2Graph.Built` gives, or throws exactly when that is an error. |
| `Tp2GraphBuilder.NodeObject.ApplyEntry` | tp2/MyGraph.js:62-75 | One entry of the definition, as `Tp2Graph.NodeStep` gives. |
| `Tp2GraphBuilder.NodeObject.AddChildren` | tp2/MyGraph.js:67-74 | The loop over a `children` object, as `Tp2Graph.ChildSteps` gives. |
| `Tp2GraphBuilder.NodeObject.AddChild` | tp2/MyGraph.js:68-73 | A `noderef` appends the node built for its key, and a `rectangle` sets both corners, as `Tp2Graph.ChildStep` gives. |
| `Tp2GraphBuilder.GraphObject.constructor` | tp2/MyGraph.js:12-17 | The graph records `rootid` and the root's `type`, and starts with no children. |
| `Tp2GraphBuilder.GraphObject.CreateChildren` | tp2/MyGraph.js:22-30 | Throws iff the root's `children` is nullish or a step throws. Otherwise appends what `Tp2Graph.RootSteps` gives. |
| `Tp2GraphBuilder.GraphObject.AddRootChild` | tp2/MyGraph.js:24-28 | A root entry appends a node for `noderef`, a light record for `pointlight`, and nothing otherwise. |
| `Tp2GraphBuilder.NewGraph` | tp2/MyGraph.js:11-20 | The constructor gives exactly `Tp2Graph.GraphOf`, throws included. |
| `Tp2GraphBuilder.BuildGraph` | tp2/MyGraph.js:16-19 | Once the root's definition is read, the graph is `rootid`, the root's `type` and the root's children. |
| `Tp2Properties.ChildNames` | tp2/MyGraph.js:69 | One name per child node. |
| `Tp2Properties.ChildStepKeeps` | tp2/MyGraph.js:68-73 | A child entry keeps the node's name and `nodeId`. |
| `Tp2Properties.ChildStepsKeep` | tp2/MyGraph.js:67-74 | The loop over a `children` object keeps the name and `nodeId`. |
| `Tp2Properties.NodeStepsKeep` | tp2/MyGraph.js:61-76 | `createChildren` keeps the name and `nodeId`. |
| `Tp2Properties.BuildNodeName` | tp2/MyGraph.js:36-37 | A built node is named by its entry key and carries the entry's `nodeId`. |
| `Tp2Properties.ChildStepEffect` | tp2/MyGraph.js:70-72 | A child entry changes only the corners and the children. A `rectangle` whose corners can be read sets the corners, and a `noderef` appends the node built for its key. |
| `Tp2Properties.ChildrenEffectCompose` | tp2/MyGraph.js:67 | The effects of one child entry and of the rest of the loop compose into the effect of the whole loop. |
| `Tp2Properties.ChildStepsEffect` | tp2/MyGraph.js:67-74 | A `children` object appends one node per `noderef`, named by its key, in order. The corners are those of its last rectangle, and nothing else changes. |
| `Tp2Properties.NodeStepEffect` | tp2/MyGraph.js:62-75 | One entry: the material changes only for `materialref`, and the corners and child names follow its `children` object. |
| `Tp2Properties.NodeEffectCompose` | tp2/MyGraph.js:61 | The effects of one entry and of the rest of the loop compose. |
| `Tp2Properties.NodeStepsEffect` | tp2/MyGraph.js:61-77 | `createChildren` leaves the material of the last `materialref`, the corners of the last rectangle, and one child per `noderef`, in order. |
| `Tp2Properties.BuildNodeEffect` | tp2/MyGraph.js:41 | A nested node does not inherit a material: it is null unless its own `materialref` sets it. Its corners are those of its last readable `rectangle`. It has one child per `noderef`, named by the key. |
| `Tp2Properties.ChildStepId` | tp2/MyGraph.js:69 | A child entry treats nodes that differ only in `nodeId` alike. |
| `Tp2Properties.ChildStepsId` | tp2/MyGraph.js:67-74 | The same for the loop over a `children` object. |
| `Tp2Properties.NodeStepId` | tp2/MyGraph.js:62-75 | The same for one entry of a definition. |
| `Tp2Properties.NodeStepsId` | tp2/MyGraph.js:61-76 | The same for the loop over a definition. |
| `Tp2Properties.BuiltId` | tp2/MyGraph.js:60-77 | `createChildren` never reads `nodeId`. |
| `Tp2Properties.BuiltSteps` | tp2/MyGraph.js:61 | `createChildren` on a readable definition is the loop over its entries. |
| `Tp2Properties.NodeIdIgnored` | tp2/MyGraph.js:37 | `nodeId` is stored but never used. Two entries with the same key build the same node, or throw the same error, up to the `nodeId`. |
| `Tp2Properties.RootNames` | tp2/MyGraph.js:25-27 | One name per root child. |
| `Tp2Properties.RootStepNames` | tp2/MyGraph.js:24-28 | A root entry adds a child named by its key iff it is a `noderef` or a `pointlight`. |
| `Tp2Properties.RootStepsNames` | tp2/MyGraph.js:23-29 | The root loop appends one child per `noderef` or `pointlight` entry, by key and in order. Every other type is dropped. |
| `Tp2Properties.GraphShape` | tp2/MyGraph.js:14-29 | The graph's root is `node[node.rootid]`. The graph records its `type` and keeps exactly its `noderef` and `pointlight` children, in order. |
| `SceneContents.FlattenAt` | tp2/MyContents.js:879-892 | Rows of `last + 1` entries flatten so that entry `(u, v)` sits at `u·(last+1)+v`. |
| `SceneContents.FlattenLength` | tp2/MyContents.js:879-893 | Rows of equal width `w` flatten to `rows·w` entries. |
| `SceneContents.PointOf` | tp2/MyContents.js:882-888 | A control point that is neither null nor undefined becomes `[point.x, point.y, point.z, 1]`. |
| `SceneContents.MapSeq` | tp2/MyContents.js:882-888 | Converting each point keeps the count and the order. |
| `SceneContents.ConvertRow` | tp2/MyContents.js:881-891 | The inner loop succeeds iff the `degree_v + 1` points from the running index exist and are not null. It then gives those points with `w = 1`. |
| `SceneContents.ConvertControlPoints` | tp2/MyContents.js:874-895 | Succeeds iff the first `(du+1)(dv+1)` points exist and are not null. The result has `du + 1` rows of `dv + 1` points, and point `[u][v]` is `controlPoints[u·(dv+1)+v]` with `w = 1`. Trailing points are unused. |
| `SceneContents.VertexRow` | tp2/MyContents.js:952-963 | The inner vertex loop produces slices `0 .. j - 1` of one stack, in order. |
| `SceneContents.VertexGridAt` | tp2/MyContents.js:950-964 | The grid of `n` stacks has `n·(slices+1)` vertices, and vertex `(i, j)` sits at `i·(slices+1)+j`. |
| `SceneContents.VertexGridLength` | tp2/MyContents.js:950-952 | `n` stacks give `n·(slices+1)` vertices. |
| `SceneContents.CellIndicesBelow` | tp2/MyContents.js:969-973 | Both triangles of a cell of stack `i` address vertices of stacks `i` and `i + 1` only. |
| `SceneContents.RowIndicesShape` | tp2/MyContents.js:968-974 | One stack gives six indices per cell, all below the vertex count of the next stack. |
| `SceneContents.GridIndices` | tp2/MyContents.js:967-975 | The triangles of every cell, stack by stack and slice by slice. |
| `SceneContents.GridIndicesShape` | tp2/MyContents.js:967-975 | `stacks` stacks give `6·stacks·slices` indices, each below `(stacks+1)(slices+1)`. |
| `SceneContents.PolygonBuffers` | tp2/MyContents.js:944-975 | There are exactly `(stacks+1)(slices+1)` vertices, with vertex `(i, j)` at `i·(slices+1)+j`, and as many normals (all `(0,0,1)`) and colours (one per vertex, by its stack). The index list is the triangle grid: `6·stacks·slices` entries, each below the vertex count. |
| `SceneContents.PolygonVertices` | tp2/MyContents.js:950-964 | The vertex loops produce the vertex grid stack by stack, with one normal `(0,0,1)` and one colour per vertex. |
| `SceneContents.PolygonIndices` | tp2/MyContents.js:967-975 | The index loops produce the triangles of every cell, stack by stack. |
| `SceneContents.PushStackIndices` | tp2/MyContents.js:968-974 | The inner index loop appends the triangles of every cell of one stack, in order. |
| `SceneContents.MipmapSlots` | tp2/MyContents.js:182 | The eight entries `mipmap0` to `mipmap7` of a texture, level by level. |
| `SceneContents.TruthyLevels` | tp2/MyContents.js:181-184 | The levels whose `mipmap${i}` entry is truthy, in increasing order, each with its path. |
| `SceneContents.Mipmaps` | tp2/MyContents.js:180-185 | No mipmap loads unless `mipmap0` is truthy. Otherwise the truthy levels 0 to 7 load. |
| `SceneContents.TruthyLevelsSorted` | tp2/MyContents.js:181-184 | The levels collected below `n` are strictly increasing. Each has a truthy entry and is loaded from that entry. |
| `SceneContents.TruthyLevelsComplete` | tp2/MyContents.js:181-185 | A level below `n` is collected iff its entry is truthy. |
| `SceneContents.MipmapsExact` | tp2/MyContents.js:180-185 | Mipmaps load only when `mipmap0` is truthy. Then exactly the levels 0 to 7 whose `mipmap${i}` entry is truthy load, in increasing order, each from its own path. |
| `SceneContents.MipmapLoads` | tp2/MyContents.js:180-189 | The loop loads exactly `Mipmaps(texture)`, and the nearest-filter fallback is taken iff `mipmap0` is falsy. |
| `SceneContents.MaterialNamed` | tp2/MyContents.js:530-531 | The lookup throws iff the materials object is null or undefined. A match requires a string argument that is a material's name. |
| `SceneContents.MaterialNamedEntry` | tp2/MyContents.js:541-544 | A material's name finds the descriptor `JSON.parse` keeps for it: that of the last member written with that name. |
| `SceneContents.FindMaterial` | tp2/MyContents.js:530-535 | The loop with early return finds the first entry whose name `===` the argument, or none. |
| `SceneContents.MaterialLenSLenT` | tp2/MyContents.js:528-536 | `undefined` iff no material has that name. Otherwise it returns that material's `texlength_s` and `texlength_t`. It throws when the materials object or the found descriptor is null. |
| `SceneContents.MaterialWireframe` | tp2/MyContents.js:539-547 | `undefined` when no material has that name. Otherwise it returns that material's `wireframe` field. It throws on a null materials object or descriptor. |
| `SceneContents.Toggled` | tp2/MyContents.js:1075-1076 | The list keeps its length. The entry at `index` is set when it exists, and every other entry is unchanged. |
| `SceneContents.ToggledIdempotent` | tp2/MyContents.js:1074-1078 | Toggling the same entry to the same value twice is toggling it once. |
| `SceneContents.Wireframes.constructor` | tp2/MyContents.js:55 | The wireframe list starts empty. |
| `SceneContents.Wireframes.Register` | tp2/MyContents.js:1051-1066 | A wireframe is appended last, visible exactly when its material's `wireframe` value is truthy. |
| `SceneContents.Wireframes.Toggle` | tp2/MyContents.js:1074-1078 | Changes `wireframes[index].visible` only when that entry exists. All other entries are untouched. |
| `SceneContents.ThetaStart` | tp2/MyContents.js:736 | `object.thetastart ?? 0`, in degrees. |
| `SceneContents.ThetaLength` | tp2/MyContents.js:737 | `object.thetalength ?? 360`, in degrees. |
| `SceneContents.BumpScale` | tp2/MyContents.js:220 | `values.bumpscale ?? 1.0`. |
| `SceneContents.TextureRepeat` | tp2/MyContents.js:197 | `values.texlength_s \|\| 1` and `values.texlength_t \|\| 1`. |
| `SceneContents.NullishVersusOr` | tp2/MyContents.js:197 | `v ?? d` and `v \|\| d` differ exactly on a falsy value that is not null or undefined (`false`, `0`, `""`) and is not the default itself. `??` keeps such a value and `\|\|` replaces it. |
| `SceneContents.ExplicitZeroDefaults` | tp2/MyContents.js:736-737 | An explicit 0 survives in `thetastart`, `thetalength` (`??`) and `bumpscale` (line 220), but a texture length of 0 becomes 1 (`\|\|`, line 197). Absent values take 0, 360 and 1. |
| `MenuText.CharCell` | tp3/MyMenu.js:223-234 | `charMap`: the sprite-sheet cell of each character it lists, and `undefined` for the rest. |
| `MenuText.ToUpper` | tp3/MyMenu.js:245 | `toUpperCase` for the characters whose capital is in the table. The result is never a lowercase ASCII letter, `ç`, `ı` or `ſ`. |
| `MenuText.Glyphs` | tp3/MyMenu.js:244-246 | The cells of the text's characters that the table knows, in text order: never more cells than characters. |
| `MenuText.SpriteFor` | tp3/MyMenu.js:248-249 | The cell's column is `index mod 15` and its row `index div 15`: `row·15 + column == index`, with column below 15. |
| `MenuText.Placed` | tp3/MyMenu.js:263 | The `k`-th sprite is the `k`-th glyph's cell, placed at `x = 1.4·k`. |
| `MenuText.GlyphsAppend` | tp3/MyMenu.js:244-246 | The glyphs of a text are those of its parts, in order. |
| `MenuText.GlyphsOfChar` | tp3/MyMenu.js:245-246 | A character absent from `charMap` adds no glyph. Any other character adds exactly its own cell. |
| `MenuText.GlyphsIgnoreCase` | tp3/MyMenu.js:245 | Lookup happens after `toUpperCase`, so uppercasing the text first changes nothing. |
| `MenuText.CharCellInverse` | tp3/MyMenu.js:223-234 | `charMap` is one to one: the cell of a character shows that character. Every cell is below 15·8. |
| `MenuText.GlyphCellsDistinct` | tp3/MyMenu.js:223-237 | Characters with different capitals get different cells. Every cell is below 15·8, so every row is below 8. |
| `MenuText.SpriteGroup.constructor` | tp3/MyMenu.js:221 | A group starts with no sprites. |
| `MenuText.SpriteGroup.Add` | tp3/MyMenu.js:267 | `group.add` appends one sprite after the others. |
| `MenuText.GlyphsPrefix` | tp3/MyMenu.js:245-246 | One more character adds its cell when it has one, and nothing otherwise. |
| `MenuText.PlacedSnoc` | tp3/MyMenu.js:263-270 | One more glyph places one more sprite after the others, at `1.4 ·` the number already placed. |
| `MenuText.ConvertTextToSprite` | tp3/MyMenu.js:221-272 | The group keeps its old sprites and gains, in text order, one sprite per mappable character, the `k`-th at `x = 1.4·k` with its cell's column and row. |
| `MenuText.PlaceText` | tp3/MyMenu.js:242-271 | The loop appends exactly the placed glyphs of the text, advancing `xOffset` by 1.4 only when a sprite is added. |

## Left out

- The normaliser's file reading and writing (tp2/scenes/parse.py:11-24) is not modelled; the model takes an already-parsed JSON value.
- `KeyNormaliser.LowerChar`: lowers ASCII letters only. Python's `str.lower` is Unicode-aware, but the idempotence and shape properties hold for any idempotent lowering.
- Numbers are exact reals. JavaScript's and Python's floating point, and the degree-to-radian conversions, are not modelled. `SpotLightConfig.angleDegrees` keeps the value as read.
- `JsSemantics.KeyOf`: the key of a number that is not an integer of magnitude at most 2^53, or of an array holding one, is not modelled. Such a key holds a digit, and the model reads it as absent. No primitive name and no inherited member holds a digit, so no branch of `PRIMITIVE_CLASSES[type]` is lost. A node name with such a key reads as an absent node and throws.
- `JsSemantics.Get`: reads no array or string element by index key and no inherited member. Inherited members are read only through `JsSemantics.Member`, for the keys a document chooses (node names and `PRIMITIVE_CLASSES[type]`). Every other key the scene code reads is one that no prototype has.
- `SceneNodes.BuildNode`: `depth` counts nested constructions, while a real engine's limit depends on frame sizes and on the engine. A cycle throws a `RangeError` at some depth, as in an engine, but the model does not fix the depth at which a deep acyclic scene overflows.
- The `console.warn` and `console.error` messages are not modelled, only the control flow around them: tp3/MyNode.js:75, 106 and 131, and tp2/MyNode.js:56, 73 and 86.
- `createPolygon` throws when `color_c` or `color_p` is missing (tp2/MyContents.js:941-942). The model takes the polygon's sizes as numbers and does not model the colour objects, so it does not capture this throw.
- Primitive classes are opaque records. A primitive child keeps its type, its entry, and the material and flags it was given. The node's `transforms` object is shared with its primitives, so they carry no copy of it. Of their constructors, only the corner reads of `MyBox` and the tp2 `MyRectangle` are modelled, because they are the only reads that can throw. tp3/objects/primitives/MyRectangle.js, MyNurbs.js, MyPolygon.js and MySphere.js are not part of this model: the tp3 rectangle, NURBS, polygon and sphere are taken to be built without throwing. The `MyPrimitive` base constructor is not part of this model either.
- The tp2 `MyGraph.js` constructor assigns `this.children = []` twice. The model assigns it once, which has the same effect.
- `updateLightHelper`, and the Three.js light and helper objects themselves (`SceneObject` stands for them), are not modelled.
- The trigonometric vertex positions and the colour interpolation of `createPolygon` are not modelled. A vertex is kept as its (stack, slice) pair and a colour as its stack index.
- `stacks`, `slices`, `degree_u` and `degree_v` are taken as natural numbers. Other JavaScript values, such as `NaN` from a division by 0 stacks, are floating point and not modelled.
- `SceneContents.ConvertControlPoints`: takes the control points as an array of JSON values. A non-array `controlpoints` value is not modelled.
- Texture loading is not modelled: `loadMipmap` (an asynchronous callback), `generateMipmaps`, `needsUpdate`, video textures, and the texture library calls.
- `SceneContents.Wireframes.Toggle`: the index is an integer and the visibility a boolean; other JavaScript index and value types are not modelled. A wireframe overlay is kept only as its visibility flag.
- `MenuText.ToUpper`: only the characters whose capital is a table entry are uppercased (ASCII letters, `ç`, `ı`, `ſ`). Every other character keeps its own form, which gives the same lookup result.
- The sprite sheet's loading and cloning, the UV offsets and repeat, and the sprite scale are not modelled. A sprite is kept as its cell and its x position, and `xOffset` adds exactly 1.4 per sprite with no floating-point rounding.
- `MenuText.SpriteGroup.Add`: a Three.js group has further `add` semantics (re-parenting, events). Only the append is modelled.
