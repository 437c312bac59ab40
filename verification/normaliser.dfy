/** The JSON key normaliser of the scene tool chain: `lowercase_keys`
    rebuilds a parsed JSON value with every object key lowercased, at every
    depth, and leaves arrays and scalars as they are. */
module KeyNormaliser {
  import opened Wrappers
  import opened JsonValue

  // ---------------------------------------------------------------------
  // Lowercasing (`str.lower`, on ASCII letters)
  // ---------------------------------------------------------------------

  function LowerChar(c: char): (d: char)
    ensures !('A' <= d <= 'Z')
    ensures !('A' <= c <= 'Z') ==> d == c
  {
    if 'A' <= c <= 'Z' then (c as int + 32) as char else c
  }

  function Lower(s: string): (t: string)
    ensures |t| == |s|
    ensures forall i :: 0 <= i < |s| ==> t[i] == LowerChar(s[i])
  {
    seq(|s|, i requires 0 <= i < |s| => LowerChar(s[i]))
  }

  /** A key that lowercasing leaves alone. */
  predicate IsLower(s: string)
  {
    Lower(s) == s
  }

  /** `str.lower` is idempotent: a lowered key is already lowercase. */
  lemma LowerIdempotent(s: string)
    ensures IsLower(Lower(s))
  {
  }

  // ---------------------------------------------------------------------
  // lowercase_keys
  // ---------------------------------------------------------------------

  /** `lowercase_keys(data)`: objects are rebuilt with lowered keys and
      normalised values, arrays element by element; scalars come back as
      they are. `json.load` gives dicts with distinct keys, which is where
      this agrees with the Python function. The properties below also hold
      for objects with a repeated key, which `json.load` never produces:
      for those, Python would first collapse the repeats, keeping the last
      value at the first position. */
  function LowercaseKeys(x: Json): (r: Json)
    decreases x, 1
    ensures r.JObject? <==> x.JObject?
    ensures r.JArray? <==> x.JArray?
    ensures IsScalar(x) ==> r == x
    ensures x.JArray? ==> |r.items| == |x.items|
    ensures x.JObject? ==> |r.entries| <= |x.entries|
  {
    match x
    case JObject(es) => JObject(DictOf(LoweredPairs(x, es)))
    case JArray(xs) => JArray(seq(|xs|, i requires 0 <= i < |xs| => LowercaseKeys(xs[i])))
    case _ => x
  }

  /** The pairs `(k.lower(), lowercase_keys(v))` that the comprehension
      assigns, in the order of the input object. */
  function LoweredPairs(ghost x: Json, es: seq<(string, Json)>): (ps: seq<(string, Json)>)
    requires forall i :: 0 <= i < |es| ==> es[i].1 < x
    decreases x, 0
    ensures |ps| == |es|
    ensures forall i :: 0 <= i < |es| ==> ps[i] == (Lower(es[i].0), LowercaseKeys(es[i].1))
  {
    seq(|es|, i requires 0 <= i < |es| => (Lower(es[i].0), LowercaseKeys(es[i].1)))
  }

  /** The lowered keys of an object, in input order. */
  function LoweredKeys(es: seq<(string, Json)>): (ks: seq<string>)
    ensures |ks| == |es|
    ensures forall i :: 0 <= i < |es| ==> ks[i] == Lower(es[i].0)
  {
    seq(|es|, i requires 0 <= i < |es| => Lower(es[i].0))
  }

  /** Every object, at every depth, has lowercase keys, none repeated. */
  predicate Normalised(x: Json)
    decreases x
  {
    match x
    case JObject(es) =>
      DistinctKeys(es) && forall i :: 0 <= i < |es| ==> IsLower(es[i].0) && Normalised(es[i].1)
    case JArray(xs) => forall i :: 0 <= i < |xs| ==> Normalised(xs[i])
    case _ => true
  }

  /** Same nesting: scalars identical, arrays of equal length matched
      element by element, and each object entry of `y` matched by an entry
      of `x` whose key lowers to it. */
  predicate SameShape(x: Json, y: Json)
    decreases x
  {
    match x
    case JObject(es) =>
      y.JObject? &&
      forall i :: 0 <= i < |y.entries| ==>
        exists j :: 0 <= j < |es| && Lower(es[j].0) == y.entries[i].0 && SameShape(es[j].1, y.entries[i].1)
    case JArray(xs) =>
      y.JArray? && |y.items| == |xs| && forall i :: 0 <= i < |xs| ==> SameShape(xs[i], y.items[i])
    case _ => y == x
  }

  /** The result keeps the input's shape: an object stays an object whose
      entries come from the input's entries, an array keeps its length and
      order, and every scalar, including those inside arrays, is unchanged. */
  lemma {:induction false} ShapePreserved(x: Json)
    ensures SameShape(x, LowercaseKeys(x))
    decreases x
  {
    match x
    case JObject(es) =>
      var ps := LoweredPairs(x, es);
      var d := DictOf(ps);
      assert LowercaseKeys(x) == JObject(d);
      forall i | 0 <= i < |d|
        ensures exists j :: 0 <= j < |es| && Lower(es[j].0) == d[i].0 && SameShape(es[j].1, d[i].1)
      {
        DictOfEntries(ps, d[i]);
        var j :| 0 <= j < |ps| && ps[j] == d[i];
        ShapePreserved(es[j].1);
      }
    case JArray(xs) =>
      forall i | 0 <= i < |xs| ensures SameShape(xs[i], LowercaseKeys(x).items[i]) {
        ShapePreserved(xs[i]);
      }
    case _ =>
  }

  /** Every key of every object in the result, at any depth, is lowercase,
      and no object has a key twice. */
  lemma {:induction false} ResultNormalised(x: Json)
    ensures Normalised(LowercaseKeys(x))
    decreases x
  {
    match x
    case JObject(es) =>
      var ps := LoweredPairs(x, es);
      var d := DictOf(ps);
      DictOfKeys(ps);
      forall i | 0 <= i < |d| ensures IsLower(d[i].0) && Normalised(d[i].1) {
        DictOfEntries(ps, d[i]);
        var j :| 0 <= j < |ps| && ps[j] == d[i];
        LowerIdempotent(es[j].0);
        ResultNormalised(es[j].1);
      }
    case JArray(xs) =>
      forall i | 0 <= i < |xs| ensures Normalised(LowercaseKeys(x).items[i]) {
        ResultNormalised(xs[i]);
      }
    case _ =>
  }

  /** A value that is already normalised is returned unchanged. */
  lemma {:induction false} NormalisedFixed(x: Json)
    requires Normalised(x)
    ensures LowercaseKeys(x) == x
    decreases x
  {
    match x
    case JObject(es) =>
      var ps := LoweredPairs(x, es);
      forall i | 0 <= i < |es| ensures ps[i] == es[i] {
        NormalisedFixed(es[i].1);
      }
      assert ps == es;
      DictOfDistinct(es);
    case JArray(xs) =>
      var r := LowercaseKeys(x);
      forall i | 0 <= i < |xs| ensures r.items[i] == xs[i] {
        NormalisedFixed(xs[i]);
      }
      assert r.items == xs;
    case _ =>
  }

  /** Idempotence: normalising twice is normalising once. */
  lemma Idempotent(x: Json)
    ensures LowercaseKeys(LowercaseKeys(x)) == LowercaseKeys(x)
  {
    ResultNormalised(x);
    NormalisedFixed(LowercaseKeys(x));
  }

  /** The keys of a normalised object are exactly the lowered input keys,
      each once, in the order in which each first occurs. */
  lemma ObjectKeys(x: Json, k: string)
    requires x.JObject?
    ensures KeysOf(LowercaseKeys(x).entries) == Dedup(LoweredKeys(x.entries))
    ensures k in KeysOf(LowercaseKeys(x).entries) <==>
            exists j :: 0 <= j < |x.entries| && Lower(x.entries[j].0) == k
  {
    var ps := LoweredPairs(x, x.entries);
    DictOfKeys(ps);
    assert KeysOf(ps) == LoweredKeys(x.entries);
    if k in KeysOf(ps) {
      var j :| 0 <= j < |ps| && KeysOf(ps)[j] == k;
      assert Lower(x.entries[j].0) == k;
    }
  }

  /** On a collision, the value of the last input key that lowers to a
      given key is the one kept. */
  lemma CollisionLastWins(x: Json, j: nat)
    requires x.JObject? && j < |x.entries|
    requires forall m :: j < m < |x.entries| ==> Lower(x.entries[m].0) != Lower(x.entries[j].0)
    ensures Lookup(LowercaseKeys(x).entries, Lower(x.entries[j].0)) == Some(LowercaseKeys(x.entries[j].1))
  {
    var ps := LoweredPairs(x, x.entries);
    LastValueAt(ps, j);
    DictOfLookup(ps, Lower(x.entries[j].0));
  }
}
