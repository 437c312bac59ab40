/** A JSON value as its text writes it: an object is the list of its
    members in the order they are written, a repeated key included. The
    key normaliser is given the dicts Python's `json.load` builds, whose
    keys are distinct. How the scene builders' JavaScript sees an object
    after `JSON.parse` (one property per key, array-index keys first) is
    `JsObjects.OwnEntries`. */
module JsonValue {
  import opened Wrappers

  datatype Json =
    | JObject(entries: seq<(string, Json)>)
    | JArray(items: seq<Json>)
    | JStr(str: string)
    | JNum(num: real)
    | JBool(b: bool)
    | JNull

  /** Strings, numbers, booleans and null. */
  predicate IsScalar(x: Json)
  {
    !x.JObject? && !x.JArray?
  }

  /** The keys of an association list, in order. */
  function KeysOf<V>(d: seq<(string, V)>): (ks: seq<string>)
    ensures |ks| == |d|
    ensures forall i :: 0 <= i < |d| ==> ks[i] == d[i].0
  {
    seq(|d|, i requires 0 <= i < |d| => d[i].0)
  }

  /** No key occurs twice (true of every dict and every parsed object). */
  predicate DistinctKeys<V>(d: seq<(string, V)>)
  {
    forall i, j :: 0 <= i < j < |d| ==> d[i].0 != d[j].0
  }

  /** The value stored under `k`: that of the first entry with key `k`. */
  function Lookup<V>(d: seq<(string, V)>, k: string): (r: Option<V>)
    ensures r.None? <==> k !in KeysOf(d)
    ensures r.Some? ==> (k, r.value) in d
  {
    if d == [] then None
    else if d[0].0 == k then Some(d[0].1)
    else Lookup(d[1..], k)
  }

  /** In a list without repeated keys, every entry is what its key finds. */
  lemma {:induction false} LookupDistinct<V>(d: seq<(string, V)>, i: nat)
    requires DistinctKeys(d) && i < |d|
    ensures Lookup(d, d[i].0) == Some(d[i].1)
  {
    if i > 0 {
      assert d[1..][i - 1] == d[i];
      assert DistinctKeys(d[1..]) by {
        forall a, b | 0 <= a < b < |d[1..]| ensures d[1..][a].0 != d[1..][b].0 {
          assert d[1..][a] == d[a + 1] && d[1..][b] == d[b + 1];
        }
      }
      LookupDistinct(d[1..], i - 1);
    }
  }

  // ---------------------------------------------------------------------
  // Dicts: assignment one key at a time, as a Python dict comprehension
  // does and as `JSON.parse` defines the members of an object
  // ---------------------------------------------------------------------

  /** The keys of `ks` in the order of their first occurrence. */
  function Dedup(ks: seq<string>): (r: seq<string>)
    ensures forall k :: k in r <==> k in ks
    ensures forall i, j :: 0 <= i < j < |r| ==> r[i] != r[j]
    ensures |r| <= |ks|
  {
    if ks == [] then []
    else
      var init := Dedup(ks[..|ks| - 1]);
      assert ks == ks[..|ks| - 1] + [ks[|ks| - 1]];
      if ks[|ks| - 1] in init then init else init + [ks[|ks| - 1]]
  }

  /** The value of the last pair whose key is `k`. */
  function LastValue<V>(ps: seq<(string, V)>, k: string): Option<V>
  {
    if ps == [] then None
    else if ps[|ps| - 1].0 == k then Some(ps[|ps| - 1].1)
    else LastValue(ps[..|ps| - 1], k)
  }

  /** `d[k] = v`: a key already present keeps its position and takes the
      new value; a new key is appended. */
  function Insert<V>(d: seq<(string, V)>, k: string, v: V): (r: seq<(string, V)>)
    ensures |r| == if k in KeysOf(d) then |d| else |d| + 1
  {
    if d == [] then [(k, v)]
    else if d[0].0 == k then [(k, v)] + d[1..]
    else [d[0]] + Insert(d[1..], k, v)
  }

  /** The keys of two lists one after the other. */
  lemma KeysOfAppend<V>(a: seq<(string, V)>, b: seq<(string, V)>)
    ensures KeysOf(a + b) == KeysOf(a) + KeysOf(b)
  {
    assert forall i :: 0 <= i < |a + b| ==> KeysOf(a + b)[i] == (KeysOf(a) + KeysOf(b))[i];
  }

  /** The keys of a non-empty list: its first key, then the others. */
  lemma KeysOfCons<V>(d: seq<(string, V)>)
    requires d != []
    ensures KeysOf(d) == [d[0].0] + KeysOf(d[1..])
  {
    assert [d[0]] + d[1..] == d;
    KeysOfAppend([d[0]], d[1..]);
  }

  lemma {:induction false} InsertKeys<V>(d: seq<(string, V)>, k: string, v: V)
    ensures KeysOf(Insert(d, k, v)) == if k in KeysOf(d) then KeysOf(d) else KeysOf(d) + [k]
  {
    if d != [] {
      KeysOfCons(d);
      if d[0].0 == k {
        KeysOfCons(Insert(d, k, v));
      } else {
        InsertKeys(d[1..], k, v);
        InsertKeysTail(d, k, v);
      }
    }
  }

  /** `d[k] = v` past a first entry with another key keeps that entry's
      key in front. */
  lemma InsertKeysTail<V>(d: seq<(string, V)>, k: string, v: V)
    requires d != [] && d[0].0 != k
    requires KeysOf(Insert(d[1..], k, v)) == if k in KeysOf(d[1..]) then KeysOf(d[1..]) else KeysOf(d[1..]) + [k]
    ensures KeysOf(Insert(d, k, v)) == if k in KeysOf(d) then KeysOf(d) else KeysOf(d) + [k]
  {
    var rest := Insert(d[1..], k, v);
    KeysOfCons(d);
    assert Insert(d, k, v) == [d[0]] + rest;
    KeysOfAppend([d[0]], rest);
    KeyAfterOther(d[0].0, k, KeysOf(d[1..]), KeysOf(rest));
  }

  /** The key sequences of `InsertKeysTail`, as plain sequences. */
  lemma KeyAfterOther(x: string, k: string, tail: seq<string>, inserted: seq<string>)
    requires x != k
    requires inserted == if k in tail then tail else tail + [k]
    ensures [x] + inserted == if k in [x] + tail then [x] + tail else [x] + tail + [k]
  {
    assert k in [x] + tail <==> k in tail;
    if k !in tail {
      assert [x] + (tail + [k]) == [x] + tail + [k];
    }
  }

  /** After `d[k] = v`, `k` finds `v` and every other key what it found before. */
  lemma {:induction false} InsertLookup<V>(d: seq<(string, V)>, k: string, v: V, k': string)
    ensures Lookup(Insert(d, k, v), k') == if k' == k then Some(v) else Lookup(d, k')
  {
    if d != [] && d[0].0 != k {
      InsertLookup(d[1..], k, v, k');
      assert ([d[0]] + Insert(d[1..], k, v))[1..] == Insert(d[1..], k, v);
    }
  }

  /** `d[k] = v` adds no entry other than `(k, v)`. */
  lemma {:induction false} InsertEntries<V>(d: seq<(string, V)>, k: string, v: V, e: (string, V))
    requires e in Insert(d, k, v)
    ensures e in d || e == (k, v)
  {
    if d != [] && d[0].0 != k && e != d[0] {
      InsertEntries(d[1..], k, v, e);
    }
  }

  /** A new key is appended at the end. */
  lemma {:induction false} InsertNew<V>(d: seq<(string, V)>, k: string, v: V)
    requires k !in KeysOf(d)
    ensures Insert(d, k, v) == d + [(k, v)]
  {
    if d != [] {
      assert KeysOf(d) == [d[0].0] + KeysOf(d[1..]);
      assert d[0].0 != k;
      InsertNew(d[1..], k, v);
      assert Insert(d, k, v) == [d[0]] + (d[1..] + [(k, v)]);
      assert [d[0]] + (d[1..] + [(k, v)]) == ([d[0]] + d[1..]) + [(k, v)];
      assert [d[0]] + d[1..] == d;
    }
  }

  /** The dict that assigns the pairs of `ps` one after another, as a dict
      comprehension does. */
  function DictOf<V>(ps: seq<(string, V)>): (d: seq<(string, V)>)
    ensures |d| <= |ps|
  {
    if ps == [] then []
    else Insert(DictOf(ps[..|ps| - 1]), ps[|ps| - 1].0, ps[|ps| - 1].1)
  }

  /** The keys of the dict are those of the pairs, each once, in the order
      of first occurrence. */
  lemma {:induction false} DictOfKeys<V>(ps: seq<(string, V)>)
    ensures KeysOf(DictOf(ps)) == Dedup(KeysOf(ps))
    ensures DistinctKeys(DictOf(ps))
  {
    if ps != [] {
      var init, last := ps[..|ps| - 1], ps[|ps| - 1];
      DictOfKeys(init);
      InsertKeys(DictOf(init), last.0, last.1);
      assert DictOf(ps) == Insert(DictOf(init), last.0, last.1);
      KeysOfSnoc(ps);
    }
    DistinctByKeys(DictOf(ps), Dedup(KeysOf(ps)));
  }

  /** The keys of a non-empty list: those of all but its last entry, then
      the last entry's key. */
  lemma KeysOfSnoc<V>(ps: seq<(string, V)>)
    requires ps != []
    ensures var ks := KeysOf(ps);
      ks[..|ks| - 1] == KeysOf(ps[..|ps| - 1]) && ks[|ks| - 1] == ps[|ps| - 1].0
  {
  }

  /** A list whose keys are all different has distinct keys. */
  lemma DistinctByKeys<V>(d: seq<(string, V)>, ks: seq<string>)
    requires KeysOf(d) == ks
    requires forall i, j :: 0 <= i < j < |ks| ==> ks[i] != ks[j]
    ensures DistinctKeys(d)
  {
    forall i, j | 0 <= i < j < |d|
      ensures d[i].0 != d[j].0
    {
      assert ks[i] == d[i].0 && ks[j] == d[j].0;
    }
  }

  /** Every key finds the value of the last pair with that key. */
  lemma {:induction false} DictOfLookup<V>(ps: seq<(string, V)>, k: string)
    ensures Lookup(DictOf(ps), k) == LastValue(ps, k)
  {
    if ps != [] {
      DictOfLookup(ps[..|ps| - 1], k);
      InsertLookup(DictOf(ps[..|ps| - 1]), ps[|ps| - 1].0, ps[|ps| - 1].1, k);
    }
  }

  /** Every entry of the dict is one of the pairs. */
  lemma {:induction false} DictOfEntries<V>(ps: seq<(string, V)>, e: (string, V))
    requires e in DictOf(ps)
    ensures e in ps
  {
    var init := ps[..|ps| - 1];
    InsertEntries(DictOf(init), ps[|ps| - 1].0, ps[|ps| - 1].1, e);
    if e in DictOf(init) {
      DictOfEntries(init, e);
    }
  }

  /** Assigning pairs whose keys are all different rebuilds them unchanged. */
  lemma {:induction false} DictOfDistinct<V>(ps: seq<(string, V)>)
    requires DistinctKeys(ps)
    ensures DictOf(ps) == ps
  {
    if ps != [] {
      var init := ps[..|ps| - 1];
      assert DistinctKeys(init);
      DictOfDistinct(init);
      assert ps[|ps| - 1].0 !in KeysOf(init);
      InsertNew(init, ps[|ps| - 1].0, ps[|ps| - 1].1);
      assert ps == init + [ps[|ps| - 1]];
    }
  }

  /** The last pair with a key is the one whose value is kept. */
  lemma {:induction false} LastValueAt<V>(ps: seq<(string, V)>, j: nat)
    requires j < |ps|
    requires forall m :: j < m < |ps| ==> ps[m].0 != ps[j].0
    ensures LastValue(ps, ps[j].0) == Some(ps[j].1)
  {
    if j < |ps| - 1 {
      LastValueAt(ps[..|ps| - 1], j);
    }
  }
}
