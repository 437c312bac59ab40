/** The object JavaScript's `JSON.parse` builds from the members of a JSON
    object, and the order in which `Object.entries` and `for...in` list its
    properties. `JSON.parse` defines the members one after another
    (section 25.5.1 of ECMA-262), so a repeated key keeps the position of
    its first member and takes the value of its last. The keys are then
    listed as OrdinaryOwnPropertyKeys orders them (section 10.1.11.1 of
    ECMA-262): keys that are array indices first, in ascending numeric
    order, then every other key in the order it was first defined. */
module JsObjects {
  import opened Wrappers
  import opened JsonValue

  /** The decimal form of a natural number, as `String(n)` writes it. */
  function NatToString(n: nat): (s: string)
    ensures |s| >= 1
    ensures forall i :: 0 <= i < |s| ==> '0' <= s[i] <= '9'
  {
    if n < 10 then [('0' as int + n) as char]
    else NatToString(n / 10) + [('0' as int + n % 10) as char]
  }

  /** The number a string of decimal digits denotes (a character that is
      not a digit counts as 0). */
  function DigitsValue(s: string): nat
  {
    if s == [] then 0
    else
      var c := s[|s| - 1];
      10 * DigitsValue(s[..|s| - 1]) + (if '0' <= c <= '9' then c as int - '0' as int else 0)
  }

  /** Reading back the decimal form of `n` gives `n`. */
  lemma {:induction false} DigitsOfNat(n: nat)
    ensures DigitsValue(NatToString(n)) == n
  {
    if n >= 10 {
      var s := NatToString(n);
      assert s[..|s| - 1] == NatToString(n / 10);
      DigitsOfNat(n / 10);
    }
  }

  /** An array index: the canonical decimal form of an integer below
      2^32 - 1. */
  predicate IsIndexKey(k: string)
  {
    NatToString(DigitsValue(k)) == k && DigitsValue(k) < 0xFFFF_FFFF
  }

  /** A key that does not start with a digit is not an array index. */
  lemma NotIndexKey(k: string)
    requires k != [] && !('0' <= k[0] <= '9')
    ensures !IsIndexKey(k)
  {
    assert '0' <= NatToString(DigitsValue(k))[0] <= '9';
  }

  /** Every number below 2^32 - 1 has an index key, the decimal form
      `Object.entries` uses for an array's elements. */
  lemma IndexKeyOfNat(n: nat)
    requires n < 0xFFFF_FFFF
    ensures IsIndexKey(NatToString(n)) && DigitsValue(NatToString(n)) == n
  {
    DigitsOfNat(n);
  }

  /** Two different index keys have different values. */
  lemma IndexKeyUnique(a: string, b: string)
    requires IsIndexKey(a) && IsIndexKey(b) && a != b
    ensures DigitsValue(a) != DigitsValue(b)
  {
  }

  /** The entries whose keys are array indices, in order. */
  function IndexEntries(d: seq<(string, Json)>): (r: seq<(string, Json)>)
    ensures forall e :: e in r <==> e in d && IsIndexKey(e.0)
  {
    if d == [] then []
    else (if IsIndexKey(d[0].0) then [d[0]] else []) + IndexEntries(d[1..])
  }

  /** The entries whose keys are not array indices, in order. */
  function NamedEntries(d: seq<(string, Json)>): (r: seq<(string, Json)>)
    ensures forall e :: e in r <==> e in d && !IsIndexKey(e.0)
  {
    if d == [] then []
    else (if IsIndexKey(d[0].0) then [] else [d[0]]) + NamedEntries(d[1..])
  }

  /** Keys in strictly ascending numeric order. */
  predicate IndexSorted(s: seq<(string, Json)>)
  {
    forall i, j :: 0 <= i < j < |s| ==> DigitsValue(s[i].0) < DigitsValue(s[j].0)
  }

  /** `e` placed before the first entry of larger value. */
  function InsertByIndex(s: seq<(string, Json)>, e: (string, Json)): (r: seq<(string, Json)>)
    ensures |r| == |s| + 1
    ensures forall x :: x in r <==> x in s || x == e
  {
    if s == [] then [e]
    else if DigitsValue(e.0) < DigitsValue(s[0].0) then [e] + s
    else [s[0]] + InsertByIndex(s[1..], e)
  }

  /** Insertion keeps the order strict when no entry has the value of `e`. */
  lemma {:induction false} InsertByIndexSorted(s: seq<(string, Json)>, e: (string, Json))
    requires IndexSorted(s)
    requires forall x :: x in s ==> DigitsValue(x.0) != DigitsValue(e.0)
    ensures IndexSorted(InsertByIndex(s, e))
  {
    if s != [] && DigitsValue(e.0) >= DigitsValue(s[0].0) {
      var t := s[1..];
      assert IndexSorted(t);
      InsertByIndexSorted(t, e);
      var r := InsertByIndex(t, e);
      forall x | x in r ensures DigitsValue(s[0].0) < DigitsValue(x.0) {
        if x != e {
          var k :| 0 <= k < |t| && t[k] == x;
          assert s[k + 1] == x;
        }
      }
      assert InsertByIndex(s, e) == [s[0]] + r;
    }
  }

  /** The entries sorted by their numeric value. */
  function SortedByIndex(d: seq<(string, Json)>): (r: seq<(string, Json)>)
    ensures |r| == |d|
    ensures forall x :: x in r <==> x in d
  {
    if d == [] then [] else InsertByIndex(SortedByIndex(d[1..]), d[0])
  }

  /** Entries whose keys are distinct array indices are sorted into
      strictly ascending order. */
  lemma {:induction false} SortedByIndexSorted(d: seq<(string, Json)>)
    requires DistinctKeys(d)
    requires forall x :: x in d ==> IsIndexKey(x.0)
    ensures IndexSorted(SortedByIndex(d))
  {
    if d != [] {
      var t := d[1..];
      assert DistinctKeys(t) by {
        forall a, b | 0 <= a < b < |t| ensures t[a].0 != t[b].0 {
          assert t[a] == d[a + 1] && t[b] == d[b + 1];
        }
      }
      SortedByIndexSorted(t);
      forall x | x in SortedByIndex(t) ensures DigitsValue(x.0) != DigitsValue(d[0].0) {
        var k :| 0 <= k < |t| && t[k] == x;
        assert d[k + 1] == x;
        IndexKeyUnique(x.0, d[0].0);
      }
      InsertByIndexSorted(SortedByIndex(t), d[0]);
    }
  }

  /** The properties of an object in the order `Object.entries` lists
      them. */
  function Enumerated(d: seq<(string, Json)>): seq<(string, Json)>
  {
    SortedByIndex(IndexEntries(d)) + NamedEntries(d)
  }

  /** The own properties of the object `JSON.parse` builds from the members
      `es`, in enumeration order. */
  function OwnEntries(es: seq<(string, Json)>): seq<(string, Json)>
  {
    Enumerated(DictOf(es))
  }

  /** Keeping only some entries keeps the keys distinct. */
  lemma {:induction false} FiltersDistinct(d: seq<(string, Json)>)
    requires DistinctKeys(d)
    ensures DistinctKeys(IndexEntries(d)) && DistinctKeys(NamedEntries(d))
  {
    if d != [] {
      var t := d[1..];
      assert DistinctKeys(t) by {
        forall a, b | 0 <= a < b < |t| ensures t[a].0 != t[b].0 {
          assert t[a] == d[a + 1] && t[b] == d[b + 1];
        }
      }
      FiltersDistinct(t);
      forall x | x in t ensures x.0 != d[0].0 {
        var k :| 0 <= k < |t| && t[k] == x;
        assert d[k + 1] == x;
      }
      DistinctCons(d[0], IndexEntries(t));
      DistinctCons(d[0], NamedEntries(t));
    }
  }

  /** An entry whose key the rest lacks can be put in front. */
  lemma DistinctCons(e: (string, Json), s: seq<(string, Json)>)
    requires DistinctKeys(s) && forall x :: x in s ==> x.0 != e.0
    ensures DistinctKeys([e] + s)
  {
    var r := [e] + s;
    forall a, b | 0 <= a < b < |r| ensures r[a].0 != r[b].0 {
      if a > 0 {
        assert r[a] == s[a - 1] && r[b] == s[b - 1];
      } else {
        assert r[b] == s[b - 1] && r[b] in s;
      }
    }
  }

  /** Two lists of entries with distinct keys and the same entries find
      the same value under every key. */
  lemma SameEntriesLookup(d1: seq<(string, Json)>, d2: seq<(string, Json)>, k: string)
    requires DistinctKeys(d1) && DistinctKeys(d2)
    requires forall x :: x in d1 <==> x in d2
    ensures Lookup(d1, k) == Lookup(d2, k)
  {
    var r1, r2 := Lookup(d1, k), Lookup(d2, k);
    if r1.Some? {
      assert (k, r1.value) in d2;
      var i :| 0 <= i < |d2| && d2[i] == (k, r1.value);
      assert k == KeysOf(d2)[i];
      var j :| 0 <= j < |d2| && d2[j] == (k, r2.value);
      assert i == j;
    }
  }

  /** Enumeration lists an object without repeated keys with its keys
      still distinct, finds the same value under every key, and lists
      exactly its entries: the array-index keys first in strictly ascending
      order, then the others in their own order. */
  lemma EnumeratedOrder(d: seq<(string, Json)>, k: string)
    requires DistinctKeys(d)
    ensures DistinctKeys(Enumerated(d))
    ensures Lookup(Enumerated(d), k) == Lookup(d, k)
    ensures forall x :: x in Enumerated(d) <==> x in d
    ensures var n := |IndexEntries(d)|;
      && IndexSorted(Enumerated(d)[..n])
      && (forall i :: 0 <= i < n ==> IsIndexKey(Enumerated(d)[i].0))
      && Enumerated(d)[n..] == NamedEntries(d)
  {
    var a, b := SortedByIndex(IndexEntries(d)), NamedEntries(d);
    FiltersDistinct(d);
    SortedByIndexSorted(IndexEntries(d));
    var r := a + b;
    assert r[..|a|] == a && r[|a|..] == b;
    forall i, j | 0 <= i < j < |r| ensures r[i].0 != r[j].0 {
      if j < |a| {
      } else if i >= |a| {
        assert r[i] == b[i - |a|] && r[j] == b[j - |a|];
      } else {
        assert r[i] in a && r[j] == b[j - |a|] && r[j] in b;
      }
    }
    SameEntriesLookup(r, d, k);
  }

  /** An object whose keys are distinct and none of them an array index is
      listed as written. */
  lemma {:induction false} EnumeratedPlain(d: seq<(string, Json)>)
    requires forall x :: x in d ==> !IsIndexKey(x.0)
    ensures Enumerated(d) == d
  {
    NamedAll(d);
  }

  lemma {:induction false} NamedAll(d: seq<(string, Json)>)
    requires forall x :: x in d ==> !IsIndexKey(x.0)
    ensures NamedEntries(d) == d && IndexEntries(d) == []
  {
    if d != [] {
      assert d[0] in d;
      assert forall x :: x in d[1..] ==> x in d;
      NamedAll(d[1..]);
    }
  }

  /** The object `JSON.parse` builds has one property per key of its
      members, which finds the value of the last member with that key; its
      properties are listed with the array-index keys first, ascending,
      then the other keys in order of first definition. */
  lemma OwnEntriesLookup(es: seq<(string, Json)>, k: string)
    ensures DistinctKeys(OwnEntries(es))
    ensures Lookup(OwnEntries(es), k) == LastValue(es, k)
    ensures k in KeysOf(OwnEntries(es)) <==> k in KeysOf(es)
    ensures var n := |IndexEntries(DictOf(es))|;
      && IndexSorted(OwnEntries(es)[..n])
      && (forall i :: 0 <= i < n ==> IsIndexKey(OwnEntries(es)[i].0))
      && OwnEntries(es)[n..] == NamedEntries(DictOf(es))
  {
    DictOfKeys(es);
    DictOfLookup(es, k);
    EnumeratedOrder(DictOf(es), k);
    assert LastValue(es, k).None? <==> k !in KeysOf(es) by {
      LastValueNone(es, k);
    }
  }

  lemma {:induction false} LastValueNone(ps: seq<(string, Json)>, k: string)
    ensures LastValue(ps, k).None? <==> k !in KeysOf(ps)
  {
    if ps != [] {
      LastValueNone(ps[..|ps| - 1], k);
      assert KeysOf(ps) == KeysOf(ps[..|ps| - 1]) + [ps[|ps| - 1].0];
    }
  }

  /** Members with distinct keys, none of them an array index, are the
      object's properties as written. */
  lemma OwnEntriesPlain(es: seq<(string, Json)>)
    requires DistinctKeys(es)
    requires forall i :: 0 <= i < |es| ==> !IsIndexKey(es[i].0)
    ensures OwnEntries(es) == es
  {
    DictOfDistinct(es);
    EnumeratedPlain(es);
  }
}
