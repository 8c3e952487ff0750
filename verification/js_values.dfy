/**
  The slice of JavaScript's data model that the weather page touches:
  JSON-like values, plain objects with their property order, and the
  object-spread that builds the AQI table's data object.
 */
module JsValues {

  /** `None` stands for JavaScript's `undefined` (a missing property or an
      index past the end of an array); a present `null` is `Some(Null)`. */
  datatype Option<+T> = None | Some(value: T)

  /** A value as it reaches a table cell. `List` is an array assigned to a
      cell's text as a whole. */
  datatype Value = Null | Num(n: real) | Str(s: string) | List(items: seq<Value>)

  /** A plain object: its own enumerable properties, in insertion order
      (names that are array indices, which JavaScript orders first, and
      inherited properties are outside this model). */
  datatype JsObject = JsObject(entries: seq<(string, Value)>)

  /** The property names of an object (what `key in obj` tests). */
  function Keys(o: JsObject): (ks: set<string>)
    ensures forall i :: 0 <= i < |o.entries| ==> o.entries[i].0 in ks
    ensures forall k :: k in ks ==> exists i :: 0 <= i < |o.entries| && o.entries[i].0 == k
  {
    set i | 0 <= i < |o.entries| :: o.entries[i].0
  }

  /** A real object never holds the same property twice. */
  ghost predicate WellFormed(o: JsObject) {
    forall i, j :: 0 <= i < j < |o.entries| ==> o.entries[i].0 != o.entries[j].0
  }

  /** Property lookup on an entry list: the first entry with that name. */
  function Lookup(entries: seq<(string, Value)>, key: string): (r: Option<Value>)
    ensures r.None? <==> forall i :: 0 <= i < |entries| ==> entries[i].0 != key
    ensures r.Some? ==> exists i :: 0 <= i < |entries| && entries[i] == (key, r.value)
    decreases |entries|
  {
    if |entries| == 0 then None
    else if entries[0].0 == key then Some(entries[0].1)
    else
      var rest := Lookup(entries[1..], key);
      assert rest.Some? ==> exists i :: 0 <= i < |entries[1..]| && entries[1..][i] == (key, rest.value);
      rest
  }

  /** `obj[key]`, with `None` for `undefined`. */
  function Get(o: JsObject, key: string): (r: Option<Value>)
    ensures r.Some? <==> key in Keys(o)
  {
    Lookup(o.entries, key)
  }

  /** In a well-formed object, reading a property gives the value stored under it. */
  lemma {:induction false} LookupEntry(entries: seq<(string, Value)>, i: int)
    requires 0 <= i < |entries|
    requires forall a, b :: 0 <= a < b < |entries| ==> entries[a].0 != entries[b].0
    ensures Lookup(entries, entries[i].0) == Some(entries[i].1)
    decreases i
  {
    if i > 0 {
      assert entries[0].0 != entries[i].0;
      LookupEntry(entries[1..], i - 1);
      assert entries[1..][i - 1] == entries[i];
    }
  }

  /** `Object.values(obj)`: the property values in insertion order. */
  function Values(o: JsObject): (vs: seq<Value>)
    ensures |vs| == |o.entries|
    ensures forall i :: 0 <= i < |vs| ==> vs[i] == o.entries[i].1
  {
    seq(|o.entries|, i requires 0 <= i < |o.entries| => o.entries[i].1)
  }

  /** `a` is `b` with some elements left out, the rest in their order. */
  ghost predicate Subsequence<T>(a: seq<T>, b: seq<T>)
    decreases |b|
  {
    |a| == 0 || (|b| > 0 && ((a[0] == b[0] && Subsequence(a[1..], b[1..])) || Subsequence(a, b[1..])))
  }

  /** How many entries of a list carry the name `key`. */
  function CountNamed(entries: seq<(string, Value)>, key: string): (n: nat)
    ensures n <= |entries|
    decreases |entries|
  {
    if |entries| == 0 then 0
    else (if entries[0].0 == key then 1 else 0) + CountNamed(entries[1..], key)
  }

  /** The entries of a list whose name is not `key`, order kept. The first
      three clauses pin the result down: a subsequence with no `key` entry
      that is as long as the number of other entries can only be all of
      them, in their order. */
  function Without(entries: seq<(string, Value)>, key: string): (r: seq<(string, Value)>)
    ensures Subsequence(r, entries)
    ensures forall i :: 0 <= i < |r| ==> r[i].0 != key
    ensures |r| == |entries| - CountNamed(entries, key)
    ensures forall k :: k != key ==> Lookup(r, k) == Lookup(entries, k)
    ensures (forall a, b :: 0 <= a < b < |entries| ==> entries[a].0 != entries[b].0)
            ==> (forall a, b :: 0 <= a < b < |r| ==> r[a].0 != r[b].0)
    decreases |entries|
  {
    if |entries| == 0 then []
    else
      var rest := Without(entries[1..], key);
      if entries[0].0 == key then rest
      else
        var r := [entries[0]] + rest;
        assert r[1..] == rest;
        assert forall k :: k != key && k != entries[0].0 ==> Lookup(r, k) == Lookup(rest, k) by {
          forall k | k != key && k != entries[0].0
            ensures Lookup(r, k) == Lookup(rest, k)
          {
            assert r[1..] == rest;
          }
        }
        assert (forall a, b :: 0 <= a < b < |entries| ==> entries[a].0 != entries[b].0)
               ==> (forall b :: 0 <= b < |rest| ==> rest[b].0 != entries[0].0) by {
          if forall a, b :: 0 <= a < b < |entries| ==> entries[a].0 != entries[b].0 {
            forall b | 0 <= b < |rest|
              ensures rest[b].0 != entries[0].0
            {
              assert Lookup(entries[1..], entries[0].0).None?;
            }
          }
        }
        r
  }

  const LocationInfoKey := "locationInfo"

  /** `{ locationInfo: null, ...o }`: a fresh object whose first property is
      `locationInfo` (null unless `o` supplies its own value), followed by the
      other properties of `o` in their order. */
  function WithLocationInfo(o: JsObject): (r: JsObject)
    ensures |r.entries| > 0 && r.entries[0].0 == LocationInfoKey
    ensures Keys(r) == Keys(o) + {LocationInfoKey}
    ensures Get(r, LocationInfoKey) == Some(if Get(o, LocationInfoKey).Some? then Get(o, LocationInfoKey).value else Null)
    ensures forall k :: k != LocationInfoKey ==> Get(r, k) == Get(o, k)
    ensures WellFormed(o) ==> WellFormed(r)
  {
    var first := match Get(o, LocationInfoKey) case Some(v) => v case None => Null;
    var rest := Without(o.entries, LocationInfoKey);
    var r := JsObject([(LocationInfoKey, first)] + rest);
    assert forall k :: k != LocationInfoKey ==> Get(r, k) == Lookup(rest, k) by {
      assert r.entries[1..] == rest;
    }
    assert forall k :: k in Keys(r) <==> k in Keys(o) + {LocationInfoKey} by {
      forall k
        ensures k in Keys(r) <==> k in Keys(o) + {LocationInfoKey}
      {
        if k != LocationInfoKey {
          assert Get(r, k) == Get(o, k);
        } else {
          assert r.entries[0].0 == k;
        }
      }
    }
    r
  }
}
