/** Plain JavaScript objects as the server handles them: an object is the
    list of its own enumerable properties in `Object.entries` order. */
module JsObjects {
  import opened Values

  type Entries = seq<(string, Value)>

  /** An object never holds the same key twice. */
  ghost predicate DistinctKeys(o: Entries) {
    forall i, j :: 0 <= i < j < |o| ==> o[i].0 != o[j].0
  }

  /** `Object.prototype.hasOwnProperty.call(o, key)` */
  predicate HasKey(o: Entries, key: string) {
    exists i :: 0 <= i < |o| && o[i].0 == key
  }

  /** `o[key]`: the property's value, `undefined` when there is none. */
  function Lookup(o: Entries, key: string): (v: Value)
    ensures !HasKey(o, key) ==> v == Undefined
    ensures HasKey(o, key) ==> exists i :: 0 <= i < |o| && o[i].0 == key && v == o[i].1
  {
    if o == [] then Undefined
    else if o[0].0 == key then o[0].1
    else
      var v := Lookup(o[1..], key);
      assert HasKey(o[1..], key) ==> exists i :: 1 <= i < |o| && o[i].0 == key && v == o[i].1 by {
        if HasKey(o[1..], key) {
          var i :| 0 <= i < |o[1..]| && o[1..][i].0 == key && v == o[1..][i].1;
          assert o[i + 1] == o[1..][i];
        }
      }
      v
  }

  /** With distinct keys, the value found is the one stored under the key. */
  lemma LookupAt(o: Entries, i: int)
    requires DistinctKeys(o) && 0 <= i < |o|
    ensures Lookup(o, o[i].0) == o[i].1
  {
    assert HasKey(o, o[i].0);
  }

  /** `o[key] = v`: an existing property keeps its place and takes the new
      value; a new one goes last. */
  function Put(o: Entries, key: string, v: Value): (r: Entries)
    ensures HasKey(o, key) ==> |r| == |o| && forall i :: 0 <= i < |o| ==> r[i].0 == o[i].0
    ensures !HasKey(o, key) ==> r == o + [(key, v)]
  {
    if HasKey(o, key) then
      seq(|o|, i requires 0 <= i < |o| => if o[i].0 == key then (key, v) else o[i])
    else o + [(key, v)]
  }

  /** After `o[key] = v`, `o[key]` is `v`, every other property reads as
      before, and the keys are still distinct. */
  lemma {:induction false} PutLookup(o: Entries, key: string, v: Value, other: string)
    requires DistinctKeys(o)
    ensures DistinctKeys(Put(o, key, v))
    ensures Lookup(Put(o, key, v), key) == v
    ensures other != key ==> Lookup(Put(o, key, v), other) == Lookup(o, other)
    ensures HasKey(Put(o, key, v), other) <==> HasKey(o, other) || other == key
  {
    var r := Put(o, key, v);
    if HasKey(o, key) {
      var i :| 0 <= i < |o| && o[i].0 == key;
      assert r[i] == (key, v);
      LookupAt(r, i);
      if other != key && HasKey(o, other) {
        var j :| 0 <= j < |o| && o[j].0 == other;
        LookupAt(o, j);
        LookupAt(r, j);
      }
      if HasKey(r, other) {
        var j :| 0 <= j < |r| && r[j].0 == other;
        assert o[j].0 == other;
      }
    } else {
      assert r[|o|] == (key, v);
      LookupAt(r, |o|);
      if other != key && HasKey(o, other) {
        var j :| 0 <= j < |o| && o[j].0 == other;
        LookupAt(o, j);
        LookupAt(r, j);
      }
      if HasKey(r, other) && other != key {
        var j :| 0 <= j < |r| && r[j].0 == other;
        assert j < |o| && o[j].0 == other;
      }
    }
  }
}
