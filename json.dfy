/**
 * JavaScript values as the TypeScript sanitisers and redactors see them: the parsed body
 * of a request. Numbers are reals, with NaN and the two infinities kept apart; an object
 * is its own properties in insertion order.
 */
module JsValue {

  datatype Json =
    | JUndefined
    | JNull
    | JBool(b: bool)
    | JNum(n: real)
    | JNaN
    | JInfinity(negative: bool)
    | JStr(s: string)
    | JArr(items: seq<Json>)
    | JObj(fields: seq<Field>)

  datatype Field = Field(key: string, value: Json)

  function Keys(fs: seq<Field>): (ks: seq<string>)
    ensures |ks| == |fs| && forall i :: 0 <= i < |fs| ==> ks[i] == fs[i].key
  {
    seq(|fs|, i requires 0 <= i < |fs| => fs[i].key)
  }

  /** An object never holds the same property twice. */
  predicate DistinctKeys(fs: seq<Field>)
  {
    forall i, j :: 0 <= i < j < |fs| ==> fs[i].key != fs[j].key
  }

  /** `obj[key]`: the property's value, or undefined. */
  function Lookup(fs: seq<Field>, key: string): (v: Json)
    ensures key !in Keys(fs) ==> v == JUndefined
    ensures forall i :: 0 <= i < |fs| && fs[i].key == key && key !in Keys(fs[..i]) ==> v == fs[i].value
  {
    if fs == [] then JUndefined
    else if fs[0].key == key then fs[0].value
    else
      assert forall i :: 0 < i < |fs| ==> fs[1..][..i - 1] == fs[..i][1..];
      Lookup(fs[1..], key)
  }

  /** `obj[key] = value`: overwrite the property in place, or append it. */
  function Put(fs: seq<Field>, key: string, value: Json): (r: seq<Field>)
    ensures key in Keys(fs) ==> |r| == |fs| && forall i :: 0 <= i < |fs| ==>
              r[i] == (if fs[i].key == key then Field(key, value) else fs[i])
    ensures key !in Keys(fs) ==> r == fs + [Field(key, value)]
    ensures forall f :: f in r ==> f in fs || f == Field(key, value)
  {
    if key in Keys(fs) then
      seq(|fs|, i requires 0 <= i < |fs| => if fs[i].key == key then Field(key, value) else fs[i])
    else fs + [Field(key, value)]
  }

  /** Assignment keeps an object's keys distinct and makes the new value visible. */
  lemma PutLookup(fs: seq<Field>, key: string, value: Json, other: string)
    requires DistinctKeys(fs)
    ensures DistinctKeys(Put(fs, key, value))
    ensures Lookup(Put(fs, key, value), key) == value
    ensures other != key ==> Lookup(Put(fs, key, value), other) == Lookup(fs, other)
  {
    PutDistinct(fs, key, value);
    PutLookupSame(fs, key, value);
    if other != key {
      PutLookupOther(fs, key, value, other);
    }
  }

  lemma PutKeys(fs: seq<Field>, key: string, value: Json)
    ensures Keys(Put(fs, key, value)) == if key in Keys(fs) then Keys(fs) else Keys(fs) + [key]
  {
  }

  lemma PutDistinct(fs: seq<Field>, key: string, value: Json)
    requires DistinctKeys(fs)
    ensures DistinctKeys(Put(fs, key, value))
  {
    PutKeys(fs, key, value);
  }

  lemma PutLookupSame(fs: seq<Field>, key: string, value: Json)
    requires DistinctKeys(fs)
    ensures Lookup(Put(fs, key, value), key) == value
  {
    var r := Put(fs, key, value);
    PutDistinct(fs, key, value);
    PutKeys(fs, key, value);
    LookupDistinct(r, key);
    var k :| 0 <= k < |r| && r[k].key == key;
    assert r[k] == Field(key, value);
  }

  lemma PutLookupOther(fs: seq<Field>, key: string, value: Json, other: string)
    requires DistinctKeys(fs) && other != key
    ensures Lookup(Put(fs, key, value), other) == Lookup(fs, other)
  {
    var r := Put(fs, key, value);
    PutDistinct(fs, key, value);
    PutKeys(fs, key, value);
    if other in Keys(fs) {
      var i :| 0 <= i < |fs| && fs[i].key == other;
      assert r[i] == fs[i];
      LookupDistinct(fs, other);
      LookupDistinct(r, other);
    } else {
      assert other !in Keys(r);
    }
  }

  /** In an object with distinct keys, a property's value is the one stored at its position. */
  lemma LookupDistinct(fs: seq<Field>, key: string)
    requires DistinctKeys(fs)
    ensures forall i :: 0 <= i < |fs| && fs[i].key == key ==> Lookup(fs, key) == fs[i].value
  {
    forall i | 0 <= i < |fs| && fs[i].key == key
      ensures Lookup(fs, key) == fs[i].value
    {
      assert key !in Keys(fs[..i]) by {
        assert forall j :: 0 <= j < i ==> Keys(fs[..i])[j] == fs[j].key;
      }
    }
  }

  /** JavaScript truthiness. */
  predicate Truthy(v: Json)
  {
    match v
    case JUndefined => false
    case JNull => false
    case JBool(b) => b
    case JNum(n) => n != 0.0
    case JNaN => false
    case JInfinity(_) => true
    case JStr(s) => s != []
    case JArr(_) => true
    case JObj(_) => true
  }
}
