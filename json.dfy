/**
 * JSON values as Gson's JsonElement tree and as JavaScript values parsed from JSON.
 * An object keeps its members in insertion order; member lookup finds the first member with the key.
 */
module Json {
  import opened Wrappers

  datatype Json =
    | JNull
    | JBool(b: bool)
    | JNum(n: real)
    | JStr(s: string)
    | JArr(items: seq<Json>)
    | JObj(members: seq<Member>)

  datatype Member = Member(key: string, value: Json)

  /** Index of the first member named `key`, or -1. */
  function KeyIndex(ms: seq<Member>, key: string): (i: int)
    ensures -1 <= i < |ms|
    ensures i >= 0 ==> ms[i].key == key
    ensures forall k :: 0 <= k < |ms| && (i < 0 || k < i) ==> ms[k].key != key
  {
    if |ms| == 0 then -1
    else if ms[0].key == key then 0
    else
      var k := KeyIndex(ms[1..], key);
      if k < 0 then -1 else k + 1
  }

  /** The keys of an object, in order. */
  function Keys(ms: seq<Member>): (r: seq<string>)
    ensures |r| == |ms|
    ensures forall k :: 0 <= k < |ms| ==> r[k] == ms[k].key
  {
    seq(|ms|, k requires 0 <= k < |ms| => ms[k].key)
  }

  /** `obj.has(key)` on a Gson JsonObject (a member whose value is JSON null counts). */
  predicate Has(j: Json, key: string)
  {
    j.JObj? && KeyIndex(j.members, key) >= 0
  }

  /** `obj.get(key)`: the member's value, or `None` when the member is absent or `j` is not an object. */
  function Get(j: Json, key: string): (r: Option<Json>)
    ensures r.Some? <==> Has(j, key)
    ensures r.Some? ==> r.value < j
  {
    if j.JObj? then
      var i := KeyIndex(j.members, key);
      if i < 0 then None
      else
        assert j.members[i].value < j.members[i] < j;
        Some(j.members[i].value)
    else None
  }

  /** JavaScript `v.key` on a value parsed from JSON: an object's member, and undefined (JNull) otherwise. */
  function Prop(v: Json, key: string): (r: Json)
    ensures v.JObj? && Has(v, key) ==> Some(r) == Get(v, key)
    ensures !v.JObj? || !Has(v, key) ==> r == JNull
  {
    match Get(v, key)
    case Some(w) => if v.JObj? then w else JNull
    case None => JNull
  }

  /** Gson `JsonObject.add(key, v)`: replaces an existing member in place, otherwise appends one. */
  function Put(ms: seq<Member>, key: string, v: Json): (r: seq<Member>)
    ensures Get(JObj(r), key) == Some(v)
  {
    var i := KeyIndex(ms, key);
    if i < 0 then
      assert KeyIndex(ms + [Member(key, v)], key) == |ms| by {
        KeyIndexAppend(ms, Member(key, v), key);
      }
      ms + [Member(key, v)]
    else
      assert KeyIndex(ms[i := Member(key, v)], key) == i by {
        KeyIndexUpdate(ms, i, Member(key, v), key);
      }
      ms[i := Member(key, v)]
  }

  lemma {:induction false} KeyIndexAppend(ms: seq<Member>, m: Member, key: string)
    requires KeyIndex(ms, key) < 0
    ensures KeyIndex(ms + [m], key) == (if m.key == key then |ms| else -1)
    decreases |ms|
  {
    if |ms| > 0 {
      assert (ms + [m])[1..] == ms[1..] + [m];
      KeyIndexAppend(ms[1..], m, key);
    }
  }

  lemma {:induction false} KeyIndexUpdate(ms: seq<Member>, i: int, m: Member, key: string)
    requires KeyIndex(ms, key) == i >= 0 && m.key == key
    ensures KeyIndex(ms[i := m], key) == i
    decreases |ms|
  {
    if i > 0 {
      assert ms[i := m][1..] == ms[1..][i - 1 := m];
      KeyIndexUpdate(ms[1..], i - 1, m, key);
    }
  }

  /** Gson `JsonObject.remove(key)` / JS `delete obj[key]` on an object with unique keys. */
  function Remove(ms: seq<Member>, key: string): (r: seq<Member>)
    ensures forall k :: 0 <= k < |r| ==> r[k].key != key
    ensures forall m :: m in r <==> m in ms && m.key != key
  {
    if |ms| == 0 then []
    else (if ms[0].key == key then [] else [ms[0]]) + Remove(ms[1..], key)
  }

  /** After `Put`, every member is an old one or the new one. */
  lemma PutMembers(ms: seq<Member>, k: string, v: Json)
    ensures forall m :: m in Put(ms, k, v) ==> m in ms || m == Member(k, v)
  {
    var i := KeyIndex(ms, k);
    if i >= 0 {
      forall m | m in ms[i := Member(k, v)]
        ensures m in ms || m == Member(k, v)
      {
        var j :| 0 <= j < |ms| && ms[i := Member(k, v)][j] == m;
        if j != i { assert ms[j] == m; }
      }
    }
  }

  /** Setting one member leaves every other member's lookup as it was. */
  lemma GetPutOther(ms: seq<Member>, k: string, v: Json, key: string)
    requires k != key
    ensures Get(JObj(Put(ms, k, v)), key) == Get(JObj(ms), key)
  {
    var i := KeyIndex(ms, key);
    var r := Put(ms, k, v);
    var j := KeyIndex(r, key);
    if KeyIndex(ms, k) < 0 {
      assert r == ms + [Member(k, v)];
    } else {
      assert r == ms[KeyIndex(ms, k) := Member(k, v)];
    }
    assert |r| >= |ms| && forall n :: 0 <= n < |ms| ==> (r[n].key == key <==> ms[n].key == key);
    assert forall n :: |ms| <= n < |r| ==> r[n].key != key;
    if i >= 0 {
      assert r[i].key == key;
      assert j == i;
    } else {
      assert j == -1;
    }
  }

  /** Deleting one member leaves every other member's lookup as it was. */
  lemma {:induction false} GetRemoveOther(ms: seq<Member>, k: string, key: string)
    requires k != key
    ensures Get(JObj(Remove(ms, k)), key) == Get(JObj(ms), key)
    decreases |ms|
  {
    if |ms| > 0 {
      GetRemoveOther(ms[1..], k, key);
      var rest := Remove(ms[1..], k);
      if ms[0].key == k {
        assert Remove(ms, k) == rest;
      } else {
        assert Remove(ms, k) == [ms[0]] + rest;
        assert (Remove(ms, k))[1..] == rest;
      }
    }
  }

  /** A deleted member is gone. */
  lemma HasRemoved(ms: seq<Member>, key: string)
    ensures !Has(JObj(Remove(ms, key)), key)
  {
  }

  /** `delete` of several members in turn. */
  function RemoveKeys(ms: seq<Member>, keys: seq<string>): (r: seq<Member>)
    decreases |keys|
  {
    if |keys| == 0 then ms else RemoveKeys(Remove(ms, keys[0]), keys[1..])
  }

  /** After deleting several members, those are gone and every other lookup is as it was. */
  lemma {:induction false} GetRemoveKeys(ms: seq<Member>, keys: seq<string>, key: string)
    ensures Get(JObj(RemoveKeys(ms, keys)), key) == if key in keys then None else Get(JObj(ms), key)
    decreases |keys|
  {
    if |keys| > 0 {
      GetRemoveKeys(Remove(ms, keys[0]), keys[1..], key);
      if key == keys[0] {
        HasRemoved(ms, key);
      } else {
        GetRemoveOther(ms, keys[0], key);
      }
    }
  }

  /** Every lookup after setting a member. */
  lemma PutLookups(ms: seq<Member>, k: string, v: Json)
    ensures forall key :: Get(JObj(Put(ms, k, v)), key) == if key == k then Some(v) else Get(JObj(ms), key)
  {
    forall key | key != k {
      GetPutOther(ms, k, v, key);
    }
  }

  /** Every lookup after deleting several members. */
  lemma RemoveKeysLookups(ms: seq<Member>, keys: seq<string>)
    ensures forall key :: Get(JObj(RemoveKeys(ms, keys)), key) == if key in keys then None else Get(JObj(ms), key)
  {
    forall key {
      GetRemoveKeys(ms, keys, key);
    }
  }

  /** The text Gson's `getAsString` renders: a string or boolean as text, a number as its numeral. */
  datatype GsonText = Text(s: string) | Numeral(n: real)

  /**
   * Gson `getAsString`: defined on primitives and on a one-element array (its element's text);
   * `None` where Gson throws (JSON null, objects, other arrays).
   */
  function GetAsString(j: Json): Option<GsonText>
  {
    match j
    case JStr(s) => Some(Text(s))
    case JBool(b) => Some(Text(if b then "true" else "false"))
    case JNum(n) => Some(Numeral(n))
    case JArr(items) => if |items| == 1 then GetAsString(items[0]) else None
    case _ => None
  }

  /** JavaScript truthiness of a value parsed from JSON. */
  predicate Truthy(j: Json)
  {
    match j
    case JNull => false
    case JBool(b) => b
    case JNum(n) => n != 0.0
    case JStr(s) => s != ""
    case JArr(_) => true
    case JObj(_) => true
  }

  /** A one-member object. */
  function Obj1(k: string, v: Json): (r: Json)
  {
    JObj([Member(k, v)])
  }
}
