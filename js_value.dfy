/**
  JavaScript values as the dashboard handles them: whatever `response.json()`
  produced, plus `undefined`. Numbers are integers here; objects are their own
  enumerable properties in enumeration order.
 */
module JsValue {
  import opened JsString

  datatype Json =
    | Undef
    | Null
    | Bool(b: bool)
    | Num(n: int)
    | Str(s: string)
    | Arr(items: seq<Json>)
    | Obj(fields: seq<(string, Json)>)

  /** What a JavaScript expression can throw on the modelled paths. */
  datatype Exception = TypeError | Error(message: string)

  /** The outcome of evaluating an expression that may throw. */
  datatype Result<+T> = Ok(value: T) | Throw(exception: Exception)

  /** What a widget shows for a value: the placeholder "--" or `String(v)`. */
  datatype Display = Placeholder | Stringified(v: Json)

  /** JavaScript truthiness: undefined, null, false, 0 and "" are the falsy values. */
  predicate Truthy(j: Json)
  {
    match j
    case Undef => false
    case Null => false
    case Bool(b) => b
    case Num(n) => n != 0
    case Str(s) => s != ""
    case Arr(_) => true
    case Obj(_) => true
  }

  /** The falsy values are exactly undefined, null, false, 0 and "". */
  lemma FalsyValues(j: Json)
    ensures !Truthy(j) <==> j == Undef || j == Null || j == Bool(false) || j == Num(0) || j == Str("")
  {
  }

  /** `typeof j === "object"`: arrays, objects and null. */
  predicate IsObjectType(j: Json) { j.Null? || j.Arr? || j.Obj? }

  /** `typeof j === "object" && j !== null`: a value with properties to enumerate or test. */
  predicate IsContainer(j: Json) { j.Arr? || j.Obj? }

  /** `j === null || j === undefined`, the values `??` replaces. */
  predicate IsNullish(j: Json) { j.Undef? || j.Null? }

  /** The keys of an object are pairwise distinct. */
  ghost predicate UniqueKeys(fields: seq<(string, Json)>)
  {
    forall i, k :: 0 <= i < k < |fields| ==> fields[i].0 != fields[k].0
  }

  /** The own property `key` of an object, if it has one. */
  function Lookup(fields: seq<(string, Json)>, key: string): (r: Option<Json>)
    ensures r.Some? <==> exists i :: 0 <= i < |fields| && fields[i].0 == key
    ensures forall i :: 0 <= i < |fields| && fields[i].0 == key && UniqueKeys(fields) ==> r == Some(fields[i].1)
    decreases |fields|
  {
    if fields == [] then None
    else if fields[0].0 == key then Some(fields[0].1)
    else
      var r := Lookup(fields[1..], key);
      assert forall i :: 1 <= i < |fields| ==> fields[i] == fields[1..][i - 1];
      r
  }

  /**
    `key in c`, own properties only: an object's own keys; an array's canonical
    indices below its length, and "length". Primitives have no own properties here.
   */
  predicate Has(c: Json, key: string)
    ensures Has(c, key) ==> IsContainer(c)
  {
    match c
    case Obj(fields) => Lookup(fields, key).Some?
    case Arr(items) =>
      key == "length" || (ParseIndex(key).Some? && ParseIndex(key).value < |items|)
    case _ => false
  }

  /** `c[key]` on a value that is not null or undefined, own properties only. */
  function Get(c: Json, key: string): (r: Json)
    ensures !Has(c, key) ==> r == Undef
    ensures c.Arr? && key == "length" ==> r == Num(|c.items|)
  {
    match c
    case Obj(fields) =>
      (match Lookup(fields, key) case Some(v) => v case None => Undef)
    case Arr(items) =>
      if key == "length" then Num(|items|)
      else if ParseIndex(key).Some? && ParseIndex(key).value < |items| then items[ParseIndex(key).value]
      else Undef
    case _ => Undef
  }

  /**
    The keys `in` finds: an object's own keys, and an array's "length" and the
    decimal spellings of its indices.
   */
  lemma {:induction false} HasCharacterized(c: Json, key: string)
    ensures c.Obj? ==> (Has(c, key) <==> exists i :: 0 <= i < |c.fields| && c.fields[i].0 == key)
    ensures c.Arr? ==>
      (Has(c, key) <==> key == "length" || exists i :: 0 <= i < |c.items| && key == NatToString(i))
  {
    if c.Arr? {
      if exists i :: 0 <= i < |c.items| && key == NatToString(i) {
        var i :| 0 <= i < |c.items| && key == NatToString(i);
        ParseIndexOfNat(i);
      }
    }
  }

  /** Property access `j[key]`: a TypeError on null and undefined. */
  function Prop(j: Json, key: string): (r: Result<Json>)
    ensures r.Throw? <==> IsNullish(j)
  {
    if IsNullish(j) then Throw(TypeError) else Ok(Get(j, key))
  }

  /** An object's own key holds the value stored under it. */
  lemma ObjectEntry(fields: seq<(string, Json)>, i: nat)
    requires i < |fields| && UniqueKeys(fields)
    ensures Has(Obj(fields), fields[i].0) && Get(Obj(fields), fields[i].0) == fields[i].1
  {
  }

  /** An array's index key holds the element at that index. */
  lemma ArrayEntry(items: seq<Json>, i: nat)
    requires i < |items|
    ensures Has(Arr(items), NatToString(i)) && Get(Arr(items), NatToString(i)) == items[i]
  {
    ParseIndexOfNat(i);
    assert NatToString(i) != "length" by {
      assert IsDigit(NatToString(i)[0]);
    }
  }
  /**
    `xs.map(f)` with a callback that may throw: the callback runs on the
    elements in order and the first throw ends the map.
   */
  function MapResults<T, U>(xs: seq<T>, f: T -> Result<U>): (r: Result<seq<U>>)
    ensures r.Throw? <==> exists i :: 0 <= i < |xs| && f(xs[i]).Throw?
    ensures r.Throw? ==>
      exists i :: 0 <= i < |xs| && f(xs[i]) == Throw(r.exception) && forall k :: 0 <= k < i ==> f(xs[k]).Ok?
    ensures r.Ok? ==> |r.value| == |xs| && forall i :: 0 <= i < |xs| ==> f(xs[i]) == Ok(r.value[i])
    decreases |xs|
  {
    if xs == [] then Ok([])
    else
      var first := f(xs[0]);
      var rest := MapResults(xs[1..], f);
      assert forall i :: 1 <= i < |xs| ==> xs[i] == xs[1..][i - 1];
      if first.Throw? then Throw(first.exception)
      else if rest.Throw? then
        assert exists i :: (1 <= i < |xs| && f(xs[i]) == Throw(rest.exception) &&
                            forall k :: 0 <= k < i ==> f(xs[k]).Ok?) by {
          var j :| 0 <= j < |xs| - 1 && f(xs[1..][j]) == Throw(rest.exception) &&
            forall k :: 0 <= k < j ==> f(xs[1..][k]).Ok?;
          assert forall k :: 1 <= k < j + 1 ==> f(xs[k]).Ok? by {
            forall k | 1 <= k < j + 1 ensures f(xs[k]).Ok? {
              assert f(xs[1..][k - 1]).Ok?;
            }
          }
        }
        Throw(rest.exception)
      else
        var r := [first.value] + rest.value;
        assert forall i :: 0 <= i < |xs| ==> f(xs[i]) == Ok(r[i]) by {
          forall i | 0 <= i < |xs| ensures f(xs[i]) == Ok(r[i]) {
            if i > 0 {
              assert r[i] == rest.value[i - 1];
            }
          }
        }
        Ok(r)
  }
}
