/**
  `getValueByPath(obj, path)`: a left fold over `path.split(".")` that, at each
  segment, keeps going only when the accumulator is truthy and has the segment
  as a property, and otherwise yields `undefined`.
 */
module PathResolver {
  import opened JsString
  import opened JsValue

  /**
    One reduction step, `acc && key in acc ? acc[key] : undefined`. A falsy
    accumulator short-circuits; `in` on a truthy primitive throws a TypeError.
   */
  function Step(acc: Json, key: string): (r: Result<Json>)
    ensures r.Throw? <==> Truthy(acc) && !IsContainer(acc)
    ensures r.Throw? ==> r.exception == TypeError
    ensures r.Ok? && r.value != Undef ==> IsContainer(acc) && Has(acc, key) && r.value == Get(acc, key)
  {
    if !Truthy(acc) then Ok(Undef)
    else if !IsContainer(acc) then Throw(TypeError)
    else if Has(acc, key) then Ok(Get(acc, key))
    else Ok(Undef)
  }

  /** The reduction over a list of segments, starting from `acc`; a throw aborts it. */
  function Walk(acc: Json, keys: seq<string>): (r: Result<Json>)
    ensures r.Throw? ==> r.exception == TypeError
    ensures keys != [] && !Truthy(acc) ==> r == Ok(Undef)
    decreases |keys|
  {
    if keys == [] then Ok(acc)
    else
      match Step(acc, keys[0])
      case Throw(e) => Throw(e)
      case Ok(next) => Walk(next, keys[1..])
  }

  /** `getValueByPath(obj, path)`. */
  function GetValueByPath(obj: Json, path: string): (r: Result<Json>)
    ensures r.Throw? ==> r.exception == TypeError
    ensures !Truthy(obj) ==> r == Ok(Undef)
    ensures '.' !in path ==> r == Step(obj, path)
  {
    assert '.' !in path ==> Walk(obj, Split(path)) == Step(obj, path) by {
      if '.' !in path {
        SplitDotFree(path);
        assert Walk(obj, [path]) == match Step(obj, path) case Throw(e) => Throw(e) case Ok(v) => Walk(v, []);
      }
    }
    Walk(obj, Split(path))
  }

  /**
    The reference reading of a path: plain descent through containers that hold
    each next segment, with no truthiness and no exceptions; `None` as soon as a
    segment is missing or the value reached has no properties.
   */
  function Descend(j: Json, keys: seq<string>): Option<Json>
    decreases |keys|
  {
    if keys == [] then Some(j)
    else if IsContainer(j) && Has(j, keys[0]) then Descend(Get(j, keys[0]), keys[1..])
    else None
  }

  /** The segments `keys[..k]` lead to a truthy primitive, on which `in` throws. */
  predicate ThrowsAt(j: Json, keys: seq<string>, k: int)
  {
    0 <= k < |keys| &&
    match Descend(j, keys[..k])
    case Some(p) => Truthy(p) && !IsContainer(p)
    case None => false
  }

  // ---------------------------------------------------------------------------
  // Properties of the fold

  /** Once the accumulator is undefined it stays undefined. */
  lemma {:induction false} UndefAbsorbs(keys: seq<string>)
    ensures Walk(Undef, keys) == Ok(Undef)
    decreases |keys|
  {
    if keys != [] {
      UndefAbsorbs(keys[1..]);
    }
  }

  /** A falsy root resolves to undefined, whatever the path. */
  lemma FalsyRoot(root: Json, path: string)
    requires !Truthy(root)
    ensures GetValueByPath(root, path) == Ok(Undef)
  {
    UndefAbsorbs(Split(path)[1..]);
  }

  /** The reduction is a left fold: resolving `k1 + k2` resolves `k2` from where `k1` ends. */
  lemma {:induction false} WalkAppend(acc: Json, k1: seq<string>, k2: seq<string>)
    ensures Walk(acc, k1 + k2) == match Walk(acc, k1) case Throw(e) => Throw(e) case Ok(v) => Walk(v, k2)
    decreases |k1|
  {
    if k1 == [] {
      assert k1 + k2 == k2;
    } else {
      assert (k1 + k2)[0] == k1[0] && (k1 + k2)[1..] == k1[1..] + k2;
      match Step(acc, k1[0])
      case Throw(_) =>
      case Ok(next) => WalkAppend(next, k1[1..], k2);
    }
  }

  /** A dot-free key of an object resolves to exactly its value, falsy values included. */
  lemma OwnKey(fields: seq<(string, Json)>, key: string, v: Json)
    requires '.' !in key
    requires Lookup(fields, key) == Some(v)
    ensures GetValueByPath(Obj(fields), key) == Ok(v)
  {
    SplitDotFree(key);
    assert Step(Obj(fields), key) == Ok(v);
    assert Walk(Obj(fields), [key]) == Walk(v, [key][1..]);
    assert [key][1..] == [];
  }

  /** Where plain descent succeeds, the resolver returns exactly the value reached. */
  lemma {:induction false} DescendResolves(j: Json, keys: seq<string>)
    requires Descend(j, keys).Some?
    ensures Walk(j, keys) == Ok(Descend(j, keys).value)
    decreases |keys|
  {
    if keys != [] {
      DescendResolves(Get(j, keys[0]), keys[1..]);
    }
  }

  /** A defined result is always reached by plain descent. */
  lemma {:induction false} ResolvedIsDescended(j: Json, keys: seq<string>)
    requires Walk(j, keys).Ok? && Walk(j, keys).value != Undef
    ensures Descend(j, keys) == Some(Walk(j, keys).value)
    decreases |keys|
  {
    if keys != [] {
      var r := Step(j, keys[0]);
      if r.value == Undef {
        UndefAbsorbs(keys[1..]);
      } else {
        ResolvedIsDescended(r.value, keys[1..]);
      }
    }
  }

  /** The resolver throws exactly when some prefix of the path leads to a truthy primitive. */
  lemma {:induction false} ThrowsIffPrimitiveOnPath(j: Json, keys: seq<string>)
    ensures Walk(j, keys).Throw? <==> exists k :: ThrowsAt(j, keys, k)
    decreases |keys|
  {
    if keys == [] {
    } else if !Truthy(j) {
      UndefAbsorbs(keys[1..]);
      forall k | 0 <= k < |keys| ensures !ThrowsAt(j, keys, k) {
        if k > 0 { assert keys[..k][0] == keys[0]; }
      }
    } else if !IsContainer(j) {
      assert keys[..0] == [];
      assert ThrowsAt(j, keys, 0);
    } else if !Has(j, keys[0]) {
      UndefAbsorbs(keys[1..]);
      forall k | 0 <= k < |keys| ensures !ThrowsAt(j, keys, k) {
        if k > 0 { assert keys[..k][0] == keys[0]; }
      }
    } else {
      var next := Get(j, keys[0]);
      ThrowsIffPrimitiveOnPath(next, keys[1..]);
      assert !ThrowsAt(j, keys, 0) by { assert keys[..0] == []; }
      forall k | 1 <= k < |keys|
        ensures ThrowsAt(j, keys, k) <==> ThrowsAt(next, keys[1..], k - 1)
      {
        assert keys[..k][0] == keys[0] && keys[..k][1..] == keys[1..][..k - 1];
      }
      if Walk(j, keys).Throw? {
        var k :| ThrowsAt(next, keys[1..], k);
        assert ThrowsAt(j, keys, k + 1);
      }
    }
  }
}
