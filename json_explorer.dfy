/**
  The JSON explorer's field picker: it walks a value recursively and offers
  every non-object value (null included) as a selectable `(path, value)` pair;
  the chosen path becomes a field mapping's `jsonPath`.
 */
module JsonExplorer {
  import opened JsString
  import opened JsValue
  import opened PathResolver

  /** The path of a child: the key itself under the root, otherwise `parent.key`. */
  function ChildPath(parentPath: string, key: string): (p: string)
    ensures parentPath == "" ==> p == key
    ensures parentPath != "" ==> p == parentPath + "." + key
    ensures parentPath != "" && '.' !in key ==> Split(p) == Split(parentPath) + [key]
  {
    if parentPath != "" then
      var p := parentPath + "." + key;
      assert '.' !in key ==> Split(p) == Split(parentPath) + [key] by {
        if '.' !in key {
          JoinSnoc(Split(parentPath), key);
          SplitJoin(Split(parentPath) + [key]);
        }
      }
      p
    else key
  }

  /** A value the picker recurses into rather than offering: an array or a non-null object. */
  predicate Expandable(v: Json) { IsContainer(v) }

  /**
    The selectable pairs under `data`, in `Object.entries` order: an array's
    entries are its indices "0", "1", ...; an object's are its keys in order.
   */
  function Leaves(data: Json, parentPath: string): (r: seq<(string, Json)>)
    ensures !IsContainer(data) ==> r == []
    ensures forall e :: e in r ==> !IsContainer(e.1)
    decreases data, 1
  {
    match data
    case Arr(items) => ItemLeaves(items, 0, parentPath)
    case Obj(fields) => FieldLeaves(fields, 0, parentPath)
    case _ => []
  }

  /** The pairs contributed by the entries `from..` of an array. */
  function ItemLeaves(items: seq<Json>, from: nat, parentPath: string): (r: seq<(string, Json)>)
    requires from <= |items|
    ensures forall e :: e in r ==> !IsContainer(e.1)
    decreases items, 0, |items| - from
  {
    if from == |items| then []
    else EntryLeaves(NatToString(from), items[from], parentPath) + ItemLeaves(items, from + 1, parentPath)
  }

  /** The pairs contributed by the entries `from..` of an object. */
  function FieldLeaves(fields: seq<(string, Json)>, from: nat, parentPath: string): (r: seq<(string, Json)>)
    requires from <= |fields|
    ensures forall e :: e in r ==> !IsContainer(e.1)
    decreases fields, 0, |fields| - from
  {
    if from == |fields| then []
    else FieldEntryLeaves(fields[from], parentPath) + FieldLeaves(fields, from + 1, parentPath)
  }

  /** An object entry `[key, value]` as `Object.entries` yields it. */
  function FieldEntryLeaves(entry: (string, Json), parentPath: string): (r: seq<(string, Json)>)
    ensures forall e :: e in r ==> !IsContainer(e.1)
    decreases entry, 3
  {
    EntryLeaves(entry.0, entry.1, parentPath)
  }

  /** One entry: offered itself when it is not an object, explored when it is. */
  function EntryLeaves(key: string, value: Json, parentPath: string): (r: seq<(string, Json)>)
    ensures forall e :: e in r ==> !IsContainer(e.1)
    ensures !Expandable(value) ==> r == [(ChildPath(parentPath, key), value)]
    ensures Expandable(value) ==> r == Leaves(value, ChildPath(parentPath, key))
    decreases value, 2
  {
    var currentPath := ChildPath(parentPath, key);
    if Expandable(value) then Leaves(value, currentPath) else [(currentPath, value)]
  }

  // ---------------------------------------------------------------------------
  // Round trip with the path resolver

  /** A key the dotted-path notation can spell: non-empty and dot-free. */
  predicate PathSafeKey(k: string) { k != "" && '.' !in k }

  /** Every object key inside `j` is path-safe, and no object repeats a key. */
  ghost predicate PathSafe(j: Json)
    decreases j
  {
    match j
    case Arr(items) => forall i :: 0 <= i < |items| ==> PathSafe(items[i])
    case Obj(fields) =>
      UniqueKeys(fields) &&
      forall i :: 0 <= i < |fields| ==> PathSafeKey(fields[i].0) && PathSafe(fields[i].1)
    case _ => true
  }

  /** The parent path of a value reached by the segments `segs` (none at the root). */
  function PathOf(segs: seq<string>): string { Join(segs) }

  /** Every pair resolves, through `getValueByPath` from `root`, to its value. */
  ghost predicate AllResolve(root: Json, pairs: seq<(string, Json)>)
  {
    forall e :: e in pairs ==> GetValueByPath(root, e.0) == Ok(e.1)
  }

  /** Every pair offered below the value reached by `segs` resolves back to its value. */
  lemma {:induction false} LeavesResolve(root: Json, segs: seq<string>, data: Json)
    requires forall i :: 0 <= i < |segs| ==> PathSafeKey(segs[i])
    requires Walk(root, segs) == Ok(data) && PathSafe(data)
    ensures AllResolve(root, Leaves(data, PathOf(segs)))
    decreases data, 1
  {
    match data
    case Arr(items) => ItemLeavesResolve(root, segs, items);
    case Obj(fields) => FieldLeavesResolve(root, segs, fields);
    case _ =>
  }

  /** A pair offered by the array entries `from..` comes from one of them. */
  lemma {:induction false} ItemLeavesMember(items: seq<Json>, from: nat, parentPath: string, e: (string, Json))
    requires from <= |items| && e in ItemLeaves(items, from, parentPath)
    ensures exists j :: from <= j < |items| && e in EntryLeaves(NatToString(j), items[j], parentPath)
    decreases |items| - from
  {
    if e !in EntryLeaves(NatToString(from), items[from], parentPath) {
      ItemLeavesMember(items, from + 1, parentPath, e);
    }
  }

  /** A pair offered by the object entries `from..` comes from one of them. */
  lemma {:induction false} FieldLeavesMember(fields: seq<(string, Json)>, from: nat, parentPath: string, e: (string, Json))
    requires from <= |fields| && e in FieldLeaves(fields, from, parentPath)
    ensures exists j :: from <= j < |fields| && e in EntryLeaves(fields[j].0, fields[j].1, parentPath)
    decreases |fields| - from
  {
    if e !in EntryLeaves(fields[from].0, fields[from].1, parentPath) {
      FieldLeavesMember(fields, from + 1, parentPath, e);
    }
  }

  lemma {:induction false} ItemLeavesResolve(root: Json, segs: seq<string>, items: seq<Json>)
    requires forall i :: 0 <= i < |segs| ==> PathSafeKey(segs[i])
    requires Walk(root, segs) == Ok(Arr(items)) && PathSafe(Arr(items))
    ensures AllResolve(root, ItemLeaves(items, 0, PathOf(segs)))
    decreases items, 0
  {
    forall e | e in ItemLeaves(items, 0, PathOf(segs)) ensures GetValueByPath(root, e.0) == Ok(e.1) {
      ItemLeavesMember(items, 0, PathOf(segs), e);
      var j :| 0 <= j < |items| && e in EntryLeaves(NatToString(j), items[j], PathOf(segs));
      ItemEntryResolves(root, segs, items, j);
    }
  }

  /** The array entry at `j`, under its index key, resolves. */
  lemma {:induction false} ItemEntryResolves(root: Json, segs: seq<string>, items: seq<Json>, j: nat)
    requires j < |items|
    requires forall i :: 0 <= i < |segs| ==> PathSafeKey(segs[i])
    requires Walk(root, segs) == Ok(Arr(items)) && PathSafe(Arr(items))
    ensures AllResolve(root, EntryLeaves(NatToString(j), items[j], PathOf(segs)))
    decreases items, 0, 0
  {
    var key := NatToString(j);
    ArrayEntry(items, j);
    assert PathSafeKey(key) by { assert IsDigit(key[0]); }
    EntryLeavesResolve(root, segs, Arr(items), key, items[j]);
  }

  lemma {:induction false} FieldLeavesResolve(root: Json, segs: seq<string>, fields: seq<(string, Json)>)
    requires forall i :: 0 <= i < |segs| ==> PathSafeKey(segs[i])
    requires Walk(root, segs) == Ok(Obj(fields)) && PathSafe(Obj(fields))
    ensures AllResolve(root, FieldLeaves(fields, 0, PathOf(segs)))
    decreases fields, 0
  {
    forall e | e in FieldLeaves(fields, 0, PathOf(segs)) ensures GetValueByPath(root, e.0) == Ok(e.1) {
      FieldLeavesMember(fields, 0, PathOf(segs), e);
      var j :| 0 <= j < |fields| && e in EntryLeaves(fields[j].0, fields[j].1, PathOf(segs));
      FieldEntryResolves(root, segs, fields, j);
    }
  }

  /** The object entry at `j`, under its own key, resolves. */
  lemma {:induction false} FieldEntryResolves(root: Json, segs: seq<string>, fields: seq<(string, Json)>, j: nat)
    requires j < |fields|
    requires forall i :: 0 <= i < |segs| ==> PathSafeKey(segs[i])
    requires Walk(root, segs) == Ok(Obj(fields)) && PathSafe(Obj(fields))
    ensures AllResolve(root, EntryLeaves(fields[j].0, fields[j].1, PathOf(segs)))
    decreases fields, 0, 0
  {
    ObjectEntry(fields, j);
    EntryLeavesResolve(root, segs, Obj(fields), fields[j].0, fields[j].1);
  }

  /** The entry `key` of the container reached by `segs` resolves through `segs + [key]`. */
  lemma {:induction false} EntryLeavesResolve(root: Json, segs: seq<string>, parent: Json, key: string, value: Json)
    requires forall i :: 0 <= i < |segs| ==> PathSafeKey(segs[i])
    requires PathSafeKey(key)
    requires Walk(root, segs) == Ok(parent) && IsContainer(parent)
    requires Has(parent, key) && Get(parent, key) == value && PathSafe(value)
    ensures AllResolve(root, EntryLeaves(key, value, PathOf(segs)))
    decreases value, 2
  {
    var next := segs + [key];
    EntryPath(root, segs, parent, key, value);
    assert forall i :: 0 <= i < |next| ==> PathSafeKey(next[i]);
    if Expandable(value) {
      LeavesResolve(root, next, value);
    }
  }

  /** The entry's path is the join of the extended segments, and it resolves to the entry's value. */
  lemma EntryPath(root: Json, segs: seq<string>, parent: Json, key: string, value: Json)
    requires forall i :: 0 <= i < |segs| ==> PathSafeKey(segs[i])
    requires PathSafeKey(key)
    requires Walk(root, segs) == Ok(parent) && IsContainer(parent)
    requires Has(parent, key) && Get(parent, key) == value
    ensures PathOf(segs + [key]) == ChildPath(PathOf(segs), key)
    ensures Walk(root, segs + [key]) == Ok(value)
    ensures GetValueByPath(root, ChildPath(PathOf(segs), key)) == Ok(value)
  {
    var next := segs + [key];
    assert forall i :: 0 <= i < |next| ==> PathSafeKey(next[i]);
    // The child's path is the join of the extended segment list ...
    if segs == [] {
      assert ChildPath(PathOf(segs), key) == PathOf(next);
    } else {
      JoinNonEmpty(segs);
      JoinSnoc(segs, key);
    }
    // ... which splits back into that list ...
    SplitJoin(next);
    // ... and resolves to the entry's value.
    WalkAppend(root, segs, [key]);
    assert Walk(parent, [key]) == Walk(value, []);
  }

  /** The field picker's paths select, through `getValueByPath`, exactly the values it offered. */
  lemma PickedPathsResolve(data: Json)
    requires PathSafe(data)
    ensures forall e :: e in Leaves(data, "") ==> GetValueByPath(data, e.0) == Ok(e.1)
  {
    LeavesResolve(data, [], data);
  }

  // ---------------------------------------------------------------------------
  // Enumeration order and completeness

  /** The concatenation, in order, of a list of lists. */
  function Flatten<T>(xss: seq<seq<T>>): seq<T>
    decreases |xss|
  {
    if xss == [] then [] else xss[0] + Flatten(xss[1..])
  }

  /** Every element of one of the lists is in their concatenation. */
  lemma {:induction false} FlattenMember<T>(xss: seq<seq<T>>, i: nat, x: T)
    requires i < |xss| && x in xss[i]
    ensures x in Flatten(xss)
    decreases i
  {
    if i > 0 {
      FlattenMember(xss[1..], i - 1, x);
    }
  }

  /** The pairs of each array entry, one list per index. */
  function ItemEntries(items: seq<Json>, parentPath: string): seq<seq<(string, Json)>>
  {
    seq(|items|, i requires 0 <= i < |items| => EntryLeaves(NatToString(i), items[i], parentPath))
  }

  /** The pairs of each object entry, one list per entry. */
  function FieldEntries(fields: seq<(string, Json)>, parentPath: string): seq<seq<(string, Json)>>
  {
    seq(|fields|, i requires 0 <= i < |fields| => EntryLeaves(fields[i].0, fields[i].1, parentPath))
  }

  /** The array entries `from..` offer their pairs entry by entry, in index order. */
  lemma {:induction false} ItemLeavesInOrder(items: seq<Json>, from: nat, parentPath: string)
    requires from <= |items|
    ensures ItemLeaves(items, from, parentPath) == Flatten(ItemEntries(items, parentPath)[from..])
    decreases |items| - from
  {
    var es := ItemEntries(items, parentPath);
    if from == |items| {
      assert es[from..] == [];
    } else {
      ItemLeavesInOrder(items, from + 1, parentPath);
      assert es[from..][0] == es[from] && es[from..][1..] == es[from + 1..];
    }
  }

  /** The object entries `from..` offer their pairs entry by entry, in entry order. */
  lemma {:induction false} FieldLeavesInOrder(fields: seq<(string, Json)>, from: nat, parentPath: string)
    requires from <= |fields|
    ensures FieldLeaves(fields, from, parentPath) == Flatten(FieldEntries(fields, parentPath)[from..])
    decreases |fields| - from
  {
    var es := FieldEntries(fields, parentPath);
    if from == |fields| {
      assert es[from..] == [];
    } else {
      FieldLeavesInOrder(fields, from + 1, parentPath);
      assert es[from..][0] == es[from] && es[from..][1..] == es[from + 1..];
    }
  }

  /**
    `Object.entries(data).map(...)`: a container offers, in order, the pairs of
    each of its entries, an array's under the index keys "0", "1", ...
   */
  lemma LeavesInOrder(data: Json, parentPath: string)
    ensures data.Arr? ==> Leaves(data, parentPath) == Flatten(ItemEntries(data.items, parentPath))
    ensures data.Obj? ==> Leaves(data, parentPath) == Flatten(FieldEntries(data.fields, parentPath))
  {
    match data
    case Arr(items) =>
      ItemLeavesInOrder(items, 0, parentPath);
      assert ItemEntries(items, parentPath)[0..] == ItemEntries(items, parentPath);
    case Obj(fields) =>
      FieldLeavesInOrder(fields, 0, parentPath);
      assert FieldEntries(fields, parentPath)[0..] == FieldEntries(fields, parentPath);
    case _ =>
  }

  /** `key` is one of the keys `Object.entries(c)` yields: an index below an array's length, or an object's own key. */
  ghost predicate IsEntryKey(c: Json, key: string)
  {
    match c
    case Arr(items) => exists i :: 0 <= i < |items| && key == NatToString(i)
    case Obj(fields) => exists i :: 0 <= i < |fields| && key == fields[i].0
    case _ => false
  }

  /** Each segment is an entry key of the value the segments before it reach. */
  ghost predicate EntryChain(j: Json, segs: seq<string>)
    decreases |segs|
  {
    segs == [] || (IsEntryKey(j, segs[0]) && EntryChain(Get(j, segs[0]), segs[1..]))
  }

  /** An entry of a path-safe container is path-safe, and the pairs it offers are among the container's. */
  lemma EntryStep(c: Json, key: string, parentPath: string)
    requires PathSafe(c) && IsEntryKey(c, key)
    ensures PathSafeKey(key) && Has(c, key) && PathSafe(Get(c, key))
    ensures forall e :: e in EntryLeaves(key, Get(c, key), parentPath) ==> e in Leaves(c, parentPath)
  {
    LeavesInOrder(c, parentPath);
    match c
    case Arr(items) =>
      var i :| 0 <= i < |items| && key == NatToString(i);
      ArrayEntry(items, i);
      assert PathSafeKey(key) by { assert IsDigit(key[0]); }
      forall e | e in EntryLeaves(key, items[i], parentPath) ensures e in Leaves(c, parentPath) {
        FlattenMember(ItemEntries(items, parentPath), i, e);
      }
    case Obj(fields) =>
      var i :| 0 <= i < |fields| && key == fields[i].0;
      ObjectEntry(fields, i);
      forall e | e in EntryLeaves(key, fields[i].1, parentPath) ensures e in Leaves(c, parentPath) {
        FlattenMember(FieldEntries(fields, parentPath), i, e);
      }
  }

  /** Moving the first segment over to the prefix keeps the whole path. */
  lemma MoveFirst(pre: seq<string>, segs: seq<string>)
    requires segs != []
    ensures pre + segs == (pre + [segs[0]]) + segs[1..]
  {
    assert segs == [segs[0]] + segs[1..];
  }

  /** One more path-safe key: the child's path is the join of the extended segments, all still path-safe. */
  lemma ExtendPath(pre: seq<string>, key: string)
    requires forall i :: 0 <= i < |pre| ==> PathSafeKey(pre[i])
    requires PathSafeKey(key)
    ensures Join(pre + [key]) == ChildPath(PathOf(pre), key)
    ensures forall i :: 0 <= i < |pre + [key]| ==> PathSafeKey((pre + [key])[i])
  {
    if pre != [] {
      JoinNonEmpty(pre);
      JoinSnoc(pre, key);
    }
  }

  /** A successful descent goes through the first segment's value. */
  lemma DescendFirst(data: Json, segs: seq<string>, v: Json)
    requires segs != [] && Descend(data, segs) == Some(v)
    ensures Descend(Get(data, segs[0]), segs[1..]) == Some(v)
    ensures |segs| == 1 ==> Get(data, segs[0]) == v
    ensures |segs| > 1 ==> IsContainer(Get(data, segs[0]))
  {
  }

  /** Following entry keys below the value reached by `pre` down to a non-object `v` finds `v` offered. */
  lemma {:induction false} LeafOffered(data: Json, pre: seq<string>, segs: seq<string>, v: Json)
    requires forall i :: 0 <= i < |pre| ==> PathSafeKey(pre[i])
    requires PathSafe(data) && segs != [] && EntryChain(data, segs)
    requires Descend(data, segs) == Some(v) && !IsContainer(v)
    ensures (Join(pre + segs), v) in Leaves(data, PathOf(pre))
    decreases |segs|
  {
    var key := segs[0];
    var value := Get(data, key);
    var next := pre + [key];
    EntryStep(data, key, PathOf(pre));
    ExtendPath(pre, key);
    DescendFirst(data, segs, v);
    if |segs| == 1 {
      assert pre + segs == next;
    } else {
      LeafOffered(value, next, segs[1..], v);
      MoveFirst(pre, segs);
    }
  }

  /**
    The picker misses nothing: in a path-safe value, every non-object value
    reached by following entry keys is offered under the dot-join of those keys.
   */
  lemma PickedPathsComplete(data: Json, segs: seq<string>, v: Json)
    requires PathSafe(data) && segs != [] && EntryChain(data, segs)
    requires Descend(data, segs) == Some(v) && !IsContainer(v)
    ensures (Join(segs), v) in Leaves(data, "")
  {
    LeafOffered(data, [], segs, v);
    assert [] + segs == segs;
  }
}
