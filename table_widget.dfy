/**
  The table widget: it picks rows out of the response, filters them by a search
  string, shows them five to a page, and renders one cell per field mapping,
  looking each field up by the last segment of its path. `String()` and
  `toLowerCase()` are parameters, `str` and `lower`.
 */
module TableWidget {
  import opened JsString
  import opened JsValue
  import opened PathResolver
  import opened WidgetTypes

  const PageSize := 5

  // ---------------------------------------------------------------------------
  // Row extraction

  /**
    The rows of a response: none for a falsy response; the response itself when
    it is an array; otherwise its `products` array; otherwise its `data` array;
    otherwise none.
   */
  function Rows(data: Json): (rows: seq<Json>)
    ensures !Truthy(data) ==> rows == []
    ensures data.Arr? ==> rows == data.items
    ensures Truthy(data) && !data.Arr? && Get(data, "products").Arr?
      ==> rows == Get(data, "products").items
    ensures Truthy(data) && !data.Arr? && !Get(data, "products").Arr? && Get(data, "data").Arr?
      ==> rows == Get(data, "data").items
    ensures Truthy(data) && !data.Arr? && !Get(data, "products").Arr? && !Get(data, "data").Arr?
      ==> rows == []
  {
    if !Truthy(data) then []
    else if data.Arr? then data.items
    else if Get(data, "products").Arr? then Get(data, "products").items
    else if Get(data, "data").Arr? then Get(data, "data").items
    else []
  }

  // ---------------------------------------------------------------------------
  // Field lookup by last segment

  /** `jsonPath.split(".").slice(-1).join(".")`: the text after the last dot. */
  function LastSegment(path: string): (s: string)
    ensures '.' !in s
    ensures |s| <= |path| && path[|path| - |s|..] == s
    ensures s == path || (|s| < |path| && path[|path| - |s| - 1] == '.')
    ensures '.' !in path ==> s == path
  {
    var segs := Split(path);
    JoinEndsWithLast(segs);
    assert '.' !in path ==> segs == [path] by {
      if '.' !in path { SplitDotFree(path); }
    }
    var last := segs[|segs| - 1];
    assert last == path || (|last| < |path| && path[|path| - |last| - 1] == '.') by {
      if |segs| > 1 {
        var init := segs[..|segs| - 1];
        assert init + [last] == segs;
        JoinSnoc(init, last);
        assert path == Join(init) + "." + last;
      }
    }
    last
  }

  /** The segment is everything after the last dot: for a dot-free `b`, `a.b` looks up `b`. */
  lemma LastSegmentAfterLastDot(a: string, b: string)
    requires '.' !in b
    ensures LastSegment(a + "." + b) == b
  {
    var path := a + "." + b;
    assert path[|path| - |b|..] == b;
    assert path[|path| - |b| - 1] == '.';
  }

  /** Normalising a normalised path changes nothing. */
  lemma LastSegmentIdempotent(path: string)
    ensures LastSegment(LastSegment(path)) == LastSegment(path)
  {
  }

  /** The value a table looks up for a field: the row's property named by the last segment. */
  function FieldValue(row: Json, field: FieldMapping): (r: Result<Json>)
    ensures r.Throw? <==> Truthy(row) && !IsContainer(row)
    ensures r.Ok? && r.value != Undef ==>
      Has(row, LastSegment(field.jsonPath)) && r.value == Get(row, LastSegment(field.jsonPath))
    ensures !ThrowingRow(row) ==> r == Ok(Get(row, LastSegment(field.jsonPath)))
  {
    var key := LastSegment(field.jsonPath);
    SplitDotFree(key);
    assert Walk(row, [key]) == match Step(row, key) case Throw(e) => Throw(e) case Ok(v) => Walk(v, []);
    GetValueByPath(row, key)
  }

  // ---------------------------------------------------------------------------
  // Search

  /** `String(value).toLowerCase().includes(needle)` for one field of one row. */
  function FieldMatches(row: Json, field: FieldMapping, needle: string,
                        str: Json -> string, lower: string -> string): (r: Result<bool>)
    ensures r.Throw? <==> ThrowingRow(row)
    ensures r.Ok? ==> (r.value <==>
      exists i :: OccursAt(lower(str(FieldValue(row, field).value)), needle, i))
  {
    match FieldValue(row, field)
    case Throw(e) => Throw(e)
    case Ok(v) =>
      ContainsAt(lower(str(v)), needle);
      Ok(Contains(lower(str(v)), needle))
  }

  /** Some field of the row holds the search text. */
  ghost predicate Selected(row: Json, fields: seq<FieldMapping>, needle: string,
                           str: Json -> string, lower: string -> string)
  {
    exists j :: 0 <= j < |fields| && FieldMatches(row, fields[j], needle, str, lower) == Ok(true)
  }

  /** Some field selects the row exactly when the first one does or a later one does. */
  lemma SelectedCons(row: Json, fields: seq<FieldMapping>, needle: string, str: Json -> string, lower: string -> string)
    requires fields != []
    ensures Selected(row, fields, needle, str, lower) <==>
      FieldMatches(row, fields[0], needle, str, lower) == Ok(true) || Selected(row, fields[1..], needle, str, lower)
  {
    if Selected(row, fields[1..], needle, str, lower) {
      var j :| 0 <= j < |fields[1..]| && FieldMatches(row, fields[1..][j], needle, str, lower) == Ok(true);
      assert fields[1..][j] == fields[j + 1];
    }
    if Selected(row, fields, needle, str, lower) {
      var j :| 0 <= j < |fields| && FieldMatches(row, fields[j], needle, str, lower) == Ok(true);
      if j > 0 {
        assert fields[j] == fields[1..][j - 1];
      }
    }
  }

  /** `fields.some(...)`: stops at the first field that matches; a throw propagates. */
  function RowMatches(row: Json, fields: seq<FieldMapping>, needle: string,
                      str: Json -> string, lower: string -> string): (r: Result<bool>)
    ensures r.Ok? ==> (r.value <==> Selected(row, fields, needle, str, lower))
    ensures r.Throw? <==> fields != [] && Truthy(row) && !IsContainer(row)
    decreases |fields|
  {
    if fields == [] then Ok(false)
    else
      var first := FieldMatches(row, fields[0], needle, str, lower);
      SelectedCons(row, fields, needle, str, lower);
      if first.Throw? then Throw(first.exception)
      else if first.value then Ok(true)
      else RowMatches(row, fields[1..], needle, str, lower)
  }

  /** The reference filter: the rows that some field selects, in their original order. */
  ghost function Kept(rows: seq<Json>, fields: seq<FieldMapping>, needle: string,
                      str: Json -> string, lower: string -> string): seq<Json>
    decreases |rows|
  {
    if rows == [] then []
    else (if Selected(rows[0], fields, needle, str, lower) then [rows[0]] else [])
         + Kept(rows[1..], fields, needle, str, lower)
  }

  /** A row on which a field lookup throws: a truthy primitive. */
  predicate ThrowingRow(row: Json) { Truthy(row) && !IsContainer(row) }

  /** Some row throws exactly when the first one does or some later one does. */
  lemma ThrowingRowsCons(rows: seq<Json>)
    requires rows != []
    ensures (exists i :: 0 <= i < |rows| && ThrowingRow(rows[i])) <==>
      ThrowingRow(rows[0]) || exists i :: 0 <= i < |rows[1..]| && ThrowingRow(rows[1..][i])
  {
    assert forall i :: 1 <= i < |rows| ==> rows[i] == rows[1..][i - 1];
  }

  /** `rows.filter(row => fields.some(...))`. */
  function FilterRows(rows: seq<Json>, fields: seq<FieldMapping>, needle: string,
                      str: Json -> string, lower: string -> string): (r: Result<seq<Json>>)
    ensures r.Ok? ==> r.value == Kept(rows, fields, needle, str, lower)
    ensures r.Throw? <==> fields != [] && exists i :: 0 <= i < |rows| && ThrowingRow(rows[i])
    decreases |rows|
  {
    if rows == [] then Ok([])
    else
      var first := RowMatches(rows[0], fields, needle, str, lower);
      var rest := FilterRows(rows[1..], fields, needle, str, lower);
      ThrowingRowsCons(rows);
      if first.Throw? then Throw(first.exception)
      else if rest.Throw? then Throw(rest.exception)
      else Ok((if first.value then [rows[0]] else []) + rest.value)
  }

  /** The filtered rows: all rows for an empty search, else those whose fields hold the lower-cased search. */
  function FilteredRows(rows: seq<Json>, fields: seq<FieldMapping>, search: string,
                        str: Json -> string, lower: string -> string): (r: Result<seq<Json>>)
    ensures search == "" ==> r == Ok(rows)
    ensures search != "" ==> r == FilterRows(rows, fields, lower(search), str, lower)
    ensures r.Ok? ==> IsSubsequence(r.value, rows)
    ensures r.Ok? && search != "" ==> forall x :: x in r.value ==> Selected(x, fields, lower(search), str, lower)
  {
    if !Truthy(Str(search)) then
      SubsequenceRefl(rows);
      Ok(rows)
    else
      KeptIsMatchingSubsequence(rows, fields, lower(search), str, lower);
      FilterRows(rows, fields, lower(search), str, lower)
  }

  /** `a` is `b` with some elements left out, order kept. */
  predicate IsSubsequence(a: seq<Json>, b: seq<Json>)
    decreases |b|
  {
    a == [] ||
    (b != [] && ((a[0] == b[0] && IsSubsequence(a[1..], b[1..])) || IsSubsequence(a, b[1..])))
  }

  /** Filtering keeps an order-preserving subsequence, and every kept row matches the search. */
  lemma {:induction false} KeptIsMatchingSubsequence(rows: seq<Json>, fields: seq<FieldMapping>, needle: string,
                                                      str: Json -> string, lower: string -> string)
    ensures IsSubsequence(Kept(rows, fields, needle, str, lower), rows)
    ensures forall x :: x in Kept(rows, fields, needle, str, lower) ==> Selected(x, fields, needle, str, lower)
    decreases |rows|
  {
    if rows != [] {
      var rest := Kept(rows[1..], fields, needle, str, lower);
      KeptIsMatchingSubsequence(rows[1..], fields, needle, str, lower);
      if Selected(rows[0], fields, needle, str, lower) {
        assert ([rows[0]] + rest)[1..] == rest;
      } else {
        assert [] + rest == rest;
      }
    }
  }

  /** An empty search shows every row. */
  lemma EmptySearchKeepsRows(rows: seq<Json>, fields: seq<FieldMapping>, str: Json -> string, lower: string -> string)
    ensures FilteredRows(rows, fields, "", str, lower) == Ok(rows)
  {
  }

  /** A non-empty search with no field mappings shows no rows. */
  lemma {:induction false} NoFieldsNoRows(rows: seq<Json>, search: string, str: Json -> string, lower: string -> string)
    requires search != ""
    ensures FilteredRows(rows, [], search, str, lower) == Ok([])
    decreases |rows|
  {
    if rows != [] {
      NoFieldsNoRows(rows[1..], search, str, lower);
    }
  }

  // ---------------------------------------------------------------------------
  // Pagination

  /** `Math.ceil(n / PAGE_SIZE)`. */
  function TotalPages(n: nat): (t: nat)
    ensures t * PageSize >= n
    ensures t == 0 || (t - 1) * PageSize < n
  {
    (n + PageSize - 1) / PageSize
  }

  /** Where `s.slice` starts or ends for a bound `i`: negative bounds count from the end; both clamp. */
  function SliceBound(len: nat, i: int): (b: nat)
    ensures b <= len
  {
    if i < 0 then (if len + i < 0 then 0 else len + i)
    else if i > len then len
    else i
  }

  /** `s.slice(start, end)`. */
  function Slice(s: seq<Json>, start: int, end: int): (r: seq<Json>)
    ensures 0 <= start <= end ==> r == s[SliceBound(|s|, start)..SliceBound(|s|, end)]
  {
    var from, to := SliceBound(|s|, start), SliceBound(|s|, end);
    if from < to then s[from..to] else []
  }

  /** The rows of page `page` (counted from 1). */
  function PageRows(rows: seq<Json>, page: int): (r: seq<Json>)
    ensures page >= 1 ==> |r| <= PageSize
  {
    Slice(rows, (page - 1) * PageSize, page * PageSize)
  }

  /** Pages 1..k, one after the other. */
  function PagesUpTo(rows: seq<Json>, k: nat): seq<Json>
  {
    if k == 0 then [] else PagesUpTo(rows, k - 1) + PageRows(rows, k)
  }

  /** The first k pages are the first 5k rows. */
  lemma {:induction false} PagesUpToPrefix(rows: seq<Json>, k: nat)
    ensures PagesUpTo(rows, k) == rows[..if k * PageSize <= |rows| then k * PageSize else |rows|]
  {
    if k > 0 {
      PagesUpToPrefix(rows, k - 1);
      var lo := if (k - 1) * PageSize <= |rows| then (k - 1) * PageSize else |rows|;
      var hi := if k * PageSize <= |rows| then k * PageSize else |rows|;
      assert PageRows(rows, k) == rows[lo..hi];
      assert rows[..lo] + rows[lo..hi] == rows[..hi];
    }
  }

  /** Pages 1..totalPages, concatenated, are exactly the rows. */
  lemma PagesCoverRows(rows: seq<Json>)
    ensures PagesUpTo(rows, TotalPages(|rows|)) == rows
  {
    PagesUpToPrefix(rows, TotalPages(|rows|));
  }

  /** A page from 1 to totalPages holds rows; a page past it holds none. */
  lemma PageNonEmptyInRange(rows: seq<Json>, page: int)
    requires page >= 1
    ensures PageRows(rows, page) != [] <==> page <= TotalPages(|rows|)
  {
  }

  // ---------------------------------------------------------------------------
  // Cells

  /** `String(value ?? "--")`: null and undefined show the placeholder. */
  function CellDisplay(v: Json): (d: Display)
    ensures d.Placeholder? <==> IsNullish(v)
    ensures d.Stringified? ==> d.v == v
  {
    if IsNullish(v) then Placeholder else Stringified(v)
  }

  /** One row's cells, one per field mapping, in mapping order. */
  function RowCells(row: Json, fields: seq<FieldMapping>): (r: Result<seq<Display>>)
    ensures r.Throw? <==> fields != [] && ThrowingRow(row)
    ensures r.Ok? ==> |r.value| == |fields|
    ensures r.Ok? ==> forall j :: 0 <= j < |fields| ==>
      FieldValue(row, fields[j]).Ok? && r.value[j] == CellDisplay(FieldValue(row, fields[j]).value)
    decreases |fields|
  {
    if fields == [] then Ok([])
    else
      var first := FieldValue(row, fields[0]);
      var rest := RowCells(row, fields[1..]);
      if first.Throw? then Throw(first.exception)
      // A row that passes one lookup passes them all.
      else if rest.Throw? then assert false; Throw(TypeError)
      else
        var r := [CellDisplay(first.value)] + rest.value;
        assert forall j :: 0 <= j < |fields| ==>
          FieldValue(row, fields[j]).Ok? && r[j] == CellDisplay(FieldValue(row, fields[j]).value) by {
          forall j | 0 <= j < |fields|
            ensures FieldValue(row, fields[j]).Ok? && r[j] == CellDisplay(FieldValue(row, fields[j]).value)
          {
            if j > 0 {
              assert fields[j] == fields[1..][j - 1] && r[j] == rest.value[j - 1];
            }
          }
        }
        Ok(r)
  }

  /** The header: the mappings' labels in mapping order. */
  function Header(fields: seq<FieldMapping>): (h: seq<string>)
    ensures |h| == |fields| && forall j :: 0 <= j < |fields| ==> h[j] == fields[j].labelText
  {
    seq(|fields|, j requires 0 <= j < |fields| => fields[j].labelText)
  }

  /** The body of the table: the cells of each row of the page, in row order. */
  function BodyCells(pageRows: seq<Json>, fields: seq<FieldMapping>): (r: Result<seq<seq<Display>>>)
    ensures r.Throw? <==> fields != [] && exists i :: 0 <= i < |pageRows| && ThrowingRow(pageRows[i])
    ensures r.Ok? ==> |r.value| == |pageRows|
    ensures r.Ok? ==> forall i :: 0 <= i < |pageRows| ==> RowCells(pageRows[i], fields) == Ok(r.value[i])
  {
    MapResults(pageRows, row => RowCells(row, fields))
  }

  // ---------------------------------------------------------------------------
  // Page and search state

  /** The Prev button is shown (more than one page) and enabled (not on page 1). */
  predicate PrevEnabled(page: int, totalPages: nat) { totalPages > 1 && page != 1 }

  /** The Next button is shown (more than one page) and enabled (not on the last page). */
  predicate NextEnabled(page: int, totalPages: nat) { totalPages > 1 && page != totalPages }

  /** The table's own state: the current page and the search text. */
  class TableState {
    var page: int
    var search: string

    /** Pages count from 1; Prev never moves below page 1. */
    ghost predicate Valid()
      reads this
    {
      page >= 1
    }

    constructor ()
      ensures Valid() && page == 1 && search == ""
    {
      page := 1;
      search := "";
    }

    /** Typing in the search box replaces the search and goes back to page 1. */
    method EditSearch(text: string)
      modifies this
      ensures Valid() && search == text && page == 1
    {
      search := text;
      page := 1;
    }

    /** A click on Prev: one page back unless the button is hidden or disabled. */
    method ClickPrev(totalPages: nat)
      requires Valid()
      modifies this
      ensures Valid() && search == old(search)
      ensures page == if PrevEnabled(old(page), totalPages) then old(page) - 1 else old(page)
      ensures 1 <= old(page) <= totalPages ==> 1 <= page <= totalPages
    {
      if PrevEnabled(page, totalPages) {
        page := page - 1;
      }
    }

    /** A click on Next: one page on unless the button is hidden or disabled. */
    method ClickNext(totalPages: nat)
      requires Valid()
      modifies this
      ensures Valid() && search == old(search)
      ensures page == if NextEnabled(old(page), totalPages) then old(page) + 1 else old(page)
      ensures 1 <= old(page) <= totalPages ==> 1 <= page <= totalPages
    {
      if NextEnabled(page, totalPages) {
        page := page + 1;
      }
    }

    /** The rows the current page shows and the page count, for the current search. */
    method Visible(data: Json, fields: seq<FieldMapping>, str: Json -> string, lower: string -> string)
      returns (r: Result<(seq<Json>, nat)>)
      requires Valid()
      ensures r.Throw? <==> FilteredRows(Rows(data), fields, search, str, lower).Throw?
      ensures r.Ok? ==>
        var filtered := FilteredRows(Rows(data), fields, search, str, lower).value;
        r.value.0 == PageRows(filtered, page) && r.value.1 == TotalPages(|filtered|)
        && |r.value.0| <= PageSize
        && IsSubsequence(filtered, Rows(data))
    {
      var filtered := FilteredRows(Rows(data), fields, search, str, lower);
      if filtered.Throw? {
        return Throw(filtered.exception);
      }
      if Truthy(Str(search)) {
        KeptIsMatchingSubsequence(Rows(data), fields, lower(search), str, lower);
      } else {
        SubsequenceRefl(Rows(data));
      }
      r := Ok((PageRows(filtered.value, page), TotalPages(|filtered.value|)));
    }
  }

  /** Every sequence is a subsequence of itself. */
  lemma {:induction false} SubsequenceRefl(a: seq<Json>)
    ensures IsSubsequence(a, a)
    decreases |a|
  {
    if a != [] {
      SubsequenceRefl(a[1..]);
    }
  }
}
