# finboard-groww: a Dafny model of the widget data path

A finboard dashboard shows widgets (cards, tables, charts). Each widget polls an
HTTP endpoint and displays the fields named by its field mappings. A field is
addressed by a dotted path such as `quote.price`. This project models that data
path, from the configured endpoint to the rendered values, and proves
properties of the model:

- `JsString`: the string operations the code relies on:
  - `split(".")` and `join(".")`;
  - the canonical decimal spelling of array indices;
  - `includes`;
  - `trim`.
- `JsValue`: JavaScript values as the dashboard sees them:
  - `undefined` plus parsed JSON;
  - truthiness;
  - `typeof`;
  - the `in` operator and property access.
- `PathResolver`: `getValueByPath`, which folds a dotted path over a value.
- `Api`: `fetchApi` with the network as a parameter:
  - Finnhub token injection;
  - status classification;
  - normalisation of primitive arrays.
- `WidgetTypes`: the widget configuration records.
- `WidgetQuery`: the query options `useWidgetData` derives from a widget.
- `TableWidget`: the table widget:
  - row extraction;
  - search;
  - last-segment lookup;
  - pages of five;
  - cells;
  - its page/search state as the class `TableState`.
- `ChartWidget`: the chart widget's chain of early returns and its series.
- `CardWidget`: the card widget's per-mapping, full-path lookup.
- `JsonExplorer`: the field picker's enumeration of `(path, value)` pairs. It is proved to round-trip with `getValueByPath`.
- `WidgetBuilder`: the "Add New Widget" form, as the class `Form`.

Throwing JavaScript is modelled with `Result<T> = Ok(value) | Throw(exception)`.
`String()`, `toLowerCase()` and `Number()` are function parameters (`str`,
`lower`, `toNumber`) that the model does not interpret. What a widget shows for a value
is `Display = Placeholder | Stringified(v)`: the placeholder `--` or `String(v)`.

A missing path is not an error: the resolver returns `undefined` for it. A
truthy primitive on the way is different. The code evaluates `key in acc` on
any truthy accumulator, and `in` on a non-empty string, a non-zero number or
`true` throws a TypeError. So `Step`, `Walk` and everything built on them
report that case as `Throw(TypeError)`.

## Model

| member | source | states |
|---|---|---|
| JsString.ContainsAt | src/components/widgets/TableWidget.tsx:40 | `includes` holds exactly when the searched text occurs at some position of the string |
| JsString.Split | src/utils/getValueByPath.ts:2 | `split(".")` gives at least one segment, none containing a dot, and joining them with dots gives back the path |
| JsString.SplitJoin | src/utils/getValueByPath.ts:2 | splitting the dot-join of non-empty, dot-free segments gives back those segments |
| JsString.ParseIndexOfNat | src/utils/getValueByPath.ts:3 | the decimal spelling of every natural number is read back as that array index |
| JsString.Trim | src/components/widgets/WidgetBuilder.tsx:29 | `trim()` is empty exactly when the string is all whitespace |
| JsValue.FalsyValues | src/utils/getValueByPath.ts:3 | the falsy values are exactly undefined, null, false, 0 and "" |
| JsValue.Has | src/utils/getValueByPath.ts:3 | `key in acc` finds keys only in arrays and objects |
| JsValue.HasCharacterized | src/utils/getValueByPath.ts:3 | `in` finds exactly an object's own keys, and an array's "length" and the decimal spellings of its indices below the length |
| JsValue.Get | src/utils/getValueByPath.ts:4 | `acc[key]` is undefined for a key `in` does not find, and an array's "length" is its length |
| JsValue.MapResults | src/components/widgets/TableWidget.tsx:96-112 | `map` with a callback that may throw: it throws exactly when the callback throws on some element, and then with the exception of the first such element; otherwise it holds the callback's value for every element, in order |
| JsValue.Prop | src/components/widgets/ChartWidget.tsx:41-42 | property access throws exactly on null and undefined |
| JsValue.ArrayEntry | src/utils/getValueByPath.ts:3-4 | an array has every index below its length as a key, and the key holds the element |
| JsValue.ObjectEntry | src/utils/getValueByPath.ts:3-4 | an object with unique keys has each of its keys, and the key holds the value stored under it |
| PathResolver.GetValueByPath | src/utils/getValueByPath.ts:1-8 | only TypeErrors are thrown; a falsy root gives undefined; a dot-free path is a single step |
| PathResolver.Walk | src/utils/getValueByPath.ts:2-7 | the reduce over the segments throws only TypeErrors, and from a falsy accumulator gives undefined |
| PathResolver.Step | src/utils/getValueByPath.ts:3-6 | one reduction step throws a TypeError exactly on a truthy primitive; a defined result is the own property of a container that has the key |
| PathResolver.UndefAbsorbs | src/utils/getValueByPath.ts:3-6 | once the accumulator is undefined, every remaining segment leaves it undefined |
| PathResolver.FalsyRoot | src/utils/getValueByPath.ts:3-6 | a falsy root (undefined, null, false, 0, "") resolves to undefined for every path |
| PathResolver.WalkAppend | src/utils/getValueByPath.ts:2-7 | resolving `k1 + k2` is resolving `k2` from the result of `k1`, a throw in `k1` included |
| PathResolver.OwnKey | src/utils/getValueByPath.ts:3-4 | a one-segment path naming an object's own key returns that key's value, even a falsy one |
| PathResolver.DescendResolves | src/utils/getValueByPath.ts:2-7 | when every prefix reaches a container holding the next segment, the result is exactly the nested value |
| PathResolver.ResolvedIsDescended | src/utils/getValueByPath.ts:2-7 | conversely, a defined result is always the value reached by such a descent |
| PathResolver.ThrowsIffPrimitiveOnPath | src/utils/getValueByPath.ts:3 | resolution throws exactly when some prefix of the path reaches a truthy primitive with segments left |
| Api.PrepareUrl | src/lib/api.ts:5-19 | it throws exactly when a Finnhub URL without a token meets a missing or empty key, and the error is "Missing Finnhub API key"; any other endpoint is used as is; a Finnhub URL without a token gets `&` (or `?` when it has no query) then `token=` and the key appended |
| Api.UnchangedEndpoint | src/lib/api.ts:5-11 | an endpoint that is not a Finnhub API URL, or that already has `token=`, is requested unchanged |
| Api.TokenAppended | src/lib/api.ts:16-19 | otherwise the URL is the endpoint, then `&` if it has a `?` (else `?`), then `token=` and the key |
| Api.PrepareIdempotent | src/lib/api.ts:8-19 | preparing an already prepared URL returns it unchanged |
| Api.StatusError | src/lib/api.ts:25-31 | no error exactly for 200-299; 429 is the rate-limit error; any other status is "API Error: " followed by the status |
| Api.Normalize | src/lib/api.ts:36-40 | an array whose first element is not of type "object" (the empty array included) becomes `{value: x}` per element, with the same length and order; any other body is returned unchanged |
| Api.NormalizeIdempotent | src/lib/api.ts:36-40 | normalising a normalised body changes nothing |
| Api.FetchApi | src/lib/api.ts:4-41 | the fetch succeeds exactly when the URL can be prepared and the status is 2xx, and then returns the normalised body; otherwise it throws the missing-key error, or the status error (rate limit for 429, "API Error: " and the status otherwise) |
| Api.RateLimitFirst | src/lib/api.ts:25-27 | a 429 is reported as the rate-limit error, never as the generic one |
| WidgetTypes.TypeName | src/types/widget.ts:1 | every widget type's literal reads back as that type |
| WidgetTypes.ParseType | src/types/widget.ts:1 | exactly "card", "table" and "chart" denote a widget type |
| WidgetTypes.ParseTypeName | src/types/widget.ts:1 | a type read from a string is written as that string |
| WidgetQuery.Options | src/hooks/useWidgetData.ts:5-12 | the query is enabled exactly when the endpoint is non-empty; the refetch interval is the refresh interval in milliseconds; the fetch uses the widget's endpoint with one retry; the key has three parts and starts with "widget-data" |
| WidgetQuery.KeyIdentifiesWidgetEndpoint | src/hooks/useWidgetData.ts:7 | two widgets share a query key exactly when they share id and endpoint |
| WidgetQuery.SameKeySameFetch | src/hooks/useWidgetData.ts:7-8 | queries under the same key fetch the same endpoint |
| TableWidget.Rows | src/components/widgets/TableWidget.tsx:21-30 | rows are chosen by precedence: falsy data gives none, then the array itself, then `.products`, then `.data`, else none |
| TableWidget.LastSegment | src/components/widgets/TableWidget.tsx:38 | the lookup key is a dot-free suffix of the path that is either the whole path or preceded by a dot, so it is the text after the last dot; a dot-free path is its own key |
| TableWidget.LastSegmentAfterLastDot | src/components/widgets/TableWidget.tsx:38 | for a dot-free `b`, the path `a.b` looks up exactly `b` |
| TableWidget.LastSegmentIdempotent | src/components/widgets/TableWidget.tsx:38 | normalising a normalised path changes nothing |
| TableWidget.FieldValue | src/components/widgets/TableWidget.tsx:39 | a lookup throws exactly on a truthy primitive row; on any other row it is the row's property under the last segment (undefined when absent or when the row is falsy) |
| TableWidget.FieldMatches | src/components/widgets/TableWidget.tsx:38-40 | one field test throws exactly on a truthy primitive row; otherwise it holds exactly when the search occurs in the lower-cased, stringified last-segment lookup |
| TableWidget.RowMatches | src/components/widgets/TableWidget.tsx:37-41 | `some` over the mappings: its answer is whether some mapping's lower-cased value contains the lower-cased search; it throws exactly when there is a mapping and the row is a truthy primitive |
| TableWidget.FilterRows | src/components/widgets/TableWidget.tsx:36-42 | `filter` returns exactly the reference selection `Kept`; it throws exactly when there is a mapping and some row is a truthy primitive |
| TableWidget.FilteredRows | src/components/widgets/TableWidget.tsx:33-43 | an empty search keeps the rows; any other search filters by the lower-cased search; the result is a subsequence of the rows, and with a search every kept row matches it |
| TableWidget.KeptIsMatchingSubsequence | src/components/widgets/TableWidget.tsx:36-41 | the filtered rows are an order-preserving subsequence of the rows, and each of them matches the search |
| TableWidget.EmptySearchKeepsRows | src/components/widgets/TableWidget.tsx:34 | an empty search shows every row unchanged |
| TableWidget.NoFieldsNoRows | src/components/widgets/TableWidget.tsx:37 | a non-empty search with no field mappings keeps no row |
| TableWidget.TotalPages | src/components/widgets/TableWidget.tsx:46 | the page count is `ceil(n / 5)` |
| TableWidget.Slice | src/components/widgets/TableWidget.tsx:47-50 | `slice` with in-range, non-negative bounds is the subsequence between the clamped bounds |
| TableWidget.PageRows | src/components/widgets/TableWidget.tsx:47-50 | a page holds at most five rows |
| TableWidget.PagesUpToPrefix | src/components/widgets/TableWidget.tsx:47-50 | the first k pages together are the first 5k rows |
| TableWidget.PagesCoverRows | src/components/widgets/TableWidget.tsx:46-50 | pages 1 to totalPages, concatenated, reproduce the filtered rows |
| TableWidget.PageNonEmptyInRange | src/components/widgets/TableWidget.tsx:46-50 | a page holds rows exactly when it is between 1 and totalPages |
| TableWidget.CellDisplay | src/components/widgets/TableWidget.tsx:104-108 | a cell shows "--" exactly for null and undefined, and the value itself otherwise |
| TableWidget.RowCells | src/components/widgets/TableWidget.tsx:102-109 | one cell per mapping, in mapping order, each showing that mapping's last-segment lookup |
| TableWidget.Header | src/components/widgets/TableWidget.tsx:88-92 | the header holds the mappings' labels in mapping order |
| TableWidget.BodyCells | src/components/widgets/TableWidget.tsx:96-112 | one line of cells per row of the page, in row order |
| TableWidget.TableState.constructor | src/components/widgets/TableWidget.tsx:17-18 | the table starts on page 1 with an empty search |
| TableWidget.TableState.EditSearch | src/components/widgets/TableWidget.tsx:61-64 | editing the search replaces it and goes back to page 1 |
| TableWidget.TableState.ClickPrev | src/components/widgets/TableWidget.tsx:120-128 | Prev steps back one page only when it is shown and enabled (not on page 1), so a page within 1..totalPages stays within it |
| TableWidget.TableState.ClickNext | src/components/widgets/TableWidget.tsx:134-140 | Next steps on one page only when it is shown and enabled (not on the last page), so a page within 1..totalPages stays within it |
| TableWidget.TableState.Visible | src/components/widgets/TableWidget.tsx:21-50 | the current page of the filtered rows (at most five) and the page count; the filtered rows are a subsequence of the rows |
| TableWidget.SubsequenceRefl | src/components/widgets/TableWidget.tsx:34 | the unfiltered rows are a subsequence of themselves |
| ChartWidget.ChartRows | src/components/widgets/ChartWidget.tsx:38-42 | reading `.products` throws exactly on null and undefined; on truthy data the chart selects the same rows as the table, with the same precedence; other falsy data gives no rows |
| ChartWidget.Series | src/components/widgets/ChartWidget.tsx:54-62 | one point per row; point i carries index i and the numeric conversion of row i's last-segment lookup; it throws exactly when some row is a truthy primitive |
| ChartWidget.Chart | src/components/widgets/ChartWidget.tsx:22-62 | loading comes before failure, failure (error or falsy data) before "no chart data" (no rows or no mappings); with rows and mappings it plots, throwing exactly when some row is a truthy primitive; a plot has one point per row, from the first mapping |
| ChartWidget.FirstFieldOnly | src/components/widgets/ChartWidget.tsx:52 | charts whose first mappings agree are the same chart |
| CardWidget.ValueDisplay | src/components/widgets/CardWidget.tsx:43 | only undefined shows "--"; anything else, null included, shows `String(value)` |
| CardWidget.Entries | src/components/widgets/CardWidget.tsx:33-47 | one entry per mapping, in order, carrying its label and the display of its full-path lookup; it throws exactly when some lookup throws |
| CardWidget.Card | src/components/widgets/CardWidget.tsx:21-49 | the loading and error indicators are the query's flags, independent of each other and of the entries; entries exist exactly when data is truthy |
| CardWidget.NestedPath | src/utils/getValueByPath.ts:2-7 | an illustration of `PathResolver.DescendResolves`: a two-segment path reaches the value nested two objects deep |
| CardWidget.FullPathResolved | src/components/widgets/CardWidget.tsx:34 | an illustration of `Entries`: the card resolves the whole path, so `outer.inner` shows the nested value |
| JsonExplorer.ChildPath | src/components/widgets/JsonExplorer.tsx:21 | a child's path is the key itself under the root, otherwise `parent.key` for every key; for a dot-free key its segments are the parent's plus the key |
| JsonExplorer.Leaves | src/components/widgets/JsonExplorer.tsx:14-16 | a value that is not an object, or is null, offers nothing; only non-object values are ever offered |
| JsonExplorer.ItemLeaves | src/components/widgets/JsonExplorer.tsx:20 | array entries offer only non-object values |
| JsonExplorer.FieldLeaves | src/components/widgets/JsonExplorer.tsx:20 | object entries offer only non-object values |
| JsonExplorer.ItemLeavesInOrder | src/components/widgets/JsonExplorer.tsx:20 | the array entries from index `from` on offer, in index order, each entry's pairs under its index key "0", "1", ... |
| JsonExplorer.FieldLeavesInOrder | src/components/widgets/JsonExplorer.tsx:20 | the object entries from position `from` on offer, in entry order, each entry's pairs under its own key |
| JsonExplorer.LeavesInOrder | src/components/widgets/JsonExplorer.tsx:14-20 | a container offers exactly the concatenation, in `Object.entries` order, of the pairs of each of its entries |
| JsonExplorer.EntryLeaves | src/components/widgets/JsonExplorer.tsx:21-47 | a non-object entry is offered as exactly `(path, value)`; an object or array entry is explored, with its own path as the parent path |
| JsonExplorer.LeavesResolve | src/components/widgets/JsonExplorer.tsx:14-47 | every pair offered below a value reached by some segments resolves, through the resolver, from the root to its value |
| JsonExplorer.EntryLeavesResolve | src/components/widgets/JsonExplorer.tsx:21-47 | every pair offered under one entry resolves from the root to its value |
| JsonExplorer.PickedPathsResolve | src/components/widgets/JsonExplorer.tsx:21 | when no key is empty or contains a dot and no object repeats a key, every offered `(path, value)` satisfies `getValueByPath(data, path) = value` |
| JsonExplorer.LeafOffered | src/components/widgets/JsonExplorer.tsx:14-47 | below a value reached by path-safe segments, following entry keys (array indices below the length, own object keys) down to a non-object value finds that value offered under the joined path |
| JsonExplorer.PickedPathsComplete | src/components/widgets/JsonExplorer.tsx:14-47 | conversely, under the same conditions on keys, every non-object value reached by following entry keys is offered, under the dot-join of those keys |
| WidgetBuilder.Draft | src/components/widgets/WidgetBuilder.tsx:29-43 | no widget for a title that trims to empty; otherwise the given id and creation time, the chosen type and endpoint, the untrimmed title and no field mappings |
| WidgetBuilder.DraftQuery | src/components/widgets/WidgetBuilder.tsx:31-43 | a created widget refetches every 60000 ms and is enabled exactly when the endpoint is non-empty |
| WidgetBuilder.StoreState | src/store/index.ts:7-9 | the store is a record that has its `widgets` list |
| WidgetBuilder.AddWidgetUndefined | src/components/widgets/WidgetBuilder.tsx:18 | the `addWidget` the form selects is not in the store, so it reads `undefined` |
| WidgetBuilder.Form.constructor | src/components/widgets/WidgetBuilder.tsx:20-24 | the form opens with title "", type card, endpoint "" and the test request off |
| WidgetBuilder.Form.EditTitle | src/components/widgets/WidgetBuilder.tsx:61-63 | editing the title changes only the title |
| WidgetBuilder.Form.ChooseType | src/components/widgets/WidgetBuilder.tsx:75-78 | a type button sets the type (one of card, table, chart) and nothing else |
| WidgetBuilder.Form.EditEndpoint | src/components/widgets/WidgetBuilder.tsx:98-103 | editing the endpoint sets it and switches the test request off |
| WidgetBuilder.Form.ClickTestApi | src/components/widgets/WidgetBuilder.tsx:109-111 | Test API switches the test request on, and does nothing while the endpoint is empty; the test request is never on for an empty endpoint |
| WidgetBuilder.Form.CreateAsWritten | src/components/widgets/WidgetBuilder.tsx:28-48 | as written: a blank title returns quietly; any other title throws a TypeError from calling `addWidget`, and no widget is created |
| WidgetBuilder.Form.Create | src/components/widgets/WidgetBuilder.tsx:28-46 | as intended: a blank title changes nothing; otherwise it yields the drafted widget and resets the title to "" and the type to card, keeping the endpoint and the test switch |

## Left out

- The network, `response.json()` and the environment variable are not modelled. `Api.FetchApi` takes the key as a parameter and the server as a function from URL to (status, parsed body). Transport failures and malformed JSON bodies are therefore not modelled.
- React Query is not modelled: polling timers, request coalescing, retry execution and caching. Only the options the hooks pass are modelled. `useTestApi` is a bare pass-through of the form's endpoint and test switch.
- The widget store has no operations to model: it only holds an empty `widgets` list. Adding, removing, reordering and persistence do not exist in it.
- `formatTime` (date and locale formatting) is not modelled.
- Pure presentation is not modelled: the dashboard, the modal, the widget container and header, drag-and-drop sorting, the recharts drawing, and the form's status lines for the test request.
- The table's loading, error and "No data found" lines are not modelled: they are direct tests of the query flags and of the page length. Whether the pager is shown (`totalPages > 1`) is part of `PrevEnabled` and `NextEnabled`.
- `String()`, `toLowerCase()` and `Number()` are uninterpreted parameters. Their float, NaN and Unicode-casing behaviour is outside the model.
- Numbers are integers. Floating-point values, NaN and Infinity are not modelled.
- `in` and property access see own properties only. Prototype keys such as "toString" are not modelled, and neither are a string primitive's `length` and index properties (`Get` on a primitive is undefined).
- Array index keys are not capped at 2^32 - 2.
- An object's fields are taken to be in `Object.entries` order. JavaScript's ordering of integer-like keys first is not modelled.
- `Obj` values with a repeated key stand for no JavaScript object. `JSON.parse` keeps the last of repeated keys, while `Get` here reads the first. Results that depend on which one is read are not meaningful for such values. The explorer's round trip and completeness assume unique keys (`PathSafe`).
- Strings are sequences of code points, not UTF-16 code units.
- `TableWidget.TableState.ClickPrev`: keeps the page within 1..totalPages only when it starts there. A data refresh that shrinks the result can leave the page past the last page; the code does not clamp it, and neither does the model.
- `WidgetBuilder.Form.Create`: models handing the widget over as returning it. What the store would do with it is not part of this model.

## Findings

| source | as written | input that shows it | evidently intended | confidence | as-written member | corrected member |
|---|---|---|---|---|---|---|
| src/components/widgets/WidgetBuilder.tsx:18 | `addWidget` is read from a store (src/store/index.ts:3-9) that defines no `addWidget`, so it is `undefined`. `handleCreate` calls it on every non-blank title and throws a TypeError before the form is reset, so no widget is ever created | title "AAPL", any type and endpoint | the widget is built and handed to the store, then the title and type are reset | high; not executed | WidgetBuilder.Form.CreateAsWritten | WidgetBuilder.Form.Create |
