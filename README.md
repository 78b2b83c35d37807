# Import CSV to work item discussions — a Dafny model

This project models the part of the Azure Boards extension "Import CSV to
discussions" that does real work: the per-row body of the import dialog's
`okCallback`. When the user presses Import, the dialog result (the CSV file's
text) is checked for emptiness. The CSV is parsed into rows. Each row is
rendered as an HTML table comment: its title row spans every column, its
header row holds the column names and its body row holds the values. The
`Title` and `WorkItemId` columns are left out of the table. The comment is then
POSTed, as `{ "text": ... }`, to the comments endpoint of every work item named
in the row's `;`-separated `WorkItemId` cell.

Files and modules:

- `wrappers.dfy` (`Wrappers`): the `Option` type.
- `sequences.dfy` (`Sequences`): `Filter`, `Map` and the positions a filter
  keeps. These stand for the filtering and pushing loops of the handler.
- `js_strings.dfy` (`JsStrings`): the JavaScript built-ins the handler uses:
  `String.prototype.trim` (with the exact white-space set of ECMA-262),
  `split` on one character, `Array.prototype.join`, and the decimal text of a
  number inside a template literal.
- `json.dfy` (`Json`): `JSON.stringify` of the `{ text }` object (the escapes of
  the QuoteJSONString operation of ECMA-262), plus a decoder for JSON
  string literals used to prove that the body carries the comment unchanged.
- `import_csv_discussions.dfy` (`ImportCsvDiscussions`): rows, the comment
  template, the requests, and the methods that mirror the handler's loops.
  The `Page` class records every `fetch` and `alert` issued, in order.

External inputs become parameters:

- The host's resource-area URL, the project name and the access token are the
  three strings of an `Endpoint`.
- The CSV parser's output is a `seq<Record>`. A `Record` is a sequence of
  (column, value) pairs in `Object.keys` order.
- `fetch` appends a `Request` to `Page.sent`, and `alert` appends to
  `Page.alerts`.

What the code does and does not do:

- Work item ids are only trimmed. No characters are removed and no integer
  check is made. So the WorkItemId `;abc` yields one request, to work item
  `abc` (`NonNumericIdScenario`).
- The code has no retry, no failure tracking and no failure CSV.
- A row whose WorkItemId cell is absent throws when `split` is called. That
  happens inside the row's own `async` callback, so only that row posts
  nothing. The other rows go on.

## Model

| member | source | states |
|---|---|---|
| Sequences.Filter | src/import-csv-discussions-action.ts:69-76 | the kept elements all come from the input and satisfy the test; never longer than the input |
| Sequences.KeptIndices | src/import-csv-discussions-action.ts:69-76 | the kept positions are strictly increasing and are exactly the positions whose element passes the test |
| Sequences.FilterSelects | src/import-csv-discussions-action.ts:69-76 | the filtered sequence is, element for element, the input at the kept positions, so the input order is preserved |
| Sequences.Map | src/import-csv-discussions-action.ts:73-74 | one output per input, output `i` is `f` of input `i` |
| JsStrings.TrimStartShape | src/import-csv-discussions-action.ts:103 | trimming the front cuts only white space and stops at a non-white-space character |
| JsStrings.TrimEndShape | src/import-csv-discussions-action.ts:103 | trimming the back cuts only white space and stops after a non-white-space character |
| JsStrings.TrimStartAt | src/import-csv-discussions-action.ts:103 | any white-space prefix followed by a non-white-space character (or the end) is exactly what the front trim removes |
| JsStrings.TrimEndAt | src/import-csv-discussions-action.ts:103 | any white-space suffix preceded by a non-white-space character (or the start) is exactly what the back trim removes |
| JsStrings.TrimUnique | src/import-csv-discussions-action.ts:103 | `trim()` gives the unique core of the string between white-space edges whose ends are not white space |
| JsStrings.TrimHasNoEdgeSpace | src/import-csv-discussions-action.ts:105 | a trimmed id has no white space at either end |
| JsStrings.TrimWithin | src/import-csv-discussions-action.ts:105 | a trimmed id contains only characters of the original token |
| JsStrings.Split | src/import-csv-discussions-action.ts:98 | `split(";")` gives at least one token and no token contains the separator |
| JsStrings.JoinSplit | src/import-csv-discussions-action.ts:98 | joining the tokens with `;` gives back the WorkItemId cell |
| JsStrings.SplitSeparatorFree | src/import-csv-discussions-action.ts:98 | a separator-free prefix stays attached to the first token |
| JsStrings.SplitJoin | src/import-csv-discussions-action.ts:98 | splitting the join of separator-free tokens gives the tokens back, so split and join are inverse |
| JsStrings.DigitChar | src/import-csv-discussions-action.ts:83 | each digit character stands for its digit value |
| JsStrings.NatToDecimal | src/import-csv-discussions-action.ts:83 | `${header.length}` is a non-empty digit string without a leading zero |
| JsStrings.DecimalRoundTrip | src/import-csv-discussions-action.ts:83 | the colspan text reads back as the number it renders |
| JsStrings.LeadingDigits | src/import-csv-discussions-action.ts:83 | the leading digit run is a prefix of digits followed by a non-digit or the end |
| JsStrings.LeadingDigitsOf | src/import-csv-discussions-action.ts:83 | digits followed by the closing quote of the attribute are read off exactly |
| Json.HexDigitValue | src/import-csv-discussions-action.ts:111 | each lower-case hex digit written in a `\u00XX` escape reads back as its value |
| Json.UnescapeChar | src/import-csv-discussions-action.ts:111 | decoding one character as `JSON.stringify` escapes it gives that character back, whatever follows |
| Json.UnescapeEscape | src/import-csv-discussions-action.ts:111 | decoding the escaped text gives back the original string |
| Json.QuoteRoundTrip | src/import-csv-discussions-action.ts:111 | the JSON string literal decodes to the value it was written from |
| Json.TextObjectRoundTrip | src/import-csv-discussions-action.ts:111 | the `text` member of `JSON.stringify({ text })` reads back as the comment text |
| ImportCsvDiscussions.Property | src/import-csv-discussions-action.ts:83 | `record[key]` is undefined exactly when no column has that name |
| ImportCsvDiscussions.PropertyAt | src/import-csv-discussions-action.ts:74 | with distinct column names, `record[key]` for a column's key is that column's value |
| ImportCsvDiscussions.PostedIffNotBlank | src/import-csv-discussions-action.ts:102-103 | the guard `id && id.trim() !== ''` holds exactly when the token is not blank after trimming |
| ImportCsvDiscussions.IdRequests | src/import-csv-discussions-action.ts:101-112 | one request per non-blank token, in token order, each addressed to the trimmed token and carrying the same comment |
| ImportCsvDiscussions.ThInjective | src/import-csv-discussions-action.ts:73 | the `<th>` cell text determines the key inside it |
| ImportCsvDiscussions.CellsMatchColumns | src/import-csv-discussions-action.ts:69-76 | entry `i` of `header` is `<th>key</th>` and entry `i` of `cols` is `<td>record[key]</td>` for the same non-reserved column, with the value inserted verbatim |
| ImportCsvDiscussions.CellCounts | src/import-csv-discussions-action.ts:69-76 | `header` and `cols` have equal length, one entry per non-reserved column |
| ImportCsvDiscussions.ReservedColumnsNotRendered | src/import-csv-discussions-action.ts:70-71 | no `<th>Title</th>` or `<th>WorkItemId</th>` cell is ever produced |
| ImportCsvDiscussions.EveryColumnRendered | src/import-csv-discussions-action.ts:69-76 | every non-reserved column has its `<th>` and `<td>` at the same position |
| ImportCsvDiscussions.ColspanOfComment | src/import-csv-discussions-action.ts:80-83 | the colspan written in the comment reads back as `header.length` |
| ImportCsvDiscussions.TitleCellOfComment | src/import-csv-discussions-action.ts:83 | the title cell holds the title text followed by `</th>` |
| ImportCsvDiscussions.TitleRow | src/import-csv-discussions-action.ts:79-95 | for a row: colspan is the number of non-reserved columns, and the title cell holds `record.Title`, or "undefined" when the row has none |
| ImportCsvDiscussions.CommentsUrlInjective | src/import-csv-discussions-action.ts:105 | the request URL determines the work item id it targets |
| ImportCsvDiscussions.RecordRequestsShareBody | src/import-csv-discussions-action.ts:105-111 | every request of a row is a POST with the bearer token and JSON content type, whose body is that row's comment: identical for every id and decoding back to the comment |
| ImportCsvDiscussions.RecordRequestTargets | src/import-csv-discussions-action.ts:98-112 | a row posts once per `;` token that is not blank after trimming, in token order, to `host + project + /_apis/wit/workItems/ + trim(token) + /comments?api-version=6.0-preview.3`; the trimmed id is non-empty and free of `;`; a row without WorkItemId posts nothing |
| ImportCsvDiscussions.ImportRequestsAppend | src/import-csv-discussions-action.ts:63 | rows are handled in record order: the requests of two row lists in sequence are the first list's followed by the second's |
| ImportCsvDiscussions.SplitTwoIds | src/import-csv-discussions-action.ts:98 | `"12;34".split(";")` is `["12", "34"]` |
| ImportCsvDiscussions.SplitNonNumeric | src/import-csv-discussions-action.ts:98 | `";abc".split(";")` is `["", "abc"]` |
| ImportCsvDiscussions.SplitPadded | src/import-csv-discussions-action.ts:98 | `" 7 ; ".split(";")` is `[" 7 ", " "]` |
| ImportCsvDiscussions.TwoIdRequests | src/import-csv-discussions-action.ts:101-112 | tokens "12" and "34" are posted to 12 then 34 |
| ImportCsvDiscussions.TwoIdsCells | src/import-csv-discussions-action.ts:65-95 | row Title "Fixed bug", WorkItemId "12;34", Notes "done" renders one Notes/done column titled "Fixed bug" |
| ImportCsvDiscussions.TwoIdsScenario | src/import-csv-discussions-action.ts:63-115 | that row posts its comment to items 12 and 34, in that order |
| ImportCsvDiscussions.NonNumericIdScenario | src/import-csv-discussions-action.ts:98-112 | WorkItemId ";abc" posts once, to work item "abc" |
| ImportCsvDiscussions.BlankTokenScenario | src/import-csv-discussions-action.ts:98-112 | WorkItemId " 7 ; " posts once, to "7" |
| JsStrings.IsJsWhiteSpace | src/import-csv-discussions-action.ts:103 | no contract; the white-space set of `trim()`, characterised by `TrimUnique` and `TrimHasNoEdgeSpace` |
| JsStrings.TrimStart | src/import-csv-discussions-action.ts:103 | no contract; characterised by `TrimStartShape` and `TrimStartAt` |
| JsStrings.TrimEnd | src/import-csv-discussions-action.ts:103 | no contract; characterised by `TrimEndShape` and `TrimEndAt` |
| JsStrings.Trim | src/import-csv-discussions-action.ts:103 | no contract; characterised by `TrimUnique`, `TrimHasNoEdgeSpace` and `TrimWithin` |
| JsStrings.Join | src/import-csv-discussions-action.ts:86-91 | no contract; the inverse of `Split`, by `JoinSplit` and `SplitJoin` |
| Json.EscapeChar | src/import-csv-discussions-action.ts:111 | no contract; characterised by `UnescapeChar` |
| Json.Escape | src/import-csv-discussions-action.ts:111 | no contract; inverted by `Unescape`, by `UnescapeEscape` |
| Json.Quote | src/import-csv-discussions-action.ts:111 | no contract; inverted by `Unquote`, by `QuoteRoundTrip` |
| Json.TextObject | src/import-csv-discussions-action.ts:111 | no contract; its `text` member reads back, by `TextObjectRoundTrip` |
| ImportCsvDiscussions.NonReserved | src/import-csv-discussions-action.ts:69-76 | no contract; characterised by `FilterSelects`, `ReservedColumnsNotRendered` and `EveryColumnRendered` |
| ImportCsvDiscussions.Th | src/import-csv-discussions-action.ts:73 | no contract; characterised by `ThInjective` |
| ImportCsvDiscussions.Td | src/import-csv-discussions-action.ts:74 | no contract; characterised by `CellsMatchColumns` |
| ImportCsvDiscussions.HeaderCells | src/import-csv-discussions-action.ts:69-76 | no contract; characterised by `CellsMatchColumns`, `CellCounts` and `BuildCells` |
| ImportCsvDiscussions.BodyCells | src/import-csv-discussions-action.ts:69-76 | no contract; characterised by `CellsMatchColumns`, `CellCounts` and `BuildCells` |
| ImportCsvDiscussions.TitleText | src/import-csv-discussions-action.ts:83 | no contract; characterised by `TitleRow` and `Property` |
| ImportCsvDiscussions.TableRest | src/import-csv-discussions-action.ts:84-95 | no contract; the rows after the title row, with `TitleRowStart` before them; the comment is characterised by `ColspanOfComment`, `TitleCellOfComment` and `TitleRow` |
| ImportCsvDiscussions.CommentText | src/import-csv-discussions-action.ts:79-95 | no contract; characterised by `ColspanOfComment` and `TitleCellOfComment` |
| ImportCsvDiscussions.RenderComment | src/import-csv-discussions-action.ts:79-95 | no contract; characterised by `TitleRow` |
| ImportCsvDiscussions.IsPostedId | src/import-csv-discussions-action.ts:102-103 | no contract; characterised by `PostedIffNotBlank` |
| ImportCsvDiscussions.PostedIds | src/import-csv-discussions-action.ts:102-103 | no contract; characterised by `IdRequests` and `RecordRequestTargets` |
| ImportCsvDiscussions.CommentsUrl | src/import-csv-discussions-action.ts:105 | no contract; characterised by `CommentsUrlInjective` and `RecordRequestTargets` |
| ImportCsvDiscussions.CommentRequest | src/import-csv-discussions-action.ts:105-111 | no contract; characterised by `RecordRequestsShareBody` |
| ImportCsvDiscussions.RecordRequests | src/import-csv-discussions-action.ts:98-112 | no contract; characterised by `RecordRequestTargets`, `RecordRequestsShareBody` and `HandleRecord` |
| ImportCsvDiscussions.ImportRequests | src/import-csv-discussions-action.ts:63 | no contract; characterised by `ImportRequestsAppend` and `OkCallback` |
| ImportCsvDiscussions.Page.constructor | src/import-csv-discussions-action.ts:40-42 | no request and no alert have been issued yet |
| ImportCsvDiscussions.Page.Fetch | src/import-csv-discussions-action.ts:105-112 | `fetch` appends its request to the log and changes nothing else |
| ImportCsvDiscussions.Page.Alert | src/import-csv-discussions-action.ts:120 | `alert` appends its message and issues no request |
| ImportCsvDiscussions.BuildCells | src/import-csv-discussions-action.ts:65-76 | the push loop builds exactly `HeaderCells(row)` and `BodyCells(row)` |
| ImportCsvDiscussions.PostToIds | src/import-csv-discussions-action.ts:101-114 | the `ids.forEach` loop issues exactly `IdRequests` for its tokens, in order, and no alert |
| ImportCsvDiscussions.HandleRecord | src/import-csv-discussions-action.ts:63-115 | one row's callback issues exactly that row's requests and no alert |
| ImportCsvDiscussions.OkCallback | src/import-csv-discussions-action.ts:40-122 | an empty result raises only the "Error : CSV File is Empty." alert and issues no request; otherwise all rows' requests are issued in record order and no alert is raised |

## Left out

- The host SDK calls are left out: the dialog service, extension context,
  location service, project service and `getAccessToken`. The values they
  yield are the fields of `Endpoint`.
- `getDialogResult`, which yields "" when no file form is attached, is left
  out. The model takes the dialog result as an input.
- `csvtojson` parsing is a foreign library. The model takes its output rows as
  input, with columns in `Object.keys` order and values as plain strings. Two
  of its behaviours are not modelled. Object property order puts integer-like
  column names first. Dotted column names become nested objects, which render
  as `[object Object]`.
- The `if(records)` test is not modelled. The parser always yields an array,
  so the test always passes.
- `fetch` is modelled only as issuing a request. Responses, network errors
  and the order in which the `async` callbacks complete are not modelled. The
  order modelled is the order in which the requests are issued: all calls
  happen synchronously, before the first `await`, so row order and token order
  are exact.
- The unhandled promise rejection that a row without WorkItemId causes is not
  recorded. The model shows only that this row issues no request.
- JavaScript strings are UTF-16. The model's strings are Unicode scalar
  values, so the surrogate escapes of `JSON.stringify` never arise. For the
  same reason the decoder rejects every `\u` escape of a surrogate code unit,
  including the two halves of a valid pair.
- `src/file-upload-dialog.ts` is left out. It is UI plumbing: file input,
  `FileReader`, and the change callbacks.
- `webpack.config.js` is left out. It is build configuration.
