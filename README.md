# Receipt results pipeline of the expense tracker

This project models the part of `src/App.jsx` that turns a language model's answer
about a receipt photo into a stored expense, and the handlers around it that guard
store writes:

- `parseAnalysis` strips code fences and backslashes from the answer. It decodes the
  rest as JSON and fills in defaults for the five fields `tipoSpesa`, `importo`,
  `descrizione`, `azienda` and `dataSpesa`. It never throws. It returns a fixed parse-error record when decoding fails, when the
  text decodes to `null`, and also when `join` on a list description throws.
- The completeness gate in `analyzeImage` refuses a record whose `tipoSpesa`, `importo`
  or `azienda` is falsy.
- `saveExpense` refuses to write without a selected expense center. Otherwise it
  inserts a payload that carries `data_spesa` only for a truthy date.
- `handleCreateCenter` refuses a blank name and inserts the trimmed name.
  `handleCenterChange` loads the expenses of the selected center.
- `exportToExcel` refuses an empty list and otherwise names the file after the
  selected center.

Modules:

- `JsText`: JavaScript whitespace, `trim()`, and `join`.
- `Json`: decoded values, truthiness, property access, and the assumptions made about
  the JSON decoder.
- `Unescape`: the backslash `replace` and its lemmas.
- `Cleanup`: the fence `replace`, the composed cleanup `Clean`, and its lemmas.
- `Analysis`: `parseAnalysis` and the gate.
- `App`: the component state as a class `Session` whose methods are the handlers.

The hosted store and the inference service are seen only through their replies, which
are method parameters, and through `writes`, a log of the inserts the store accepted.
`JSON.parse` and number-to-string conversion are fields of a `JsRuntime` value. Lemmas
that depend on the JSON grammar assume only the two facts RFC 8259, section 2 gives:
surrounding whitespace is insignificant, and a text must start with whitespace or the
first character of a value.

The fence regex `/```json\s*|\s*```/g` is modelled as written. At each position the
first alternative is tried before the second, and `\s*` is greedy. As a result:

- A fenced answer `"```json\n" + p + "\n```"` decodes exactly like `p`, for a payload
  `p` that holds no "```" and whose outer whitespace is JSON whitespace
  (`FencedParsesAlike`).
- Any answer that starts with whitespace and then "```json" loses its backticks but
  keeps the word `json`, so it always ends as the parse-error record
  (`IndentedOpenFenceIsParseError`).
  The gate then stops it, and nothing is written (`App.Session.AnalyzeImage`).

## Model

| member | source | states |
|---|---|---|
| JsText.TrimStart | src/App.jsx:71 | the result is a suffix of the input, everything dropped is whitespace, and it does not start with whitespace |
| JsText.TrimEnd | src/App.jsx:71 | the result is a prefix of the input, everything dropped is whitespace, and it does not end with whitespace |
| JsText.Trim | src/App.jsx:71 | the result is no longer than the input and neither starts nor ends with whitespace |
| JsText.TrimStartSkipsSpace | src/App.jsx:71 | leading whitespace does not change what trimming the start yields |
| JsText.TrimStartAppend | src/App.jsx:71 | trimming the start of `x + y`, when `x` is not blank, only affects `x` |
| JsText.TrimEndDropsSpace | src/App.jsx:71 | trailing whitespace after a non-blank end is exactly what trimming the end removes |
| JsText.TrimSurrounded | src/App.jsx:71 | `trim()` of whitespace + core + whitespace is the core, when the core starts and ends with non-whitespace |
| JsText.TrimBlankIffAllSpace | src/App.jsx:71 | `trim()` gives the empty string exactly when the input is all whitespace |
| JsText.IsSpace | src/App.jsx:71 | definition of the whitespace set that `trim()` and `\s` share (WhiteSpace and LineTerminator of ECMAScript) |
| JsText.Join | src/App.jsx:289 | definition of `join` on strings: the parts with the separator between them |
| JsText.JoinSnoc | src/App.jsx:289 | joining one more part appends the separator and that part |
| Json.Get | src/App.jsx:286-292 | definition of `v.key` for the five field names read here, none of which a built-in prototype defines: an own member of an object, and `undefined` for any other non-null value; what this means for the record is stated by the default lemmas below |
| Json.Truthy | src/App.jsx:259-261 | definition of ToBoolean on decoded values: false exactly for null, false, 0 and the empty string |
| Json.ElementText | src/App.jsx:289 | definition of the ToString `join` applies to one element: null is empty, a nested list is joined with ",", an object prints as "[object Object]" and throws (None) when it has its own "toString" member |
| Json.JoinValues | src/App.jsx:289 | definition of `join` on decoded values: it throws (None) when some element's ToString throws |
| Json.OwnToStringThrows | src/App.jsx:289 | a list holding an object with its own "toString" member cannot be joined |
| Json.JoinStrings | src/App.jsx:289 | a list of strings joins to the strings with the separator between them |
| Json.JsonSpaceIsSpace | src/App.jsx:281 | JSON whitespace is JavaScript whitespace, so `\s` and `trim()` remove it |
| Unescape.RemoveBackslashes | src/App.jsx:282 | the result holds no backslash and is no longer than the input |
| Unescape.RemoveBackslashesKeepsOthers | src/App.jsx:282 | every other character is kept as often as it occurs (multiset equality with backslashes removed) |
| Unescape.RemoveBackslashesAppend | src/App.jsx:282 | the replacement distributes over concatenation |
| Unescape.RemoveBackslashesKeepsSpace | src/App.jsx:282 | whitespace passes unchanged |
| Unescape.RemoveBackslashesAround | src/App.jsx:282 | whitespace around a core passes unchanged while the core loses its backslashes |
| Cleanup.StripFences | src/App.jsx:281 | the fence replacement never lengthens the text |
| Cleanup.NoFenceUnchanged | src/App.jsx:281 | text without "```" passes unchanged |
| Cleanup.ClosingFenceRemoved | src/App.jsx:281 | a closing fence on its own line is removed together with the whitespace before it |
| Cleanup.OpeningFenceRemoved | src/App.jsx:281 | the opening "```json" is removed together with every whitespace character after it, the payload's own leading whitespace included, because the first alternative's `\s*` is greedy |
| Cleanup.FencedStripsToTrim | src/App.jsx:281 | a fenced payload without "```" is reduced to the trimmed payload |
| Cleanup.Clean | src/App.jsx:281-282 | the text handed to `JSON.parse` holds no backslash and is no longer than the answer |
| Cleanup.CleanFenced | src/App.jsx:281-282 | cleaning a fenced payload gives the trimmed payload without backslashes |
| Cleanup.CleanWithoutFence | src/App.jsx:281-282 | without "```", cleaning only removes backslashes |
| Cleanup.CleanSurrounded | src/App.jsx:281-282 | without "```", whitespace around the payload survives cleaning |
| Cleanup.IndentedFenceStrips | src/App.jsx:281 | with whitespace before the opening fence, the second alternative consumes the fence and "json" stays |
| Cleanup.IndentedOpenFenceCleansToJson | src/App.jsx:281-282 | any answer starting with whitespace and then "```json" cleans to text starting with the letter j |
| Cleanup.FencedIndentedFence | src/App.jsx:281 | inside the wrapper, whitespace followed by "```json" is removed together with the opening fence |
| Cleanup.OpenFenceThenClosing | src/App.jsx:281 | "```json" directly followed by a fence-free text that starts with non-whitespace, then a closing fence, strips to that text without its trailing whitespace |
| Analysis.ParseErrorRecord | src/App.jsx:300-306 | definition of the record the `catch` branch returns |
| Analysis.Decoded | src/App.jsx:281-283 | definition of `JSON.parse` applied to the cleaned text; None when it throws |
| Analysis.FromDecoded | src/App.jsx:285-293 | definition of the `try` branch after a successful decode; None when the description's `join` throws |
| Analysis.ParseAnalysis | src/App.jsx:279-308 | `tipoSpesa` and `azienda` are always truthy; `dataSpesa` is truthy or null; a failed decode, a decoded `null` or a description whose `join` throws gives the parse-error record; a non-zero `importo` is the decoded JSON number |
| Analysis.ImportoDefault | src/App.jsx:287 | `importo` is the decoded value when it is a number (and the description's `join` does not throw), and 0 otherwise |
| Analysis.TruthyDefaults | src/App.jsx:286-292 | unless the description's `join` throws, a truthy decoded `tipoSpesa`, `azienda` or `dataSpesa` is kept; otherwise it becomes 'Generico', 'Azienda non disponibile' or null |
| Analysis.DescrizioneDefault | src/App.jsx:288-290 | a list is joined with ", " or, when that throws, the whole record is the parse-error record; another truthy value is kept; anything else becomes 'Descrizione non disponibile' |
| Analysis.OwnToStringDescriptionRefused | src/App.jsx:259-306 | a list description holding an object with its own "toString" member gives the parse-error record, which the gate refuses |
| Analysis.DescriptionListJoined | src/App.jsx:288-290 | the list ["Bread", "Milk"] becomes "Bread, Milk" |
| Analysis.NonObjectGivesEmptyRecord | src/App.jsx:284-296 | a decoded number, string, boolean or array gives the all-defaults record, which differs from the parse-error record |
| Analysis.SameDecodeSameRecord | src/App.jsx:283-296 | the record depends on the answer only through what it decodes to |
| Analysis.FencedParsesAlike | src/App.jsx:281-283 | a payload that holds no "```" and is surrounded only by JSON whitespace decodes, and parses, exactly like the same payload wrapped in a "```json" fence |
| Analysis.IndentedOpenFenceIsParseError | src/App.jsx:281-306 | any answer that starts with whitespace followed by "```json" never decodes and gives the parse-error record |
| Analysis.IndentedFenceIsParseError | src/App.jsx:281-306 | in particular a whole fenced answer preceded by whitespace never decodes and gives the parse-error record |
| Analysis.NoBreakSpaceMarginDecodesDifferently | src/App.jsx:281-283 | with U+00A0 as the margin, the fenced answer decodes to what "{}" decodes to, while the bare payload is rejected |
| Analysis.NestedFenceDecodesDifferently | src/App.jsx:281-283 | for the payload " ```json{}", the fenced answer decodes to what "{}" decodes to, while the bare payload is rejected |
| Analysis.IsComplete | src/App.jsx:259 | definition of the gate: `tipoSpesa`, `importo` and `azienda` all truthy |
| Analysis.CompleteIffNonZeroAmount | src/App.jsx:259-261 | the gate passes exactly when the decoded `importo` is a non-zero JSON number and the description's `join` does not throw |
| Analysis.ParseErrorIncomplete | src/App.jsx:259-306 | neither the parse-error record nor the all-defaults record passes the gate |
| App.Payload | src/App.jsx:317-328 | definition of the object `saveExpense` inserts; its promises are stated by SaveExpense and PayloadDateFromAnswer |
| App.PayloadDateFromAnswer | src/App.jsx:292-328 | a payload built from an answer has `data_spesa` exactly when the answer had a truthy `dataSpesa` and its description could be joined, and then it is that value |
| App.CreateWritesTrimmedName | src/App.jsx:69-95 | a blank name only sets the error; at most one center is written, and it is written exactly when the name is not blank and the store accepted it, under the trimmed name |
| App.AfterCreateWrites | src/App.jsx:69-95 | the write log after creating a center gains the trimmed name exactly when it is not empty and the store accepted it |
| App.FirstWithIdShift | src/App.jsx:405 | the first match in the tail is the first match of the whole list when the head does not match |
| App.FindCenter | src/App.jsx:405 | `find` returns nothing exactly when no center has the id, and otherwise the first center with it |
| App.CenterLabel | src/App.jsx:405 | the label is never empty; it is 'centro' when no center has the id; any other label is the name of a center with that id (a matching center with an empty name also gives 'centro') |
| App.FirstWithIdUnique | src/App.jsx:405 | there is only one first center with a given id |
| App.ExportNamedAfterFirstCenter | src/App.jsx:405-406 | the file is "spese_" + the first matching center's name + ".xlsx", or "spese_centro.xlsx" when that name is empty |
| App.RowOf | src/App.jsx:393-399 | definition of one spreadsheet row: the stored date (none when empty or missing), company, kind, amount and description |
| App.ExportRows | src/App.jsx:393-399 | one row per expense |
| App.ExportFileName | src/App.jsx:405-406 | definition of the file name `spese_<label>.xlsx` |
| App.Session.constructor | src/App.jsx:17-25 | the initial state: no centers, no selection, no expenses, no error, nothing written |
| App.Session.FetchCenters | src/App.jsx:35-42 | a reply sets the centers; a failure sets the load error and leaves everything else |
| App.Session.FetchExpenses | src/App.jsx:44-57 | a reply sets the expenses; a failure sets the error with the store's message |
| App.Session.HandleCenterChange | src/App.jsx:59-67 | an empty selection clears the list without a store call; another selection loads its expenses; nothing is written and the expense being edited is unchanged |
| App.Session.HandleCreateCenter | src/App.jsx:69-95 | the new state is `AfterCreate` of the old one (blank name: error only; refused insert: error with the message; accepted insert: the trimmed name is logged, the form reset, centers reloaded, and the first returned center selected and loaded) |
| App.Session.CenterCreated | src/App.jsx:84-92 | the state after an accepted insert |
| App.Session.SaveExpense | src/App.jsx:310-340 | the new state is `AfterSave` of the old one; without a selected center the write log is unchanged and the error asks for a center; a write happens only after an accepted insert and appends exactly one expense carrying the selected center, the image and the record's fields, with `data_spesa` present exactly when the record's date is truthy and then equal to it |
| App.Session.AnalyzeImage | src/App.jsx:227-277 | the error is cleared first; an incomplete record is refused with "Dati incompleti o non validi" and nothing is written; a complete one is saved; an insert happens only for a complete record with a selected center, with that center's payload; an answer that does not decode, decodes to null, or has a description whose `join` throws is never written |
| App.Session.ExportToExcel | src/App.jsx:386-410 | an empty list sets "Nessuna spesa da esportare." and gives no file; otherwise the state is unchanged and the file holds one row per expense in a sheet "Spese" named after the selected center |

## Left out

- Text encoding. JavaScript strings are sequences of UTF-16 code units, while a Dafny
  `char` is a Unicode scalar value, so lone surrogates are not represented. The
  characters the cleanup looks at (whitespace, the backtick, the backslash) all lie in
  the Basic Multilingual Plane, so nothing modelled depends on this.
- The inference call and the store queries themselves. They are remote services: only
  their replies (method parameters) and the accepted inserts (`writes`) are modelled.
- The `select('*')`, `eq` and `order` clauses of the expense query are not modelled;
  the reply stands for their result.
- The edit, update and delete handlers (src/App.jsx:342-384), the receipt viewer, the
  camera and `FileReader`: they are outside the receipt-result path.
- The `selectedCenter` check in `handleImage` (src/App.jsx:210-214): it is outside the
  receipt-result path. `saveExpense` repeats it, and that check is modelled.
- Unawaited `fetchExpenses` calls are applied in program order. Interleavings with other
  events are not modelled.
- The `loading` flag, the JSX rendering and the console logging.
- A null message content from the inference service. The answer is modelled as a
  string; a null makes `replace` throw, which yields the parse-error record as well.
- Floating point. Numbers are exact reals: no NaN, no infinities, no rounding.
  `parseFloat(importo)` on a number is taken as the identity, and `toFixed(2)` is not
  modelled (rows carry the amount).
- Locale date formatting in the export is not modelled: a row carries the stored date,
  or none when it is empty or missing. The XLSX library and the `try`/`catch` around
  it are not modelled.
- `JSON.parse` and number-to-string conversion are not defined. They are parameters,
  constrained only where a lemma requires it.
- Ids are modelled as strings, so the `===` in the export's `find` is string equality.
  The `<select>` delivers a string, but `handleCreateCenter` stores `data[0].id` as the
  store returns it (src/App.jsx:89). If the store's ids are not strings, `find` matches
  after creating a center but never after choosing one by hand; the string model hides
  that difference.
- Analysis.FencedParsesAlike: holds only for a payload without "```" and with JSON
  whitespace around it. Both conditions are needed.
  - Other JavaScript whitespace (such as U+00A0) is removed by `\s` and `trim()`, but
    `JSON.parse` rejects it, so the fenced answer can decode where the bare payload does
    not (Analysis.NoBreakSpaceMarginDecodesDifferently).
  - A payload that itself holds an indented "```json" is cleaned differently inside and
    outside the wrapper (Analysis.NestedFenceDecodesDifferently).
- Switching center: `handleCenterChange` (src/App.jsx:59-67) never touches
  `editingExpense`, so an expense being edited stays in edit; the model follows the code.
