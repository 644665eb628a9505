# node-ms-wmic in Dafny

A model of `lib/ms-wmic.js`, a Node.js wrapper around the Windows `wmic`
tool. The library takes JavaScript option objects and does four things:

- it turns them into `wmic process …` command texts;
- it runs the tool once;
- it filters the tool's output;
- it hands the CSV output to a decoder.

The model covers the pure part of each step. The modules follow the
structure of the library:

- `Outcomes` (`outcomes.dfy`) — error kinds and messages, `Option`,
  `Result`, and `Reply`. A `Reply` is either refused before the tool runs
  or ran.
- `Text` (`text.dfy`) — the string operations the library relies on. These
  are `split`/`join`, `trim`, ASCII `toUpperCase`, `substr(0, n)`,
  `_.contains` on strings, and `String(n)`.
- `JsValues` (`jsvalues.dfy`) — the option values a caller passes in: an
  integer-only JavaScript value, `_.isObject`, property access, `_.keys`,
  and `_.extend`.
- `WhereClause` (`whereclause.dfy`) — `buildWhereClause`, the
  ` where "<prop> <op> '<value>' AND …" ` fragment. The walk over
  `_.keys(opt.where)` with `async.forEachOfSeries` is modelled as a fold
  that stops at the first error.
- `GetClause` (`getclause.dfy`) — `buildGetClause`, the
  ` get Name,ProcessId ` fragment. It includes the full sequence of
  callbacks that `_.each` makes.
- `Executor` (`executor.dfy`) — `execute`: the argument check, and what the
  `close` handler does with the two buffers. It drops every line whose
  first five characters upper-case to `WMIC:`, concatenates the other lines
  without their line feeds, and trims the result. When the error stream is
  non-empty, it also reports that stream, trimmed, as the error.
- `OutputParser` (`outputparser.dfy`) — `parseOuput`: a prior error
  short-circuits it, `\r\r` is repaired into `\n`, and the decoder runs.
  It also follows the path of a successful run, from the tool's raw output
  through the `close` handler to the text the CSV decoder sees.
- `Wmic` (`wmic.dfy`) — `process.get`, `process.list`, `process.call` and
  `process.terminate`.

Two parts of the outside world are parameters:

- **The `wmic` subprocess.** It is `tool: string -> Streams`, a function
  from the command text written to the tool's standard input to everything
  the tool writes to its output and error streams.
- **The CSV decoder.** It is `decode: string -> Decoded`.

Some behaviour of the code is kept as written:

- **A trailing `operator` key leaves the clause open.** The separator after
  a comparison depends on whether more *keys* follow, and `operator` is one
  of the keys. So `{name: 'x', operator: 'or'}` gives ` where "name = 'x' or `
  with no closing quote. When `operator` is absent or comes before the last
  comparison, the clause always ends in `" `. The separator is the caller's
  spelling of the operator, not an upper-cased one.
- **A GET command without a filter has two spaces.** The empty WHERE
  fragment is a single space, so `get` without a filter runs
  `process  get a,b /format:csv`.
- **Values are not escaped.** Quotes in a value are embedded as they are,
  so a clause cannot always be read back into its conditions (see
  `UnescapedValueCollision`). Only a single comparison reads back
  (`RenderRoundTrip`).

## Model

| member | source | states |
|---|---|---|
| WhereClause.CheckComparison | lib/ms-wmic.js:25-34 | A comparison is accepted exactly when the operator is a string and the value is a string or number whose text is non-empty; it keeps the property, the operator and `String(value)`. Each refusal is the TypeError `where object property "<prop>": …` for the first failing check in the source's order: operator not a string, then value not a string or number, then empty value. |
| WhereClause.CheckEntry | lib/ms-wmic.js:58-65 | A plain-object value is accepted exactly when its own `operator` is a string and its `value` a string or number with non-empty text. Any other value is accepted exactly when it is a string or number with non-empty text, and is compared with `=`. An accepted entry keeps its key as the property; a refusal is CheckComparison's TypeError for the operator and value used. |
| WhereClause.EffectiveOperator | lib/ms-wmic.js:45-53 | The separator is the caller's `operator` as written when it is a string (line 40), and `AND` otherwise (line 52). It is valid exactly when the caller gave no string operator or a valid one. |
| WhereClause.BuildWhereClause | lib/ms-wmic.js:6-77 | Without a usable WHERE object, the clause succeeds exactly when it is optional, and then it is a single space. A clause with conditions opens with ` where "`. A RangeError only happens for a required clause whose WHERE object is empty. Every clause starts with a space. |
| WhereClause.VisitedEntries | lib/ms-wmic.js:52-58 | The walk visits the keys taken before `operator` is defaulted, in order. Every entry other than `operator` keeps its value. |
| WhereClause.Fold | lib/ms-wmic.js:57-68 | Every error of the walk is a TypeError; what the walk writes and when it fails are given by FoldSucceedsIffAllValid, FoldStopsAtFirstInvalid and FoldShape. |
| WhereClause.FoldSucceedsIffAllValid | lib/ms-wmic.js:57-68 | The walk over the keys succeeds if and only if every entry passes its checks. |
| WhereClause.FoldStopsAtFirstInvalid | lib/ms-wmic.js:57-68 | The walk's error is the error of the first invalid entry in key order, whatever follows it. |
| WhereClause.FoldShape | lib/ms-wmic.js:35-68 | A successful walk writes the comparisons other than `operator`, in key order, joined by ` <op> `. It closes with `" ` unless the last key is `operator`, in which case every comparison is followed by the separator. |
| WhereClause.WhereClauseShape | lib/ms-wmic.js:45-68 | With a valid operator and valid entries, the clause is ` where "` followed by the reference body of joined comparisons. |
| WhereClause.OptionalOnlyRelaxesStructure | lib/ms-wmic.js:16-76 | When there are conditions, `optional` changes nothing. A required clause reports the exact TypeError or RangeError for a missing `opt`, a missing `where`, or an empty `where`. |
| WhereClause.BadOperatorRefused | lib/ms-wmic.js:45-48 | A string operator that does not upper-case to AND or OR is refused with SyntaxError `opt.where.operator must be "AND" or "OR"`, whatever `optional` is. |
| WhereClause.OperatorEntryIsSilent | lib/ms-wmic.js:35-52 | An `operator` key never fails its checks once the operator has its effective string value. |
| WhereClause.WhereFirstInvalidWins | lib/ms-wmic.js:25-68 | The builder reports the first invalid entry's TypeError, whatever follows it. |
| WhereClause.DefaultedOperatorClosesClause | lib/ms-wmic.js:40-53 | Without an `operator` key, a successful clause ends with `" `. |
| WhereClause.OperatorLastLeavesClauseOpen | lib/ms-wmic.js:40 | When `operator` is the last key, the clause is the comparisons each followed by ` <op> `, with no closing quote. |
| WhereClause.ValidOperatorSpellings | lib/ms-wmic.js:46 | The accepted operators are exactly the eight case spellings of AND and the four of OR. |
| WhereClause.RenderRoundTrip | lib/ms-wmic.js:39 | A comparison whose property and operator have no space is read back into the same property, operator and value, whatever the value holds. |
| WhereClause.SingleKeyClause | lib/ms-wmic.js:39-55 | `{where: {k: v}}` gives ` where "k = 'v'" `, whether or not the clause is optional. |
| WhereClause.ObjectConditionClause | lib/ms-wmic.js:39-61 | A key whose value is `{operator, value}` is written with the caller's operator: `{where: {name: {operator: 'LIKE', value: 'x%'}}}` gives ` where "name LIKE 'x%'" `. |
| WhereClause.TwoKeyClause | lib/ms-wmic.js:39-55 | Two scalar keys are joined by the defaulted ` AND ` and closed by `" `. |
| WhereClause.OperatorLastClause | lib/ms-wmic.js:40-50 | `{where: {k: v, operator: op}}` gives ` where "k = 'v' op `, using the caller's spelling of op. |
| WhereClause.UnescapedValueCollision | lib/ms-wmic.js:39 | Two different WHERE objects, one whose value holds `' AND b = '`, build the same clause. |
| GetClause.BuildGetClause | lib/ms-wmic.js:78-116 | A non-object `opt` gives TypeError `opt must be an object`, a non-array `get` TypeError `get property must be an array`, an empty array RangeError `get array was empty`. A non-empty array gives the fields joined by commas between ` get ` and a space, or the RangeError naming the first non-string index. A successful clause starts with ` get ` and ends with a space. |
| GetClause.FirstReport | lib/ms-wmic.js:91-107 | The walk's first report is either a RangeError or a success that extends the text built so far and ends with a space. |
| GetClause.Reports | lib/ms-wmic.js:91-107 | The walk makes at most one report per remaining element, and every report but the last is an error. |
| GetClause.FirstReportJoins | lib/ms-wmic.js:91-107 | From an index onward with only strings, the walk appends the fields joined by commas and a final space. |
| GetClause.FirstReportStops | lib/ms-wmic.js:95-98 | The walk's first report is the error for the first non-string element. |
| GetClause.ReportsStartWithFirst | lib/ms-wmic.js:91-107 | The first callback of the walk is the builder's outcome. |
| GetClause.ReportsCount | lib/ms-wmic.js:95-106 | The walk calls back once per non-string element, plus once more when the last element is a string. Only the last callback can be a success. |
| GetClause.EachCallbacks | lib/ms-wmic.js:89-107 | A loop that builds the clause reproduces the whole sequence of callbacks. Its first callback is the expected clause or error, and every callback but the last is an error. |
| GetClause.TwoFieldClause | lib/ms-wmic.js:87-106 | `get: [a, b]` gives ` get a,b `. |
| Executor.BannerSpellings | lib/ms-wmic.js:151 | A line is dropped exactly when its first five characters are w/W, m/M, i/I/ı, c/C and a colon. |
| Executor.IsBanner | lib/ms-wmic.js:151 | A dropped line has at least five characters, the fifth being a colon; BannerSpellings gives the exact spellings. |
| Executor.KeepLines | lib/ms-wmic.js:150-152 | The kept lines are exactly the non-banner lines. |
| Executor.KeepLinesAppend | lib/ms-wmic.js:150-152 | Filtering distributes over concatenating lists of lines. |
| Executor.KeptText | lib/ms-wmic.js:150-152 | The filtered output contains no line feed. |
| Executor.NoBannersOnlyRemovesBreaks | lib/ms-wmic.js:150-152 | Without banner lines, the filter only deletes the line feeds. |
| Executor.KeptTextOfLines | lib/ms-wmic.js:150-152 | Filtering lines joined by line feeds concatenates the non-banner lines in order. |
| Executor.Close | lib/ms-wmic.js:149-155 | The reply has an error exactly when the error stream is non-empty, and that error is a plain error carrying the trimmed stream. The output is the trimmed concatenation of the non-banner lines (characterised by KeptTextOfLines and Trim), and has no line feed. |
| Executor.Run | lib/ms-wmic.js:137-157 | One run of the tool on a command: the error is the trimmed error stream when there is one, and the output is the trimmed, filtered standard output. |
| Executor.Execute | lib/ms-wmic.js:128-160 | A non-string command is refused with TypeError `args must be a string`. A string command runs the tool on it: the error is the tool's trimmed error stream exactly when that stream is non-empty, and the output is the trimmed, filtered standard output. |
| Executor.RefusedCommandRunsNothing | lib/ms-wmic.js:132-135 | A refused command's outcome does not depend on the tool. |
| OutputParser.NormalizeLineEnds | lib/ms-wmic.js:123 | The repair never lengthens the text, never empties non-empty text, and leaves no pair of carriage returns; RepairLine and NormalizeLeavesCleanText fix it exactly. |
| OutputParser.NormalizeThenExpand | lib/ms-wmic.js:123 | The repair only turns `\r\r` into `\n`: writing every line feed back as `\r\r` gives the same text before and after. |
| OutputParser.NormalizeLeavesCleanText | lib/ms-wmic.js:123 | Text without a pair of carriage returns is left as it is. |
| OutputParser.RepairLine | lib/ms-wmic.js:123 | The scan runs left to right: a prefix without a pair of carriage returns, not ending in one, is kept; the first pair after it becomes a line feed and the scan goes on after that pair. |
| OutputParser.TripleCR | lib/ms-wmic.js:123 | Three carriage returns after such a prefix become a line feed followed by one carriage return. |
| OutputParser.ParseOutput | lib/ms-wmic.js:117-126 | A prior error passes through with no rows. Otherwise the decoder's error and rows are its reading of `NormalizeLineEnds(stdout)`, a text with no `\r\r` that differs from the output only in line feeds versus `\r\r`. The raw output is always handed on. |
| OutputParser.RepairLinesThen | lib/ms-wmic.js:123 | Lines free of carriage returns, each ended by `\r\r`, are repaired into the same lines each ended by `\n`, and the repair continues with what follows. |
| OutputParser.FilteredOutput | lib/ms-wmic.js:150-152 | Banner lines and line feeds are removed from the tool's output, so each data line keeps its `\r\r` ending. |
| OutputParser.LineBreaksRestored | lib/ms-wmic.js:123-152 | Filtering and then repairing the tool's output gives the data lines, each ended by one line feed. |
| OutputParser.TrimmedData | lib/ms-wmic.js:154 | Trimming the filtered data drops only the `\r\r` after the last line. |
| OutputParser.RepairJoined | lib/ms-wmic.js:123 | Lines joined by `\r\r` are repaired into the same lines joined by `\n`. |
| OutputParser.DecoderSeesDataLines | lib/ms-wmic.js:117-155 | A run with banners and `\r\r\n`-ended data lines and no error output has these properties: it has no error; it hands on the data lines joined by `\r\r`; and its decoder sees the data lines joined by line feeds. |
| Text.Split | lib/ms-wmic.js:150 | `split('\n')` gives at least one piece, no piece holds a line feed, and joining the pieces gives back the text. |
| Text.SplitJoin | lib/ms-wmic.js:150 | `split` undoes `join` when no part holds the separator. |
| Text.Trim | lib/ms-wmic.js:154 | `trim` keeps a contiguous piece surrounded only by whitespace, which neither starts nor ends with whitespace. |
| Text.TrimSurrounded | lib/ms-wmic.js:154 | Text with non-blank ends, surrounded only by whitespace, trims to itself. |
| Text.Contains | lib/ms-wmic.js:239 | `_.contains` on strings holds exactly when the text occurs at some index. |
| Text.NatToStringRoundTrip | lib/ms-wmic.js:96 | The decimal index in the GET error message reads back as the index. |
| JsValues.Entries | lib/ms-wmic.js:22 | `_.keys` with values: a plain object's fields in order, the decimal indices of an array with its elements, nothing for a function or a primitive. |
| JsValues.SetField | lib/ms-wmic.js:238 | Setting a property makes it the new value. Every other property keeps its value and every existing key keeps its place; a new key goes last. |
| JsValues.Extend | lib/ms-wmic.js:238 | `_.extend(opt, {call: …})` on a plain object sets `call` and leaves every other property as it was. |
| Wmic.GetCommand | lib/ms-wmic.js:167-181 | A command is built exactly when the optional WHERE clause and the GET clause both succeed. A WHERE failure is the reported error; when WHERE succeeds, a GET failure is. |
| Wmic.GetCommandOf | lib/ms-wmic.js:181 | With both fragments built, the command is `process` + WHERE fragment + GET fragment + `/format:csv`. |
| Wmic.GetCommandFrame | lib/ms-wmic.js:181 | Every `get` command starts `process ` and ends ` /format:csv`. |
| Wmic.Get | lib/ms-wmic.js:162-189 | `get` is refused with the command's error exactly when the command cannot be built. Otherwise the tool runs on that command and the caller receives the output parser's reply to the `close` handler's error and output, the raw output being the filtered output. |
| Wmic.GetReadsDataLines | lib/ms-wmic.js:180-185 | A clean run whose output is banner lines and `\r\r\n`-ended data lines gives the caller the decoder's reading of the data lines joined by line feeds, and the data lines joined by `\r\r` as raw output. |
| Wmic.GetWithoutFilter | lib/ms-wmic.js:167-181 | Without a WHERE object, `get: [a, b]` runs `process` + ` ` + ` get a,b ` + `/format:csv`. |
| Wmic.GetToolFailure | lib/ms-wmic.js:180-185 | When the tool writes to its error stream, `get` reports that stream, trimmed, as the error, with no rows. |
| Wmic.ListCommand | lib/ms-wmic.js:198-204 | A `list` command is built exactly when the WHERE clause of `{where: where}`, as an optional clause, succeeds; otherwise its error is reported. |
| Wmic.ListCommandOf | lib/ms-wmic.js:204 | With the WHERE fragment built, the command is `process` + fragment + `list /format:csv`. |
| Wmic.ListCommandFrame | lib/ms-wmic.js:190-204 | Every `list` command starts `process ` and ends `list /format:csv`. Without conditions, including a callback passed as `where`, it is exactly `process list /format:csv`. |
| Wmic.List | lib/ms-wmic.js:190-210 | `list` is refused with the command's error exactly when the command cannot be built. Otherwise the tool runs on that command and the output parser's reply reaches the caller. |
| Wmic.ListReadsDataLines | lib/ms-wmic.js:204-206 | A clean run of the `list` command gives the caller the decoder's reading of the data lines joined by line feeds. |
| Wmic.CallCommand | lib/ms-wmic.js:216-227 | A command is built only with conditions and a non-empty string method name. A failure of the required WHERE clause is the reported error (lines 217-218). After a successful WHERE clause, a non-string or empty `call` gives its exact TypeError. |
| Wmic.CallCommandFrame | lib/ms-wmic.js:227 | Every `call` command starts `process where "` and ends with `call ` and the method name. |
| Wmic.Call | lib/ms-wmic.js:211-232 | `call` is refused with the command's error exactly when the command cannot be built. Otherwise the caller receives the `close` handler's reply for the tool run on that command, with no decoding. |
| Wmic.CallReadsDataLines | lib/ms-wmic.js:227 | A clean run of the `call` command hands the caller no error and the data lines joined by `\r\r`. |
| Wmic.CallRequiresConditions | lib/ms-wmic.js:216-219 | Without a usable WHERE object, `call` is refused with a TypeError or RangeError. |
| Wmic.CallCommandOf | lib/ms-wmic.js:220-227 | With a WHERE fragment and a non-empty name, the command is `process<where>call <name>`. |
| Wmic.WhereReadsOnlyWhere | lib/ms-wmic.js:16-22 | The WHERE fragment depends only on whether the options are an object and on their `where` property. |
| Wmic.Terminate | lib/ms-wmic.js:233-243 | `terminate` is refused exactly when the forced `call` is, with the same error. An error of the call itself is passed on unchanged, and the call's output is handed on unchanged; TerminateOutcome gives the `No Instance(s) Available` case. |
| Wmic.TerminateCommand | lib/ms-wmic.js:238 | `terminate` runs `process<where>call terminate`, whatever `call` the caller gave. |
| Wmic.TerminateNeedsObject | lib/ms-wmic.js:233-238 | Options that are not a plain object are refused with a TypeError before anything runs. |
| Wmic.TerminateOutcome | lib/ms-wmic.js:239 | `terminate` fails exactly when the tool wrote to its error stream or its output mentions `No Instance(s) Available`. In the second case, the error message is the output itself. |
| Wmic.RefusalRunsNothing | lib/ms-wmic.js:174-225 | When `get`, `list` or `call` cannot build its command, the outcome does not depend on the tool. |

## Left out

- Spawning `wmic` and reading its streams are not modelled. The subprocess is the `tool` parameter, and its data events are already accumulated into `Streams`.
- `csv.parse` is not modelled. It is the `decode` parameter, and what the model states is the text the decoder is given.
- Asynchronous scheduling is left out, including the once-only callbacks of `async.waterfall`. `BuildGetClause` is the first callback, which is the one `get` acts on. `EachCallbacks` lists every callback `_.each` makes.
- The synchronous `cb must be a function` throws are left out, as are the `_.noop` defaults for a missing callback. They concern the callback argument, not the options.
- The value of `execute` and of the process operations (the `wmic` object, for chaining) is left out.
- Error objects are reduced to a kind (TypeError, RangeError, SyntaxError, plain Error) and a message. Stack traces are left out.
- The mutations of the caller's options are left out. These are the defaulting of `opt.where.operator` to `AND`, and `_.extend` in `terminate`. They are modelled only through their effect on the command: the separator, and the value the walk reads for an `operator` key. One consequence is left out. Line 52 adds `operator: 'AND'` as the last key of the caller's own WHERE object. Building again from the same options therefore sees a trailing `operator` key. For example, a second `list({name: 'x'}, cb)` with the same object gives ` where "name = 'x' AND ` with no closing quote. The model builds every command from the options as given, so it describes only the first build; OperatorLastLeavesClauseOpen describes what the second build writes.
- Text.IsWhitespace: it covers a fixed set of characters (space, tab, line feed, vertical tab, form feed, carriage return, no-break space, byte-order mark, line and paragraph separators). The other Unicode space separators that `trim` also removes are not included.
- Text.UpperChar: upper-casing covers ASCII letters and the dotless i, which are all that can upper-case into `WMIC:`, `AND` or `OR`. Other characters are left unchanged.
- JsValues.Value: numbers are integers. Fractions, `NaN` and infinities are left out, so `String(value)` is only decimal integer text. This also differs from JavaScript for large numbers. JavaScript writes a number of 10^21 or more in size in exponent form, so `{where: {pid: 1e21}}` gives `pid = '1e+21'` where the model writes 22 digits. Integers above 2^53 are not exact JavaScript numbers at all.
- JsValues.Value: a plain object's fields are taken in the order listed, so the model does not move integer-like keys to the front as JavaScript's enumeration does, and it does not require distinct keys (with a repeated key, property reads see the first entry while the walk visits both).
- JsValues.Value: arrays have no holes, and arrays and functions carry no named properties. So `opt.where` or `opt.get` read from an array or a function is `undefined`.
- JsValues.Extend: on a value that is not a plain object, the value is returned unchanged. Lodash would box a primitive or write onto an array or function. `call` then refuses either way, but a non-object `opt` may give the message `where property must be an object` where the model gives `opt must be an object` (both are TypeErrors).
- WhereClause.RenderRoundTrip: this is stated per comparison, not for a whole clause. Values are not escaped, so a whole clause does not always read back (`UnescapedValueCollision`).
